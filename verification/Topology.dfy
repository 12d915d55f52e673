// Sorting CPUs into big, little and turbo by one capacity figure, over exact
// arithmetic, and the aliases that name the result.
module Topology {
  import opened Common
  import opened Text
  import opened CpuSets

  // What each CPU reports under the chosen source; None when it reports nothing.
  type Reading = nat -> Option<nat>

  // ---- Choosing one source for the whole machine ----

  const SOURCES: nat := 5

  // A raw zero means "not filled in".
  function Capacity(raw: (nat, nat) -> Option<nat>, source: nat, cpu: nat): Option<nat> {
    if raw(source, cpu).Some? && raw(source, cpu).value > 0 then raw(source, cpu) else None
  }

  lemma ZeroIsNoReading(raw: (nat, nat) -> Option<nat>, source: nat, cpu: nat, v: nat)
    ensures Capacity(raw, source, cpu) == Some(v) <==> raw(source, cpu) == Some(v) && v > 0
  {
  }

  ghost predicate TellsApart(raw: (nat, nat) -> Option<nat>, cpus: set<nat>, first: nat, source: nat) {
    && Capacity(raw, source, first).Some?
    && exists c :: c in cpus && Capacity(raw, source, c).Some? && Capacity(raw, source, c) != Capacity(raw, source, first)
  }

  method Differs(raw: (nat, nat) -> Option<nat>, cpus: set<nat>, first: nat, source: nat) returns (differs: bool)
    requires Capacity(raw, source, first).Some?
    ensures differs <==> TellsApart(raw, cpus, first, source)
  {
    var todo := cpus;
    while todo != {}
      invariant todo <= cpus
      invariant forall c :: c in cpus - todo && Capacity(raw, source, c).Some? ==>
        Capacity(raw, source, c) == Capacity(raw, source, first)
      decreases |todo|
    {
      var c :| c in todo;
      if Capacity(raw, source, c).Some? && Capacity(raw, source, c) != Capacity(raw, source, first) {
        return true;
      }
      todo := todo - {c};
    }
    return false;
  }

  // The most precise source that tells some CPU from the first; failing that, the
  // last one the first CPU reports; failing that, the least precise.
  ghost predicate Picked(raw: (nat, nat) -> Option<nat>, cpus: set<nat>, first: nat, source: nat) {
    && source < SOURCES
    && ((exists s :: 0 <= s < SOURCES && TellsApart(raw, cpus, first, s)) ==>
          TellsApart(raw, cpus, first, source) && forall s :: 0 <= s < source ==> !TellsApart(raw, cpus, first, s))
    && ((forall s :: 0 <= s < SOURCES ==> !TellsApart(raw, cpus, first, s)) ==>
          && (forall s :: source < s < SOURCES ==> Capacity(raw, s, first) == None)
          && (Capacity(raw, source, first).Some? || source == SOURCES - 1))
  }

  method PickCapacitySource(raw: (nat, nat) -> Option<nat>, cpus: set<nat>) returns (source: nat)
    ensures cpus == {} ==> source == SOURCES - 1
    ensures forall first :: first in cpus && (forall c :: c in cpus ==> first <= c) ==> Picked(raw, cpus, first, source)
  {
    if cpus == {} {
      return SOURCES - 1;
    }
    var sorted := Sorted(cpus);
    assert sorted[0] in Elems(sorted);
    assert forall c :: c in cpus ==> c in Elems(sorted);
    source := PickFor(raw, cpus, sorted[0]);
  }

  method PickFor(raw: (nat, nat) -> Option<nat>, cpus: set<nat>, first: nat) returns (source: nat)
    ensures Picked(raw, cpus, first, source)
  {
    var chosen: Option<nat> := None;
    var s: nat := 0;
    while s < SOURCES
      invariant s <= SOURCES
      invariant forall k :: 0 <= k < s ==> !TellsApart(raw, cpus, first, k)
      invariant chosen.Some? ==> chosen.value < s && Capacity(raw, chosen.value, first).Some?
      invariant forall k :: 0 <= k < s && (chosen == None || chosen.value < k) ==> Capacity(raw, k, first) == None
    {
      if Capacity(raw, s, first).Some? {
        chosen := Some(s);
        var differs := Differs(raw, cpus, first, s);
        if differs {
          return s;
        }
      }
      s := s + 1;
    }
    source := if chosen.Some? then chosen.value else SOURCES - 1;
  }

  // ---- Sums over a set of CPUs ----

  ghost function Pick(s: set<nat>): (c: nat)
    requires s != {}
    ensures c in s
  {
    var c :| c in s; c
  }

  ghost function Sum(cpus: set<nat>, r: Reading): real
  {
    if cpus == {} then 0.0
    else
      var c := Pick(cpus);
      Value(r, c) + Sum(cpus - {c}, r)
  }

  function Value(r: Reading, c: nat): real {
    if r(c).Some? then r(c).value as real else 0.0
  }

  lemma {:induction false} SumRemove(cpus: set<nat>, r: Reading, c: nat)
    requires c in cpus
    ensures Sum(cpus, r) == Value(r, c) + Sum(cpus - {c}, r)
    decreases |cpus|
  {
    var m := Pick(cpus);
    if m != c {
      SumRemove(cpus - {m}, r, c);
      SumRemove(cpus - {c}, r, m);
      assert cpus - {m} - {c} == cpus - {c} - {m};
    }
  }

  lemma {:induction false} SumUnion(a: set<nat>, b: set<nat>, r: Reading)
    requires a !! b
    ensures Sum(a + b, r) == Sum(a, r) + Sum(b, r)
    decreases |b|
  {
    if b == {} {
      assert a + b == a;
    } else {
      var c := Pick(b);
      SumUnion(a, b - {c}, r);
      SumRemove(a + b, r, c);
      SumRemove(b, r, c);
      assert a + b - {c} == a + (b - {c});
    }
  }

  // `x` added `n` times, which keeps multiplication out of the inductions.
  ghost function Times(x: real, n: nat): real {
    if n == 0 then 0.0 else x + Times(x, n - 1)
  }

  lemma {:induction false} TimesIsProduct(x: real, n: nat)
    ensures Times(x, n) == x * n as real
  {
    if n > 0 {
      TimesIsProduct(x, n - 1);
      assert n as real == (n - 1) as real + 1.0;
      assert x * n as real == x * (n - 1) as real + x;
    }
  }

  lemma {:induction false} SumSame(cpus: set<nat>, r: Reading, v: nat)
    requires forall c :: c in cpus ==> r(c) == Some(v)
    ensures Sum(cpus, r) == Times(v as real, |cpus|)
    decreases |cpus|
  {
    if cpus != {} {
      var c := Pick(cpus);
      SumSame(cpus - {c}, r, v);
      assert |cpus| == |cpus - {c}| + 1;
    }
  }

  lemma {:induction false} SumLower(cpus: set<nat>, r: Reading, lo: real)
    requires forall d :: d in cpus ==> lo <= Value(r, d)
    ensures Times(lo, |cpus|) <= Sum(cpus, r)
    decreases |cpus|
  {
    if cpus != {} {
      var c := Pick(cpus);
      SumLower(cpus - {c}, r, lo);
      assert |cpus| == |cpus - {c}| + 1;
    }
  }

  lemma {:induction false} SumUpper(cpus: set<nat>, r: Reading, hi: real)
    requires forall d :: d in cpus ==> Value(r, d) <= hi
    ensures Sum(cpus, r) <= Times(hi, |cpus|)
    decreases |cpus|
  {
    if cpus != {} {
      var c := Pick(cpus);
      SumUpper(cpus - {c}, r, hi);
      assert |cpus| == |cpus - {c}| + 1;
    }
  }

  // Strictly above the least when any reading is above it.
  lemma SumAbove(cpus: set<nat>, r: Reading, lo: real, c: nat)
    requires c in cpus && lo < Value(r, c) && forall d :: d in cpus ==> lo <= Value(r, d)
    ensures Times(lo, |cpus|) < Sum(cpus, r)
  {
    SumRemove(cpus, r, c);
    SumLower(cpus - {c}, r, lo);
    assert |cpus| == |cpus - {c}| + 1;
  }

  // ---- Grouping ----

  ghost function Reporting(cpus: set<nat>, r: Reading): set<nat> {
    set c | c in cpus && r(c).Some?
  }

  ghost predicate Grouped(m: map<nat, set<nat>>, cpus: set<nat>, r: Reading) {
    && (forall k :: k in m ==> m[k] != {})
    && (forall k, c :: k in m && c in m[k] ==> c in cpus && r(c) == Some(k))
    && (forall c :: c in cpus && r(c).Some? ==> r(c).value in m && c in m[r(c).value])
  }

  // Filing one more CPU.
  lemma GroupedNext(m: map<nat, set<nat>>, cpus: set<nat>, r: Reading, c: nat, v: nat)
    requires Grouped(m, cpus, r) && r(c) == Some(v)
    ensures Grouped(m[v := (if v in m then m[v] else {}) + {c}], cpus + {c}, r)
  {
    var m' := m[v := (if v in m then m[v] else {}) + {c}];
    assert c in m'[v];
    forall k, d | k in m' && d in m'[k] ensures d in cpus + {c} && r(d) == Some(k) {
      if d != c || k != v { assert k in m && d in m[k]; }
    }
    forall d | d in cpus + {c} && r(d).Some? ensures r(d).value in m' && d in m'[r(d).value] {
      if d != c { assert d in cpus; }
    }
  }

  method GroupByReading(cpus: set<nat>, r: Reading) returns (m: map<nat, set<nat>>)
    ensures Grouped(m, cpus, r)
  {
    m := map[];
    var todo := cpus;
    while todo != {}
      invariant todo <= cpus && Grouped(m, cpus - todo, r)
      decreases |todo|
    {
      var c :| c in todo;
      assert cpus - (todo - {c}) == (cpus - todo) + {c};
      match r(c) {
        case Some(v) =>
          GroupedNext(m, cpus - todo, r, c, v);
          m := m[v := (if v in m then m[v] else {}) + {c}];
        case None =>
      }
      todo := todo - {c};
    }
  }

  // The CPUs whose reading is one of the first `i` metrics.
  ghost function Upto(m: map<nat, set<nat>>, keys: seq<nat>, i: nat): set<nat>
    requires i <= |keys| && forall k :: k in keys ==> k in m
  {
    if i == 0 then {} else Upto(m, keys, i - 1) + m[keys[i - 1]]
  }

  lemma {:induction false} UptoIs(m: map<nat, set<nat>>, keys: seq<nat>, i: nat, cpus: set<nat>, r: Reading)
    requires i <= |keys| && (forall k :: k in keys ==> k in m) && Grouped(m, cpus, r)
    ensures forall c :: c in Upto(m, keys, i) <==> c in cpus && r(c).Some? && r(c).value in keys[..i]
  {
    if i > 0 {
      UptoIs(m, keys, i - 1, cpus, r);
      assert keys[..i] == keys[..i - 1] + [keys[i - 1]];
    }
  }

  lemma AllGroups(m: map<nat, set<nat>>, keys: seq<nat>, cpus: set<nat>, r: Reading)
    requires Elems(keys) == m.Keys && (forall k :: k in keys ==> k in m) && Grouped(m, cpus, r)
    ensures Upto(m, keys, |keys|) == Reporting(cpus, r)
  {
    UptoIs(m, keys, |keys|, cpus, r);
    assert keys[..|keys|] == keys;
  }

  lemma NextGroupIsNew(m: map<nat, set<nat>>, keys: seq<nat>, i: nat, cpus: set<nat>, r: Reading)
    requires i < |keys| && StrictlyAscending(keys) && (forall k :: k in keys ==> k in m) && Grouped(m, cpus, r)
    ensures Upto(m, keys, i) !! m[keys[i]]
    ensures Upto(m, keys, i + 1) == Upto(m, keys, i) + m[keys[i]]
    ensures forall c :: c in m[keys[i]] ==> r(c) == Some(keys[i])
  {
    UptoIs(m, keys, i, cpus, r);
    assert keys[i] !in keys[..i];
  }

  // `metric as f64 * cores.len() as f64`, added to the sum.
  method AddGroup(sum: real, count: nat, metric: nat, group: set<nat>, ghost done: set<nat>, ghost r: Reading)
    returns (sum': real, count': nat)
    requires sum == Sum(done, r) && count == |done|
    requires done !! group && forall c :: c in group ==> r(c) == Some(metric)
    ensures sum' == Sum(done + group, r) && count' == |done + group|
  {
    sum' := sum + metric as real * |group| as real;
    count' := count + |group|;
    SumUnion(done, group, r);
    SumSame(group, r, metric);
    TimesIsProduct(metric as real, |group|);
  }

  method MeanReading(m: map<nat, set<nat>>, keys: seq<nat>, ghost cpus: set<nat>, ghost r: Reading) returns (sum: real, count: nat)
    requires Grouped(m, cpus, r) && StrictlyAscending(keys) && Elems(keys) == m.Keys
    ensures sum == Sum(Reporting(cpus, r), r) && count == |Reporting(cpus, r)|
  {
    sum, count := 0.0, 0;
    ghost var done: set<nat> := {};
    assert forall k :: k in keys ==> k in Elems(keys);
    var i := 0;
    while i < |keys|
      invariant 0 <= i <= |keys|
      invariant done == Upto(m, keys, i)
      invariant sum == Sum(done, r) && count == |done|
    {
      var group := m[keys[i]];
      NextGroupIsNew(m, keys, i, cpus, r);
      sum, count := AddGroup(sum, count, keys[i], group, done, r);
      done := done + group;
      i := i + 1;
    }
    AllGroups(m, keys, cpus, r);
  }

  method SplitAt(m: map<nat, set<nat>>, keys: seq<nat>, threshold: real, ghost cpus: set<nat>, ghost r: Reading)
    returns (little: set<nat>, big: set<nat>)
    requires Grouped(m, cpus, r) && Elems(keys) == m.Keys
    ensures little == set c | c in Reporting(cpus, r) && Value(r, c) < threshold
    ensures big == set c | c in Reporting(cpus, r) && Value(r, c) >= threshold
  {
    little, big := {}, {};
    assert forall k :: k in keys ==> k in Elems(keys);
    var i := 0;
    while i < |keys|
      invariant 0 <= i <= |keys|
      invariant little == set c | c in Upto(m, keys, i) && Value(r, c) < threshold
      invariant big == set c | c in Upto(m, keys, i) && Value(r, c) >= threshold
    {
      assert forall c :: c in m[keys[i]] ==> Value(r, c) == keys[i] as real;
      if (keys[i] as real) < threshold {
        little := little + m[keys[i]];
      } else {
        big := big + m[keys[i]];
      }
      i := i + 1;
    }
    AllGroups(m, keys, cpus, r);
  }

  // ---- The classifier ----

  datatype Cores = Cores(hasBigLittle: bool, all: set<nat>, big: set<nat>, little: set<nat>, turbo: set<nat>)

  function Homogeneous(cpus: set<nat>): Cores { Cores(false, cpus, cpus, {}, {}) }

  // A machine is heterogeneous when its extremes are at least 1.3x apart.
  ghost predicate Heterogeneous(cpus: set<nat>, r: Reading) {
    exists a, b :: IsLeast(a, cpus, r) && IsGreatest(b, cpus, r) && Value(r, a) < Value(r, b) && Value(r, b) >= Value(r, a) * 1.3
  }

  ghost predicate IsLeast(a: nat, cpus: set<nat>, r: Reading) {
    a in Reporting(cpus, r) && forall c :: c in Reporting(cpus, r) ==> Value(r, a) <= Value(r, c)
  }

  ghost predicate IsGreatest(a: nat, cpus: set<nat>, r: Reading) {
    a in Reporting(cpus, r) && forall c :: c in Reporting(cpus, r) ==> Value(r, c) <= Value(r, a)
  }

  ghost function Mean(cpus: set<nat>, r: Reading): real
    requires Reporting(cpus, r) != {}
  {
    Sum(Reporting(cpus, r), r) / |Reporting(cpus, r)| as real
  }

  // The tiers as they are meant: below the mean, at or above it, and the very top.
  ghost predicate Tiered(t: Cores, cpus: set<nat>, r: Reading) {
    && t.hasBigLittle && t.all == cpus
    && Reporting(cpus, r) != {}
    && t.little == (set c | c in Reporting(cpus, r) && Value(r, c) < Mean(cpus, r))
    && t.big == (set c | c in Reporting(cpus, r) && Value(r, c) >= Mean(cpus, r))
    && t.turbo == (set c | c in Reporting(cpus, r) && IsGreatest(c, cpus, r))
  }

  method Classify(cpus: set<nat>, r: Reading) returns (t: Cores)
    ensures Heterogeneous(cpus, r) ==> Tiered(t, cpus, r)
    ensures !Heterogeneous(cpus, r) ==> t == Homogeneous(cpus)
    ensures !Heterogeneous(cpus, r) ==> !t.hasBigLittle && t.big == t.all == cpus && t.little == t.turbo == {}
  {
    var m := GroupByReading(cpus, r);
    var keys := Sorted(m.Keys);
    assert forall k :: k in keys <==> k in m.Keys by { assert forall k :: k in keys <==> k in Elems(keys); }
    if |keys| <= 1 {
      OneMetric(m, keys, cpus, r);
      return Homogeneous(cpus);
    }
    var lowest, highest := keys[0], keys[|keys| - 1];
    Extremes(m, keys, cpus, r);
    if (highest as real) < lowest as real * 1.3 {
      return Homogeneous(cpus);
    }
    var sum, count := MeanReading(m, keys, cpus, r);
    assert Reporting(cpus, r) != {};
    var threshold := sum / count as real;
    var little, big := SplitAt(m, keys, threshold, cpus, r);
    t := Cores(true, cpus, big, little, m[highest]);
  }

  lemma OneMetric(m: map<nat, set<nat>>, keys: seq<nat>, cpus: set<nat>, r: Reading)
    requires Grouped(m, cpus, r) && |keys| <= 1 && forall k :: k in keys <==> k in m.Keys
    ensures !Heterogeneous(cpus, r)
  {
    forall a, b | a in Reporting(cpus, r) && b in Reporting(cpus, r) ensures Value(r, a) == Value(r, b) {
      assert r(a).value in keys && r(b).value in keys;
    }
  }

  lemma WithinExtremes(m: map<nat, set<nat>>, keys: seq<nat>, cpus: set<nat>, r: Reading, c: nat)
    requires Grouped(m, cpus, r) && StrictlyAscending(keys) && keys != [] && (forall k :: k in keys <==> k in m.Keys)
    requires c in Reporting(cpus, r)
    ensures keys[0] as real <= Value(r, c) <= keys[|keys| - 1] as real
    ensures c in m[keys[|keys| - 1]] <==> Value(r, c) == keys[|keys| - 1] as real
  {
    assert keys[|keys| - 1] in keys;
    assert r(c).value in keys;
    var i :| 0 <= i < |keys| && keys[i] == r(c).value;
  }

  // The first and last metric are the extremes, and their groups the extreme CPUs.
  lemma Extremes(m: map<nat, set<nat>>, keys: seq<nat>, cpus: set<nat>, r: Reading)
    requires Grouped(m, cpus, r) && StrictlyAscending(keys) && |keys| >= 2 && (forall k :: k in keys <==> k in m.Keys)
    ensures var lowest, highest := keys[0], keys[|keys| - 1];
      && lowest in m && highest in m && lowest < highest
      && Reporting(cpus, r) != {}
      && m[highest] == (set c | c in Reporting(cpus, r) && IsGreatest(c, cpus, r))
      && (Heterogeneous(cpus, r) <==> highest as real >= lowest as real * 1.3)
  {
    var lowest, highest := keys[0], keys[|keys| - 1];
    assert lowest in keys && highest in keys;
    var a :| a in m[lowest];
    var b :| b in m[highest];
    assert a in Reporting(cpus, r) && b in Reporting(cpus, r);
    LeastAndGreatest(m, keys, cpus, r, a, b);
    ExtremesDecide(cpus, r, a, b);
    TopGroup(m, keys, cpus, r, b);
  }

  lemma TopGroup(m: map<nat, set<nat>>, keys: seq<nat>, cpus: set<nat>, r: Reading, b: nat)
    requires Grouped(m, cpus, r) && StrictlyAscending(keys) && keys != [] && (forall k :: k in keys <==> k in m.Keys)
    requires IsGreatest(b, cpus, r) && keys[|keys| - 1] in m && Value(r, b) == keys[|keys| - 1] as real
    ensures m[keys[|keys| - 1]] == set c | c in Reporting(cpus, r) && IsGreatest(c, cpus, r)
  {
    forall c | c in Reporting(cpus, r) ensures c in m[keys[|keys| - 1]] <==> IsGreatest(c, cpus, r) {
      WithinExtremes(m, keys, cpus, r, c);
    }
  }

  lemma LeastAndGreatest(m: map<nat, set<nat>>, keys: seq<nat>, cpus: set<nat>, r: Reading, a: nat, b: nat)
    requires Grouped(m, cpus, r) && StrictlyAscending(keys) && |keys| >= 2 && (forall k :: k in keys <==> k in m.Keys)
    requires keys[0] in m && keys[|keys| - 1] in m && a in m[keys[0]] && b in m[keys[|keys| - 1]]
    ensures IsLeast(a, cpus, r) && IsGreatest(b, cpus, r)
    ensures Value(r, a) == keys[0] as real && Value(r, b) == keys[|keys| - 1] as real
  {
    forall c | c in Reporting(cpus, r) ensures keys[0] as real <= Value(r, c) <= keys[|keys| - 1] as real {
      WithinExtremes(m, keys, cpus, r, c);
    }
  }

  lemma ExtremesDecide(cpus: set<nat>, r: Reading, a: nat, b: nat)
    requires IsLeast(a, cpus, r) && IsGreatest(b, cpus, r) && Value(r, a) < Value(r, b)
    ensures Heterogeneous(cpus, r) <==> Value(r, b) >= Value(r, a) * 1.3
    ensures forall c :: c in Reporting(cpus, r) ==> (IsGreatest(c, cpus, r) <==> Value(r, c) == Value(r, b))
  {
  }

  // ---- What the tiers guarantee ----

  lemma DivBounds(lo: real, sum: real, hi: real, n: real)
    requires n > 0.0 && lo * n < sum <= hi * n
    ensures lo < sum / n <= hi
  {
  }

  lemma MeanBetween(lo: real, sum: real, hi: real, n: nat)
    requires n > 0 && Times(lo, n) < sum <= Times(hi, n)
    ensures lo < sum / n as real <= hi
  {
    TimesIsProduct(lo, n);
    TimesIsProduct(hi, n);
    DivBounds(lo, sum, hi, n as real);
  }

  // Big and little are non-empty, disjoint, cover exactly the CPUs that report,
  // and are ordered by reading; turbo is a non-empty part of big.
  lemma TiersAreSound(t: Cores, cpus: set<nat>, r: Reading)
    requires Heterogeneous(cpus, r) && Tiered(t, cpus, r)
    ensures t.big != {} && t.little != {} && t.big !! t.little
    ensures t.big + t.little == Reporting(cpus, r)
    ensures forall l, b :: l in t.little && b in t.big ==> Value(r, l) < Value(r, b)
    ensures t.turbo != {} && t.turbo <= t.big
  {
    var a, b :| IsLeast(a, cpus, r) && IsGreatest(b, cpus, r) && Value(r, a) < Value(r, b) && Value(r, b) >= Value(r, a) * 1.3;
    var s := Reporting(cpus, r);
    SumAbove(s, r, Value(r, a), b);
    SumUpper(s, r, Value(r, b));
    MeanBetween(Value(r, a), Sum(s, r), Value(r, b), |s|);
    assert a in t.little && b in t.big && b in t.turbo;
    assert forall c :: c in t.turbo ==> Value(r, c) == Value(r, b);
  }

  // ---- The aliases ----

  datatype Aliases = Aliases(all: string, big: string, little: string, performance: string, efficiency: string, turbo: string)

  // Turbo cores when there are some and they are not every core, else the big ones.
  method GenerateAliases(t: Cores) returns (a: Aliases)
    ensures a.all == SetText(t.all) && a.big == SetText(t.big) && a.little == a.efficiency == SetText(t.little)
    ensures a.turbo == SetText(t.turbo)
    ensures a.performance == if a.turbo != "" && a.turbo != a.all then a.turbo else a.big
  {
    var all := FormatCpuset(t.all);
    var big := FormatCpuset(t.big);
    var little := FormatCpuset(t.little);
    var turbo := FormatCpuset(t.turbo);
    a := Aliases(all, big, little, if turbo != "" && turbo != all then turbo else big, little, turbo);
  }

  // On every machine `performance-cores` names CPUs of `big-cores`, none of which
  // is in `efficiency-cores`.
  lemma PerformanceInsideBig(t: Cores, cpus: set<nat>, r: Reading, performance: set<nat>)
    requires if Heterogeneous(cpus, r) then Tiered(t, cpus, r) else t == Homogeneous(cpus)
    requires forall c :: c in cpus || c in performance ==> c <= U32_MAX
    requires SetText(performance) ==
      if SetText(t.turbo) != "" && SetText(t.turbo) != SetText(t.all) then SetText(t.turbo) else SetText(t.big)
    ensures performance <= t.big && performance !! t.little
  {
    if Heterogeneous(cpus, r) {
      TiersAreSound(t, cpus, r);
    }
    if SetText(t.turbo) != "" && SetText(t.turbo) != SetText(t.all) {
      SetTextInjective(performance, t.turbo);
      EmptyText();
    } else {
      SetTextInjective(performance, t.big);
    }
  }
}
