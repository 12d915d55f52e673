// Splitting the CPUs of an X3D part into its cache die and the others.
module X3d {
  import opened Common
  import opened Text
  import opened CpuSets

  // ---- Reading the dies ----

  // What one CPU's directory says.  A die or cluster file is None when it cannot
  // be read or holds no number; `cache` is 0 when no L3 size could be read.
  datatype Cpu = Cpu(id: nat, die: Option<int>, cluster: Option<Option<int>>, cache: nat)

  // The die, else the cluster, as an unsigned 32-bit number; 0 for neither.
  function DieId(cpu: Cpu): nat {
    var own := if (cpu.die == None || cpu.die == Some(-1)) && cpu.cluster.Some? then cpu.cluster.value else cpu.die;
    if own.Some? then own.value % 0x1_0000_0000 else 0
  }

  lemma DieOrCluster(id: nat, n: int, cluster: Option<Option<int>>, cache: nat)
    ensures n != -1 ==> DieId(Cpu(id, Some(n), cluster, cache)) == n % 0x1_0000_0000
    ensures DieId(Cpu(id, None, Some(Some(n)), cache)) == DieId(Cpu(id, Some(-1), Some(Some(n)), cache)) == n % 0x1_0000_0000
    ensures DieId(Cpu(id, None, None, cache)) == DieId(Cpu(id, Some(-1), Some(None), cache)) == 0
    ensures DieId(Cpu(id, Some(-1), None, cache)) == 0xFFFF_FFFF
  {
    assert (-1) % 0x1_0000_0000 == 0xFFFF_FFFF;
  }

  ghost predicate OnDie(cpus: seq<Cpu>, d: nat, id: nat) {
    exists i :: 0 <= i < |cpus| && cpus[i].id == id && DieId(cpus[i]) == d
  }

  // The last CPU of a die that reported a cache size decides the die's.
  predicate LastCache(cpus: seq<Cpu>, d: nat, i: int) {
    && 0 <= i < |cpus| && DieId(cpus[i]) == d && cpus[i].cache > 0
    && forall j :: i < j < |cpus| && DieId(cpus[j]) == d ==> cpus[j].cache == 0
  }

  ghost predicate DiesRead(cpus: seq<Cpu>, dies: map<nat, set<nat>>) {
    && (forall d :: d in dies ==> dies[d] != {})
    && (forall d, id :: d in dies && id in dies[d] ==> OnDie(cpus, d, id))
    && (forall i :: 0 <= i < |cpus| ==> DieId(cpus[i]) in dies && cpus[i].id in dies[DieId(cpus[i])])
  }

  ghost predicate CachesRead(cpus: seq<Cpu>, caches: map<nat, nat>) {
    && (forall d :: d in caches <==> exists i :: LastCache(cpus, d, i))
    && (forall d, i :: LastCache(cpus, d, i) ==> d in caches && caches[d] == cpus[i].cache)
  }

  lemma DiesNext(cpus: seq<Cpu>, i: nat, dies: map<nat, set<nat>>)
    requires i < |cpus| && DiesRead(cpus[..i], dies)
    ensures var d := DieId(cpus[i]);
      DiesRead(cpus[..i + 1], dies[d := (if d in dies then dies[d] else {}) + {cpus[i].id}])
  {
    var d0 := DieId(cpus[i]);
    var dies' := dies[d0 := (if d0 in dies then dies[d0] else {}) + {cpus[i].id}];
    assert cpus[..i + 1] == cpus[..i] + [cpus[i]];
    forall d, id | d in dies' && id in dies'[d] ensures OnDie(cpus[..i + 1], d, id) {
      if d in dies && id in dies[d] {
        assert OnDie(cpus[..i], d, id);
        var k :| 0 <= k < i && cpus[..i][k].id == id && DieId(cpus[..i][k]) == d;
        assert cpus[..i + 1][k] == cpus[..i][k];
      } else {
        assert cpus[..i + 1][i].id == id;
      }
    }
  }

  lemma CachesNext(cpus: seq<Cpu>, i: nat, caches: map<nat, nat>)
    requires i < |cpus| && CachesRead(cpus[..i], caches)
    ensures CachesRead(cpus[..i + 1], if cpus[i].cache > 0 then caches[DieId(cpus[i]) := cpus[i].cache] else caches)
  {
    var before, after := cpus[..i], cpus[..i + 1];
    assert after == before + [cpus[i]];
    forall d, k ensures LastCache(after, d, k) <==>
        if cpus[i].cache > 0 && d == DieId(cpus[i]) then k == i else LastCache(before, d, k)
    {
      assert 0 <= k < i ==> after[k] == before[k];
      assert after[i] == cpus[i];
      if LastCache(after, d, k) && k < i && d != DieId(cpus[i]) {
        assert forall j :: k < j < i ==> before[j] == after[j];
      }
    }
    if cpus[i].cache > 0 { assert LastCache(after, DieId(cpus[i]), i); }
  }

  method ReadDies(cpus: seq<Cpu>) returns (dies: map<nat, set<nat>>, caches: map<nat, nat>)
    ensures DiesRead(cpus, dies) && CachesRead(cpus, caches)
  {
    dies, caches := map[], map[];
    var i := 0;
    while i < |cpus|
      invariant 0 <= i <= |cpus|
      invariant DiesRead(cpus[..i], dies) && CachesRead(cpus[..i], caches)
    {
      var d := DieId(cpus[i]);
      DiesNext(cpus, i, dies);
      CachesNext(cpus, i, caches);
      dies := dies[d := (if d in dies then dies[d] else {}) + {cpus[i].id}];
      if cpus[i].cache > 0 {
        caches := caches[d := cpus[i].cache];
      }
      i := i + 1;
    }
    assert cpus[..i] == cpus;
  }

  // ---- The cache die ----

  // The die with the largest cache, the lowest-numbered of equals.
  ghost predicate IsCacheDie(caches: map<nat, nat>, die: nat) {
    && die in caches
    && (forall d :: d in caches ==> caches[d] <= caches[die])
    && (forall d :: d in caches && caches[d] == caches[die] ==> die <= d)
  }

  method LargestCache(caches: map<nat, nat>) returns (die: nat)
    requires caches != map[] && forall d :: d in caches ==> caches[d] > 0
    ensures IsCacheDie(caches, die)
  {
    var keys := Sorted(caches.Keys);
    assert forall d :: d in caches ==> d in Elems(keys);
    assert forall i :: 0 <= i < |keys| ==> keys[i] in Elems(keys);
    var max: nat := 0;
    die := 0;
    var i := 0;
    while i < |keys|
      invariant 0 <= i <= |keys|
      invariant i == 0 ==> max == 0
      invariant i > 0 ==> die in keys[..i] && caches[die] == max > 0
      invariant forall k :: 0 <= k < i ==> caches[keys[k]] <= max && (caches[keys[k]] == max ==> die <= keys[k])
    {
      if caches[keys[i]] > max {
        max := caches[keys[i]];
        die := keys[i];
      }
      i := i + 1;
    }
    assert keys != [] by { var d :| d in caches; assert d in Elems(keys); }
  }

  method Flatten(dies: map<nat, set<nat>>) returns (ids: set<nat>)
    ensures forall c :: c in ids <==> exists d :: d in dies && c in dies[d]
  {
    ids := {};
    var todo := dies.Keys;
    while todo != {}
      invariant todo <= dies.Keys
      invariant forall c :: c in ids <==> exists d :: d in dies && d !in todo && c in dies[d]
      decreases |todo|
    {
      var d :| d in todo;
      ids := ids + dies[d];
      todo := todo - {d};
    }
  }

  method Separate(dies: map<nat, set<nat>>, die: nat) returns (cache: set<nat>, frequency: set<nat>)
    requires die in dies
    ensures cache == dies[die]
    ensures forall c :: c in frequency <==> exists d :: d in dies && d != die && c in dies[d]
  {
    cache, frequency := {}, {};
    var todo := dies.Keys;
    while todo != {}
      invariant todo <= dies.Keys
      invariant cache == if die in todo then {} else dies[die]
      invariant forall c :: c in frequency <==> exists d :: d in dies && d !in todo && d != die && c in dies[d]
      decreases |todo|
    {
      var d :| d in todo;
      if d == die {
        cache := cache + dies[d];
      } else {
        frequency := frequency + dies[d];
      }
      todo := todo - {d};
    }
  }

  // ---- The two aliases ----

  datatype Aliases = Aliases(cache: string, frequency: string)

  ghost function Ids(cpus: seq<Cpu>): set<nat> {
    set i | 0 <= i < |cpus| :: cpus[i].id
  }

  ghost function Dies(cpus: seq<Cpu>): set<nat> {
    set i | 0 <= i < |cpus| :: DieId(cpus[i])
  }

  ghost function CpusOn(cpus: seq<Cpu>, d: nat): set<nat> {
    set i | 0 <= i < |cpus| && DieId(cpus[i]) == d :: cpus[i].id
  }

  ghost function CpusOff(cpus: seq<Cpu>, d: nat): set<nat> {
    set i | 0 <= i < |cpus| && DieId(cpus[i]) != d :: cpus[i].id
  }

  // The die of the largest last-reported cache, the lowest-numbered of equals.
  ghost predicate HasLargestCache(cpus: seq<Cpu>, die: nat) {
    exists i :: LastCache(cpus, die, i) &&
      forall d, k :: LastCache(cpus, d, k) ==>
        cpus[k].cache <= cpus[i].cache && (cpus[k].cache == cpus[i].cache ==> die <= d)
  }

  lemma CacheDieHasLargest(cpus: seq<Cpu>, caches: map<nat, nat>, die: nat)
    requires CachesRead(cpus, caches) && IsCacheDie(caches, die)
    ensures HasLargestCache(cpus, die)
  {
    var i :| LastCache(cpus, die, i);
    forall d, k | LastCache(cpus, d, k)
      ensures cpus[k].cache <= cpus[i].cache && (cpus[k].cache == cpus[i].cache ==> die <= d)
    {
      assert d in caches && caches[d] == cpus[k].cache;
    }
  }

  lemma DiesAre(cpus: seq<Cpu>, dies: map<nat, set<nat>>)
    requires DiesRead(cpus, dies)
    ensures dies.Keys == Dies(cpus)
    ensures forall d :: d in dies ==> dies[d] == CpusOn(cpus, d)
  {
    forall d | d in dies ensures d in Dies(cpus) {
      var id :| id in dies[d];
      assert OnDie(cpus, d, id);
    }
    forall d | d in dies ensures dies[d] == CpusOn(cpus, d) {
      forall id | id in dies[d] ensures id in CpusOn(cpus, d) { assert OnDie(cpus, d, id); }
    }
  }

  lemma {:induction false} SomeLastCache(cpus: seq<Cpu>, i: nat)
    requires i < |cpus| && cpus[i].cache > 0
    ensures exists k :: LastCache(cpus, DieId(cpus[i]), k)
    decreases |cpus| - i
  {
    if j :| i < j < |cpus| && DieId(cpus[j]) == DieId(cpus[i]) && cpus[j].cache > 0 {
      SomeLastCache(cpus, j);
    } else {
      assert LastCache(cpus, DieId(cpus[i]), i);
    }
  }

  lemma CachesPresent(cpus: seq<Cpu>, caches: map<nat, nat>)
    requires CachesRead(cpus, caches)
    ensures caches == map[] <==> forall i :: 0 <= i < |cpus| ==> cpus[i].cache == 0
    ensures forall d :: d in caches ==> d in Dies(cpus) && caches[d] > 0
  {
    if i :| 0 <= i < |cpus| && cpus[i].cache > 0 {
      SomeLastCache(cpus, i);
      var k :| LastCache(cpus, DieId(cpus[i]), k);
      assert DieId(cpus[i]) in caches;
    }
    forall d | d in caches ensures d in Dies(cpus) && caches[d] > 0 {
      var i :| LastCache(cpus, d, i);
    }
    if caches != map[] {
      var d :| d in caches;
      var i :| LastCache(cpus, d, i);
    }
  }

  lemma NoIds(cpus: seq<Cpu>)
    ensures Ids(cpus) == {} <==> cpus == []
  {
    if cpus != [] { assert cpus[0].id in Ids(cpus); }
  }

  lemma WholeOfDies(cpus: seq<Cpu>, dies: map<nat, set<nat>>, ids: set<nat>)
    requires DiesRead(cpus, dies) && forall c :: c in ids <==> exists d :: d in dies && c in dies[d]
    ensures ids == Ids(cpus)
  {
    forall c | c in ids ensures c in Ids(cpus) {
      var d :| d in dies && c in dies[d];
      assert OnDie(cpus, d, c);
    }
  }

  lemma RestOfDies(cpus: seq<Cpu>, dies: map<nat, set<nat>>, die: nat, ids: set<nat>)
    requires DiesRead(cpus, dies) && forall c :: c in ids <==> exists d :: d in dies && d != die && c in dies[d]
    ensures ids == CpusOff(cpus, die)
  {
    forall c | c in ids ensures c in CpusOff(cpus, die) {
      var d :| d in dies && d != die && c in dies[d];
      assert OnDie(cpus, d, c);
    }
  }

  // Every CPU is listed once, under a 32-bit number.
  predicate ListedOnce(cpus: seq<Cpu>) {
    && (forall i :: 0 <= i < |cpus| ==> cpus[i].id <= U32_MAX)
    && (forall i, j :: 0 <= i < j < |cpus| ==> cpus[i].id != cpus[j].id)
  }

  // Read back as CPU lists, the two aliases are two parts of `all`: neither empty, no
  // CPU in both, none left over.
  ghost predicate AliasesSplit(a: Aliases, all: set<nat>) {
    var cache, frequency := Denoted(a.cache, U32_MAX + 1), Denoted(a.frequency, U32_MAX + 1);
    && cache.Some? && frequency.Some?
    && cache.value != {} && frequency.value != {}
    && cache.value !! frequency.value
    && cache.value + frequency.value == all
  }

  // One die: both aliases are every CPU.  More: the die with the largest cache
  // against all the others, or nothing when no cache size is known; and then the
  // aliases split the machine.
  method DetectX3d(cpus: seq<Cpu>) returns (r: Option<Aliases>)
    ensures |Dies(cpus)| < 2 ==> r == if cpus == [] then None else Some(Aliases(SetText(Ids(cpus)), SetText(Ids(cpus))))
    ensures |Dies(cpus)| >= 2 ==> (r == None <==> forall i :: 0 <= i < |cpus| ==> cpus[i].cache == 0)
    ensures |Dies(cpus)| >= 2 && r.Some? ==> exists die ::
      HasLargestCache(cpus, die) && r.value == Aliases(SetText(CpusOn(cpus, die)), SetText(CpusOff(cpus, die)))
    ensures |Dies(cpus)| >= 2 && r.Some? && ListedOnce(cpus) ==> AliasesSplit(r.value, Ids(cpus))
  {
    var dies, caches := ReadDies(cpus);
    DiesAre(cpus, dies);
    CachesPresent(cpus, caches);
    assert |dies| == |dies.Keys|;
    if |dies| < 2 {
      var all := Flatten(dies);
      WholeOfDies(cpus, dies, all);
      NoIds(cpus);
      if all == {} {
        return None;
      }
      var text := FormatCpuset(all);
      return Some(Aliases(text, text));
    }
    if caches == map[] {
      return None;
    }
    var die := LargestCache(caches);
    CacheDieHasLargest(cpus, caches, die);
    var cache, frequency := Separate(dies, die);
    RestOfDies(cpus, dies, die, frequency);
    var cacheText := FormatCpuset(cache);
    var frequencyText := FormatCpuset(frequency);
    if ListedOnce(cpus) { SplitIsRead(cpus, die); }
    return Some(Aliases(cacheText, frequencyText));
  }

  // The two tiers are all CPUs, and share none exactly when no CPU is listed both on
  // the die and off it: in particular when every CPU is listed once.
  lemma TiersPartition(cpus: seq<Cpu>, die: nat)
    ensures CpusOn(cpus, die) + CpusOff(cpus, die) == Ids(cpus)
    ensures CpusOn(cpus, die) !! CpusOff(cpus, die) <==>
      forall i, j :: 0 <= i < |cpus| && 0 <= j < |cpus| && cpus[i].id == cpus[j].id && DieId(cpus[i]) == die ==>
        DieId(cpus[j]) == die
  {
    forall i, j | 0 <= i < |cpus| && 0 <= j < |cpus| && cpus[i].id == cpus[j].id && DieId(cpus[i]) == die && DieId(cpus[j]) != die
      ensures cpus[i].id in CpusOn(cpus, die) && cpus[i].id in CpusOff(cpus, die)
    {
      assert cpus[j].id in CpusOff(cpus, die);
    }
    if c :| c in CpusOn(cpus, die) && c in CpusOff(cpus, die) {
      var i :| 0 <= i < |cpus| && DieId(cpus[i]) == die && cpus[i].id == c;
      var j :| 0 <= j < |cpus| && DieId(cpus[j]) != die && cpus[j].id == c;
    }
  }

  lemma OtherDie(cpus: seq<Cpu>, die: nat) returns (i: nat)
    requires |Dies(cpus)| >= 2
    ensures i < |cpus| && DieId(cpus[i]) != die
  {
    if forall k :: 0 <= k < |cpus| ==> DieId(cpus[k]) == die {
      assert Dies(cpus) <= {die};
      SubsetSize(Dies(cpus), {die});
    }
    i :| 0 <= i < |cpus| && DieId(cpus[i]) != die;
  }

  lemma SplitIsRead(cpus: seq<Cpu>, die: nat)
    requires ListedOnce(cpus) && |Dies(cpus)| >= 2 && HasLargestCache(cpus, die)
    ensures AliasesSplit(Aliases(SetText(CpusOn(cpus, die)), SetText(CpusOff(cpus, die))), Ids(cpus))
  {
    var i :| LastCache(cpus, die, i);
    assert cpus[i].id in CpusOn(cpus, die);
    var j := OtherDie(cpus, die);
    assert cpus[j].id in CpusOff(cpus, die);
    ParseInvertsDisplay(CpusOn(cpus, die), U32_MAX + 1);
    ParseInvertsDisplay(CpusOff(cpus, die), U32_MAX + 1);
    TiersPartition(cpus, die);
  }
}
