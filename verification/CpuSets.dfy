// CPU sets and their text: one parser, and the printers that have to agree.
module CpuSets {
  import opened Common
  import opened Text

  // ---- What a set of CPUs prints as ----

  datatype Range = Range(lo: nat, hi: nat)

  // One CPU prints as its number, more than one as `lo-hi`.
  function RangeText(r: Range): string {
    if r.lo == r.hi then Decimal(r.lo) else Decimal(r.lo) + "-" + Decimal(r.hi)
  }

  function Texts(rs: seq<Range>): (ts: seq<string>)
    ensures |ts| == |rs|
  {
    if rs == [] then [] else [RangeText(rs[0])] + Texts(rs[1..])
  }

  lemma {:induction false} TextAt(rs: seq<Range>, i: nat)
    requires i < |rs|
    ensures Texts(rs)[i] == RangeText(rs[i])
  {
    if i > 0 { TextAt(rs[1..], i - 1); }
  }

  lemma {:induction false} TextsSnoc(rs: seq<Range>, r: Range)
    ensures Texts(rs + [r]) == Texts(rs) + [RangeText(r)]
  {
    var all := rs + [r];
    if rs == [] {
      assert all == [r] && Texts([]) == [];
    } else {
      TextsSnoc(rs[1..], r);
      assert all[0] == rs[0] && all[1..] == rs[1..] + [r];
    }
  }

  predicate Covers(rs: seq<Range>, c: nat) {
    exists k :: 0 <= k < |rs| && rs[k].lo <= c <= rs[k].hi
  }

  // Non-empty ranges in order, with a CPU missing between each and the next.
  predicate Separated(rs: seq<Range>) {
    && (forall k :: 0 <= k < |rs| ==> rs[k].lo <= rs[k].hi)
    && (forall k, l :: 0 <= k < l < |rs| ==> rs[k].hi + 1 < rs[l].lo)
  }

  // The ranges are the maximal runs of consecutive CPUs of `cpus`.
  ghost predicate IsRuns(rs: seq<Range>, cpus: set<nat>) {
    Separated(rs) && forall c: nat :: Covers(rs, c) <==> c in cpus
  }

  function Runs(sorted: seq<nat>): seq<Range> {
    if sorted == [] then []
    else
      var rest := Runs(sorted[1..]);
      if rest != [] && rest[0].lo == sorted[0] + 1 then [Range(sorted[0], rest[0].hi)] + rest[1..]
      else [Range(sorted[0], sorted[0])] + rest
  }

  lemma CoversCons(r: Range, rs: seq<Range>, c: nat)
    ensures Covers([r] + rs, c) <==> (r.lo <= c <= r.hi || Covers(rs, c))
  {
    var all := [r] + rs;
    if Covers(rs, c) {
      var k :| 0 <= k < |rs| && rs[k].lo <= c <= rs[k].hi;
      assert all[k + 1] == rs[k];
    }
    if r.lo <= c <= r.hi { assert all[0] == r; }
    if Covers(all, c) && !(r.lo <= c <= r.hi) {
      var k :| 0 <= k < |all| && all[k].lo <= c <= all[k].hi;
      assert all[k] == rs[k - 1];
    }
  }

  lemma CoversSnoc(rs: seq<Range>, r: Range, c: nat)
    ensures Covers(rs + [r], c) <==> (r.lo <= c <= r.hi || Covers(rs, c))
  {
    var all := rs + [r];
    if Covers(rs, c) {
      var k :| 0 <= k < |rs| && rs[k].lo <= c <= rs[k].hi;
      assert all[k] == rs[k];
    }
    if r.lo <= c <= r.hi { assert all[|rs|] == r; }
  }

  // Prepending a CPU below every other extends the first run or starts one.
  lemma RunsCons(x: nat, rest: seq<Range>, cpus: set<nat>)
    requires IsRuns(rest, cpus) && forall c :: c in cpus ==> x < c
    ensures rest != [] && rest[0].lo == x + 1 ==> IsRuns([Range(x, rest[0].hi)] + rest[1..], {x} + cpus)
    ensures !(rest != [] && rest[0].lo == x + 1) ==> IsRuns([Range(x, x)] + rest, {x} + cpus)
  {
    forall k | 0 <= k < |rest| ensures x < rest[k].lo { assert Covers(rest, rest[k].lo); }
    if rest != [] && rest[0].lo == x + 1 {
      assert rest == [rest[0]] + rest[1..];
      forall c: nat ensures Covers([Range(x, rest[0].hi)] + rest[1..], c) <==> c in {x} + cpus {
        CoversCons(rest[0], rest[1..], c);
        CoversCons(Range(x, rest[0].hi), rest[1..], c);
      }
    } else {
      forall c: nat ensures Covers([Range(x, x)] + rest, c) <==> c in {x} + cpus {
        CoversCons(Range(x, x), rest, c);
      }
    }
  }

  lemma {:induction false} RunsRight(sorted: seq<nat>)
    requires StrictlyAscending(sorted)
    ensures IsRuns(Runs(sorted), Elems(sorted))
  {
    if sorted != [] {
      RunsRight(sorted[1..]);
      assert Elems(sorted) == {sorted[0]} + Elems(sorted[1..]);
      RunsCons(sorted[0], Runs(sorted[1..]), Elems(sorted[1..]));
    }
  }

  lemma NoRuns(rs: seq<Range>, cpus: set<nat>)
    requires IsRuns(rs, cpus)
    ensures rs == [] <==> cpus == {}
  {
    if rs != [] {
      assert Covers(rs, rs[0].lo);
    } else {
      assert forall c :: c in cpus ==> Covers(rs, c);
    }
  }

  // A set has one list of maximal runs.
  lemma {:induction false} RunsUnique(a: seq<Range>, b: seq<Range>, cpus: set<nat>)
    requires IsRuns(a, cpus) && IsRuns(b, cpus)
    ensures a == b
    decreases |a|
  {
    NoRuns(a, cpus);
    NoRuns(b, cpus);
    if a != [] {
      FirstRun(a, b, cpus);
      var cpus' := set c | c in cpus && !(a[0].lo <= c <= a[0].hi);
      DropRun(a, cpus, cpus');
      DropRun(b, cpus, cpus');
      RunsUnique(a[1..], b[1..], cpus');
      assert a == [a[0]] + a[1..] && b == [b[0]] + b[1..];
    }
  }

  // The first run holds only CPUs of the set, and the CPU after it is missing.
  lemma FirstRunEnds(rs: seq<Range>, cpus: set<nat>)
    requires IsRuns(rs, cpus) && rs != []
    ensures forall c: nat :: rs[0].lo <= c <= rs[0].hi ==> c in cpus
    ensures rs[0].hi + 1 !in cpus
    ensures forall c :: c in cpus ==> rs[0].lo <= c
  {
    forall c: nat | rs[0].lo <= c <= rs[0].hi ensures c in cpus { assert Covers(rs, c); }
    assert !Covers(rs, rs[0].hi + 1);
    forall c | c in cpus ensures rs[0].lo <= c {
      assert Covers(rs, c);
      var k :| 0 <= k < |rs| && rs[k].lo <= c <= rs[k].hi;
    }
  }

  lemma FirstRun(a: seq<Range>, b: seq<Range>, cpus: set<nat>)
    requires IsRuns(a, cpus) && IsRuns(b, cpus) && a != [] && b != []
    ensures a[0] == b[0]
  {
    FirstRunEnds(a, cpus);
    FirstRunEnds(b, cpus);
    assert a[0].lo in cpus && b[0].lo in cpus;
  }

  lemma DropRun(a: seq<Range>, cpus: set<nat>, cpus': set<nat>)
    requires IsRuns(a, cpus) && a != []
    requires cpus' == set c | c in cpus && !(a[0].lo <= c <= a[0].hi)
    ensures IsRuns(a[1..], cpus')
  {
    assert a == [a[0]] + a[1..];
    forall c: nat ensures Covers(a[1..], c) <==> c in cpus' {
      CoversCons(a[0], a[1..], c);
    }
  }

  ghost function RunsOf(cpus: set<nat>): (rs: seq<Range>)
    ensures IsRuns(rs, cpus)
  {
    RunsRight(Ascending(cpus));
    var rs :| IsRuns(rs, cpus);
    rs
  }

  // The text of a set of CPUs: its maximal runs, joined by commas.
  ghost function SetText(cpus: set<nat>): string {
    Join(Texts(RunsOf(cpus)), ',')
  }

  lemma TextOfRuns(rs: seq<Range>, cpus: set<nat>)
    requires IsRuns(rs, cpus)
    ensures Join(Texts(rs), ',') == SetText(cpus)
  {
    RunsUnique(rs, RunsOf(cpus), cpus);
  }

  // ---- What a text denotes ----

  function TokenRange(token: string): Option<Range> {
    match SplitOnce(token, '-')
    case Some((a, b)) =>
      (match (ParseU32(a), ParseU32(b))
       case (Some(lo), Some(hi)) => Some(Range(lo, hi))
       case _ => None)
    case None =>
      (match ParseU32(token)
       case Some(n) => Some(Range(n, n))
       case None => None)
  }

  // The CPUs `lo..end`.
  function Span(lo: nat, end: nat): (s: set<nat>)
    ensures forall c: nat :: c in s <==> lo <= c < end
    decreases end - lo
  {
    if lo >= end then {} else {lo} + Span(lo + 1, end)
  }

  // Every token must be a range inside the bound; only the last may be empty.
  function Meaning(tokens: seq<string>, maxCores: nat): Option<set<nat>> {
    if tokens == [] then Some({})
    else if tokens[0] == "" then (if |tokens| == 1 then Some({}) else None)
    else
      match TokenRange(tokens[0])
      case None => None
      case Some(r) =>
        if r.lo > r.hi || r.hi >= maxCores then None
        else match Meaning(tokens[1..], maxCores)
          case None => None
          case Some(rest) => Some(Span(r.lo, r.hi + 1) + rest)
  }

  function Denoted(s: string, maxCores: nat): Option<set<nat>> {
    if Trim(s) == "" then None else Meaning(Tokens(Trim(s)), maxCores)
  }

  // One token further along a list.
  lemma MeaningAt(tokens: seq<string>, i: nat, maxCores: nat)
    requires i < |tokens|
    ensures Meaning(tokens[i..], maxCores) ==
      if tokens[i] == "" then (if i + 1 == |tokens| then Some({}) else None)
      else if TokenRange(tokens[i]) == None then None
      else
        var r := TokenRange(tokens[i]).value;
        if r.lo > r.hi || r.hi >= maxCores || Meaning(tokens[i + 1..], maxCores) == None then None
        else Some(Span(r.lo, r.hi + 1) + Meaning(tokens[i + 1..], maxCores).value)
  {
    assert tokens[i..][1..] == tokens[i + 1..];
  }

  lemma {:induction false} MeaningBound(tokens: seq<string>, maxCores: nat)
    ensures Meaning(tokens, maxCores).Some? ==>
      && (forall c :: c in Meaning(tokens, maxCores).value ==> c < maxCores)
      && (tokens != [] && tokens[0] != "" ==> Meaning(tokens, maxCores).value != {})
  {
    if tokens != [] && tokens[0] != "" && Meaning(tokens, maxCores).Some? {
      MeaningBound(tokens[1..], maxCores);
      var r := TokenRange(tokens[0]).value;
      assert r.lo in Span(r.lo, r.hi + 1);
    }
  }

  lemma {:induction false} SplitSingle(s: string)
    ensures |Split(s, ',')| == 1 ==> Split(s, ',')[0] == s
  {
    if s != "" { SplitSingle(s[1..]); }
  }

  // An accepted text names at least one CPU, and none at or past the bound.
  lemma AcceptedIsNonEmpty(s: string, maxCores: nat)
    requires Denoted(s, maxCores).Some?
    ensures Denoted(s, maxCores).value != {}
    ensures forall c :: c in Denoted(s, maxCores).value ==> c < maxCores
  {
    var t := Trim(s);
    MeaningBound(Tokens(t), maxCores);
    SplitSingle(t);
    TrimIsTrimmed(s);
    TrimOfTrimmed(t);
  }

  lemma RangeTextShape(r: Range)
    ensures ',' !in RangeText(r) && RangeText(r) != "" && Trimmed(RangeText(r))
  {
    var a, b := Decimal(r.lo), Decimal(r.hi);
    DecimalDigits(r.lo);
    DecimalDigits(r.hi);
    assert a[0] in a && a[|a| - 1] in a && b[|b| - 1] in b;
  }

  lemma TokenOfRangeText(r: Range)
    requires r.lo <= r.hi <= U32_MAX
    ensures TokenRange(RangeText(r)) == Some(r)
  {
    var a, b := Decimal(r.lo), Decimal(r.hi);
    ParseDecimal(r.lo);
    ParseDecimal(r.hi);
    DecimalDigits(r.lo);
    assert '-' !in a;
    if r.lo < r.hi {
      SplitOnceAt(a, '-', b);
      assert RangeText(r) == a + ['-'] + b;
    } else {
      assert SplitOnce(a, '-') == None;
    }
  }

  lemma {:induction false} MeaningOfTexts(rs: seq<Range>, maxCores: nat)
    requires Separated(rs) && maxCores <= U32_MAX + 1
    requires forall k :: 0 <= k < |rs| ==> rs[k].hi < maxCores
    ensures Meaning(Texts(rs), maxCores).Some?
    ensures forall c :: c in Meaning(Texts(rs), maxCores).value <==> Covers(rs, c)
  {
    if rs != [] {
      MeaningOfTexts(rs[1..], maxCores);
      RangeTextShape(rs[0]);
      TokenOfRangeText(rs[0]);
      assert Texts(rs)[1..] == Texts(rs[1..]);
      assert rs == [rs[0]] + rs[1..];
      forall c ensures c in Meaning(Texts(rs), maxCores).value <==> Covers(rs, c) {
        CoversCons(rs[0], rs[1..], c);
      }
    }
  }

  lemma {:induction false} JoinEnds(ts: seq<string>)
    requires ts != [] && forall k :: 0 <= k < |ts| ==> ts[k] != "" && Trimmed(ts[k])
    ensures Join(ts, ',') != "" && Trimmed(Join(ts, ','))
  {
    if |ts| > 1 { JoinEnds(ts[1..]); }
  }

  lemma TokensOfTexts(rs: seq<Range>)
    requires rs != [] && forall k :: 0 <= k < |rs| ==> rs[k].lo <= rs[k].hi <= U32_MAX
    ensures Trim(Join(Texts(rs), ',')) == Join(Texts(rs), ',') != ""
    ensures Tokens(Join(Texts(rs), ',')) == Texts(rs)
  {
    forall k | 0 <= k < |rs|
      ensures ',' !in Texts(rs)[k] && Texts(rs)[k] != "" && Trimmed(Texts(rs)[k]) && Trim(Texts(rs)[k]) == Texts(rs)[k]
    {
      TextAt(rs, k);
      RangeTextShape(rs[k]);
      TrimOfTrimmed(Texts(rs)[k]);
    }
    JoinEnds(Texts(rs));
    TrimOfTrimmed(Join(Texts(rs), ','));
    SplitJoin(Texts(rs), ',');
  }

  // Reading back a printed set gives exactly that set.
  lemma ParseInvertsDisplay(cpus: set<nat>, maxCores: nat)
    requires cpus != {} && maxCores <= U32_MAX + 1
    requires forall c :: c in cpus ==> c < maxCores
    ensures Denoted(SetText(cpus), maxCores) == Some(cpus)
  {
    var rs := RunsOf(cpus);
    forall k | 0 <= k < |rs| ensures rs[k].hi < maxCores { assert Covers(rs, rs[k].hi); }
    NoRuns(rs, cpus);
    TokensOfTexts(rs);
    MeaningOfTexts(rs, maxCores);
    assert Meaning(Texts(rs), maxCores).value == cpus;
  }

  // The text of a set determines the set.
  lemma SetTextInjective(a: set<nat>, b: set<nat>)
    requires forall c :: c in a || c in b ==> c <= U32_MAX
    requires SetText(a) == SetText(b)
    ensures a == b
  {
    if a != {} { ParseInvertsDisplay(a, U32_MAX + 1); }
    if b != {} { ParseInvertsDisplay(b, U32_MAX + 1); }
    EmptyText();
    assert Trim("") == "" && Denoted("", U32_MAX + 1) == None;
  }

  lemma EmptyText()
    ensures SetText({}) == ""
  {
    NoRuns(RunsOf({}), {});
  }

  // ---- Scanning the flags ----

  // The ranges closed so far are the runs of the CPUs below `bound`.
  ghost predicate Closed(rs: seq<Range>, cores: seq<bool>, bound: nat) {
    && Separated(rs)
    && (forall k :: 0 <= k < |rs| ==> rs[k].hi + 1 < bound)
    && (forall c: nat :: Covers(rs, c) <==> c < bound && c < |cores| && cores[c])
  }

  lemma CloseRun(rs: seq<Range>, cores: seq<bool>, start: nat, end: nat)
    requires Closed(rs, cores, start) && start < end <= |cores|
    requires forall c :: start <= c < end ==> cores[c]
    requires end < |cores| ==> !cores[end]
    ensures Closed(rs + [Range(start, end - 1)], cores, end + 1)
  {
    var r := Range(start, end - 1);
    forall c: nat ensures Covers(rs + [r], c) <==> c < end + 1 && c < |cores| && cores[c] {
      CoversSnoc(rs, r, c);
    }
  }

  // The state of the scan: the ranges closed so far, and where the open one starts.
  datatype Scan = Scan(closed: seq<Range>, open: Option<nat>)

  ghost function ScanStep(s: Scan, active: bool, i: nat): Scan {
    if active && s.open == None then Scan(s.closed, Some(i))
    else if !active && s.open.Some? && i > 0 then Scan(s.closed + [Range(s.open.value, i - 1)], None)
    else s
  }

  ghost function ScanFlags(cores: seq<bool>, i: nat): Scan
    requires i <= |cores|
  {
    if i == 0 then Scan([], None) else ScanStep(ScanFlags(cores, i - 1), cores[i - 1], i - 1)
  }

  ghost predicate ScanOk(s: Scan, cores: seq<bool>, i: nat) {
    i <= |cores| &&
    match s.open
    case None => Closed(s.closed, cores, i)
    case Some(start) => Closed(s.closed, cores, start) && start < i && forall c :: start <= c < i ==> cores[c]
  }

  lemma SkipFlag(rs: seq<Range>, cores: seq<bool>, i: nat)
    requires Closed(rs, cores, i) && i < |cores| && !cores[i]
    ensures Closed(rs, cores, i + 1)
  {
  }

  lemma ScanStepOk(s: Scan, cores: seq<bool>, i: nat)
    requires ScanOk(s, cores, i) && i < |cores|
    ensures ScanOk(ScanStep(s, cores[i], i), cores, i + 1)
  {
    if !cores[i] {
      if s.open.Some? { CloseRun(s.closed, cores, s.open.value, i); } else { SkipFlag(s.closed, cores, i); }
    }
  }

  lemma {:induction false} ScanRight(cores: seq<bool>, i: nat)
    requires i <= |cores|
    ensures ScanOk(ScanFlags(cores, i), cores, i)
  {
    if i > 0 {
      ScanRight(cores, i - 1);
      ScanStepOk(ScanFlags(cores, i - 1), cores, i - 1);
    }
  }

  function FlagSet(cores: seq<bool>): set<nat> {
    set c | 0 <= c < |cores| && cores[c]
  }

  lemma ClosedText(rs: seq<Range>, cores: seq<bool>, bound: nat)
    requires Closed(rs, cores, bound) && |cores| <= bound
    ensures Join(Texts(rs), ',') == SetText(FlagSet(cores))
  {
    TextOfRuns(rs, FlagSet(cores));
  }

  ghost function ScanEnd(s: Scan, n: nat): seq<Range> {
    if s.open.Some? && n > 0 then s.closed + [Range(s.open.value, n - 1)] else s.closed
  }

  lemma ScanText(s: Scan, cores: seq<bool>)
    requires ScanOk(s, cores, |cores|)
    ensures Join(Texts(ScanEnd(s, |cores|)), ',') == SetText(FlagSet(cores))
  {
    if s.open.Some? {
      CloseRun(s.closed, cores, s.open.value, |cores|);
      ClosedText(ScanEnd(s, |cores|), cores, |cores| + 1);
    } else {
      ClosedText(s.closed, cores, |cores|);
    }
  }

  // One range, as each printer formats it.
  method ShowRange(start: nat, end: nat) returns (text: string)
    ensures text == RangeText(Range(start, end))
  {
    var first := Decimal(start);
    if end == start {
      text := first;
    } else {
      text := first + "-" + Decimal(end);
    }
  }

  // What sets print as: one CPU as its number, a run of more as its ends.
  lemma OneCpuText(c: nat)
    ensures SetText({c}) == Decimal(c)
  {
    var rs := [Range(c, c)];
    forall d: nat ensures Covers(rs, d) <==> d in {c} { if d == c { assert rs[0].lo <= d <= rs[0].hi; } }
    TextOfRuns(rs, {c});
    assert Texts(rs) == [RangeText(rs[0])] + Texts([]);
  }

  lemma RunText(lo: nat, hi: nat)
    requires lo < hi
    ensures SetText(Span(lo, hi + 1)) == Decimal(lo) + "-" + Decimal(hi)
  {
    var rs := [Range(lo, hi)];
    forall d: nat ensures Covers(rs, d) <==> d in Span(lo, hi + 1) { if lo <= d <= hi { assert rs[0].lo <= d <= rs[0].hi; } }
    TextOfRuns(rs, Span(lo, hi + 1));
    assert Texts(rs) == [RangeText(rs[0])] + Texts([]);
  }

  // What tokens denote: a number, or two numbers around the first dash.
  lemma TokenForms(a: string, b: string, c: string)
    requires '-' !in a && '-' !in c
    ensures TokenRange(a + "-" + b) ==
      if ParseU32(a).Some? && ParseU32(b).Some? then Some(Range(ParseU32(a).value, ParseU32(b).value)) else None
    ensures TokenRange(c) == if ParseU32(c).Some? then Some(Range(ParseU32(c).value, ParseU32(c).value)) else None
  {
    SplitOnceAt(a, '-', b);
    assert a + "-" + b == a + ['-'] + b;
  }

  // ---- The set as the daemon holds it ----

  class CpuSet {
    const maxCores: nat
    var cores: seq<bool>

    ghost predicate Valid()
      reads this
    {
      |cores| == maxCores <= U32_MAX
    }

    function Cpus(): set<nat>
      reads this
    {
      FlagSet(cores)
    }

    constructor (maxCores: nat)
      requires maxCores <= U32_MAX
      ensures Valid() && this.maxCores == maxCores && Cpus() == {}
    {
      this.maxCores := maxCores;
      cores := seq(maxCores, _ => false);
    }

    method SetCpu(cpu: nat)
      requires Valid()
      modifies this
      ensures Valid() && Cpus() == old(Cpus()) + if cpu < maxCores then {cpu} else {}
    {
      if cpu < maxCores { cores := cores[cpu := true]; }
    }

    method SetRange(r: Range)
      requires Valid() && r.lo <= r.hi < maxCores
      modifies this
      ensures Valid() && Cpus() == old(Cpus()) + Span(r.lo, r.hi + 1)
    {
      var cpu := r.lo;
      while cpu <= r.hi
        invariant r.lo <= cpu <= r.hi + 1
        invariant Valid() && Cpus() == old(Cpus()) + Span(r.lo, cpu)
      {
        SetCpu(cpu);
        cpu := cpu + 1;
      }
    }

    method ClearCpu(cpu: nat)
      requires Valid()
      modifies this
      ensures Valid() && Cpus() == old(Cpus()) - {cpu}
    {
      if cpu < maxCores { cores := cores[cpu := false]; }
    }

    method Zero()
      requires Valid()
      modifies this
      ensures Valid() && Cpus() == {}
    {
      cores := seq(maxCores, _ => false);
    }

    method IsEmpty() returns (empty: bool)
      requires Valid()
      ensures empty <==> Cpus() == {}
    {
      var i := 0;
      while i < |cores|
        invariant 0 <= i <= |cores|
        invariant forall k :: 0 <= k < i ==> !cores[k]
      {
        if cores[i] {
          assert i in Cpus();
          return false;
        }
        i := i + 1;
      }
      return true;
    }

    // Scans the flags once, closing a range at the first CPU that is not set.
    method Display() returns (text: string)
      requires Valid()
      ensures text == SetText(Cpus())
    {
      var ranges: seq<string> := [];
      var inRange := false;
      var rangeStart: nat := 0;
      var i := 0;
      while i < maxCores
        invariant 0 <= i <= maxCores
        invariant ranges == Texts(ScanFlags(cores, i).closed)
        invariant ScanFlags(cores, i).open == if inRange then Some(rangeStart) else None
        invariant inRange ==> rangeStart < i
      {
        var active := cores[i];
        if active && !inRange {
          inRange := true;
          rangeStart := i;
        } else if !active && inRange {
          inRange := false;
          TextsSnoc(ScanFlags(cores, i).closed, Range(rangeStart, i - 1));
          var text := ShowRange(rangeStart, i - 1);
          ranges := ranges + [text];
        }
        i := i + 1;
      }
      ScanRight(cores, i);
      ScanText(ScanFlags(cores, i), cores);
      if inRange {
        TextsSnoc(ScanFlags(cores, i).closed, Range(rangeStart, maxCores - 1));
        var last := ShowRange(rangeStart, maxCores - 1);
        ranges := ranges + [last];
      }
      text := Join(ranges, ',');
    }

    // Reads a list such as `0-3,8`; null is the refusal.
    static method Parse(s: string, maxCores: nat) returns (r: CpuSet?)
      requires maxCores <= U32_MAX
      ensures r == null <==> Denoted(s, maxCores) == None
      ensures r != null ==> fresh(r) && r.Valid() && r.maxCores == maxCores
      ensures r != null ==> r.Cpus() == Denoted(s, maxCores).value
    {
      var cpuset := new CpuSet(maxCores);
      var t := Trim(s);
      if t == "" {
        return null;
      }
      var tokens := Tokens(t);
      var i := 0;
      while i < |tokens|
        invariant 0 <= i <= |tokens|
        invariant fresh(cpuset) && cpuset.Valid() && cpuset.maxCores == maxCores
        invariant Meaning(tokens, maxCores).Some? <==> Meaning(tokens[i..], maxCores).Some?
        invariant Meaning(tokens, maxCores).Some? ==>
          Meaning(tokens, maxCores).value == cpuset.Cpus() + Meaning(tokens[i..], maxCores).value
      {
        var token := tokens[i];
        MeaningAt(tokens, i, maxCores);
        if token == "" {
          if i + 1 < |tokens| {
            return null;
          }
        } else {
          match TokenRange(token) {
            case None => return null;
            case Some(r) =>
              if r.lo > r.hi || r.hi >= maxCores {
                return null;
              }
              cpuset.SetRange(r);
          }
        }
        i := i + 1;
      }
      return cpuset;
    }
  }

  // ---- The printers of the topology and X3D detectors ----

  function Commas(rs: seq<Range>): string {
    if rs == [] then "" else RangeText(rs[0]) + [','] + Commas(rs[1..])
  }

  lemma {:induction false} CommasSnoc(rs: seq<Range>, r: Range)
    ensures Commas(rs + [r]) == Commas(rs) + RangeText(r) + [',']
  {
    var all := rs + [r];
    if rs == [] {
      assert all == [r] && [r][1..] == [];
    } else {
      CommasSnoc(rs[1..], r);
      assert all[1..] == rs[1..] + [r] && all[0] == rs[0];
      var h, t := RangeText(rs[0]) + [','], Commas(rs[1..]);
      assert h + (t + RangeText(r) + [',']) == h + t + RangeText(r) + [','];
    }
  }

  lemma {:induction false} JoinSnoc(rs: seq<Range>, r: Range)
    ensures Join(Texts(rs + [r]), ',') == Commas(rs) + RangeText(r)
  {
    var all := rs + [r];
    if rs == [] {
      assert all == [r];
    } else {
      JoinSnoc(rs[1..], r);
      assert all[1..] == rs[1..] + [r] && all[0] == rs[0];
      assert Texts(all)[1..] == Texts(all[1..]);
      assert RangeText(rs[0]) + [','] + (Commas(rs[1..]) + RangeText(r)) == Commas(rs) + RangeText(r);
    }
  }

  // The ranges written out, together with the open one, are the CPUs read so far.
  ghost predicate Written(rs: seq<Range>, open: Range, cpus: set<nat>) {
    && Separated(rs)
    && open.lo <= open.hi
    && (forall k :: 0 <= k < |rs| ==> rs[k].hi + 1 < open.lo)
    && (forall c: nat :: Covers(rs, c) || open.lo <= c <= open.hi <==> c in cpus)
  }

  lemma WriteOpen(rs: seq<Range>, open: Range, cpus: set<nat>)
    requires Written(rs, open, cpus)
    ensures IsRuns(rs + [open], cpus)
  {
    forall c: nat ensures Covers(rs + [open], c) <==> c in cpus { CoversSnoc(rs, open, c); }
  }

  // The state of the walk: the ranges written out and the one still open.
  datatype Walk = Walk(closed: seq<Range>, open: Range)

  ghost function WalkStep(w: Walk, cpu: nat): Walk {
    if cpu == w.open.hi + 1 then Walk(w.closed, Range(w.open.lo, cpu))
    else Walk(w.closed + [w.open], Range(cpu, cpu))
  }

  ghost function WalkCpus(sorted: seq<nat>, i: nat): Walk
    requires 1 <= i <= |sorted|
  {
    if i == 1 then Walk([], Range(sorted[0], sorted[0])) else WalkStep(WalkCpus(sorted, i - 1), sorted[i - 1])
  }

  lemma WalkNext(sorted: seq<nat>, i: nat)
    requires 1 <= i < |sorted|
    ensures WalkCpus(sorted, i + 1) == WalkStep(WalkCpus(sorted, i), sorted[i])
  {
  }

  lemma WalkStepOk(w: Walk, cpus: set<nat>, cpu: nat)
    requires Written(w.closed, w.open, cpus) && w.open.hi < cpu
    ensures Written(WalkStep(w, cpu).closed, WalkStep(w, cpu).open, cpus + {cpu})
    ensures WalkStep(w, cpu).open.hi == cpu
  {
    if cpu != w.open.hi + 1 { WriteOpen(w.closed, w.open, cpus); }
  }

  lemma {:induction false} WalkRight(sorted: seq<nat>, i: nat)
    requires StrictlyAscending(sorted) && 1 <= i <= |sorted|
    ensures Written(WalkCpus(sorted, i).closed, WalkCpus(sorted, i).open, Elems(sorted[..i]))
    ensures WalkCpus(sorted, i).open.hi == sorted[i - 1]
  {
    if i == 1 {
      assert sorted[..1] == [sorted[0]] && Elems([sorted[0]]) == {sorted[0]};
    } else {
      WalkRight(sorted, i - 1);
      assert sorted[..i] == sorted[..i - 1] + [sorted[i - 1]];
      assert Elems(sorted[..i]) == Elems(sorted[..i - 1]) + {sorted[i - 1]};
      WalkStepOk(WalkCpus(sorted, i - 1), Elems(sorted[..i - 1]), sorted[i - 1]);
    }
  }

  lemma WalkText(sorted: seq<nat>, cpus: set<nat>)
    requires StrictlyAscending(sorted) && sorted != [] && Elems(sorted) == cpus
    ensures var w := WalkCpus(sorted, |sorted|);
      Commas(w.closed) + RangeText(w.open) == SetText(cpus)
  {
    var w := WalkCpus(sorted, |sorted|);
    WalkRight(sorted, |sorted|);
    assert sorted[..|sorted|] == sorted;
    WriteOpen(w.closed, w.open, cpus);
    TextOfRuns(w.closed + [w.open], cpus);
    JoinSnoc(w.closed, w.open);
  }

  // `cores.iter().copied().collect()` and the sort after it.
  method Sorted(cpus: set<nat>) returns (sorted: seq<nat>)
    ensures StrictlyAscending(sorted) && Elems(sorted) == cpus && |sorted| == |cpus|
  {
    sorted := Ascending(cpus);
  }

  // Writes out one range and the comma after it.
  method WriteRange(text: string, r: Range, ghost rs: seq<Range>) returns (result: string)
    requires text == Commas(rs)
    ensures result == Commas(rs + [r])
  {
    CommasSnoc(rs, r);
    var shown := ShowRange(r.lo, r.hi);
    result := text + shown + ",";
  }

  // Walks the CPUs in ascending order, closing a range where a CPU is missing.
  method FormatCpuset(cpus: set<nat>) returns (result: string)
    ensures result == SetText(cpus)
  {
    if cpus == {} {
      EmptyText();
      return "";
    }
    var sorted := Sorted(cpus);
    result := FormatSorted(sorted);
    WalkText(sorted, cpus);
  }

  method FormatSorted(sorted: seq<nat>) returns (result: string)
    requires sorted != []
    ensures var w := WalkCpus(sorted, |sorted|);
      result == Commas(w.closed) + RangeText(w.open)
  {
    result := "";
    ghost var closed: seq<Range> := [];
    var start: nat, prev: nat := sorted[0], sorted[0];
    var i := 1;
    while i < |sorted|
      invariant 1 <= i <= |sorted|
      invariant result == Commas(closed)
      invariant WalkCpus(sorted, i) == Walk(closed, Range(start, prev))
    {
      var cpu := sorted[i];
      WalkNext(sorted, i);
      if cpu == prev + 1 {
        prev := cpu;
      } else {
        result := WriteRange(result, Range(start, prev), closed);
        closed := closed + [Range(start, prev)];
        start := cpu;
        prev := cpu;
      }
      i := i + 1;
    }
    var last := ShowRange(start, prev);
    result := result + last;
  }
}
