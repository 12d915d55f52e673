// Readers, reloads and the shared resolution cache, in any interleaving.
//
// A reader snapshots the installed set and then looks a name up in two locked
// regions, the cache read and the cache write.  Several readers share the cache
// of one set, and a reload may install another set between any two steps.
module SharedRules {
  import opened Common
  import opened Lru
  import opened RuleDoc
  import opened RuleLookup
  import RuleStore
  import T = Text

  const CACHE_CAPACITY := RuleStore.CACHE_CAPACITY
  const MAX_CACHEABLE_NAME := RuleStore.MAX_CACHEABLE_NAME

  // Once its lock is poisoned by a panic, a cache is neither read nor written.
  datatype Installed = Installed(rules: RuleSet, cache: Cache<string, Option<string>>, poisoned: bool)
  datatype Pc = Looking(snapshot: nat, name: string) | Missed(snapshot: nat, name: string)
  datatype Answered = Answered(snapshot: nat, name: string, result: Option<(string, Rule)>)

  // `sets` lists every set ever installed; the last one is current.
  datatype State = State(sets: seq<Installed>, pcs: map<nat, Pc>, log: seq<Answered>)

  datatype Step =
    | Replace(installed: Installed)
    | Snapshot(t: nat, name: string)
    | ReadCache(t: nat)
    | FillCache(t: nat)
    | Poison(i: nat)

  // A set is installed once it is loaded, with a cache that holds only its own answers.
  ghost predicate Ready(i: Installed, isMatch: (string, string) -> bool) {
    && Sound(i.rules)
    && i.cache.Valid()
    && i.cache.capacity == CACHE_CAPACITY
    && (forall k :: k in i.cache.table ==> T.Utf8Len(k) <= MAX_CACHEABLE_NAME)
    && (!i.poisoned ==> forall k :: k in i.cache.table ==> i.cache.table[k] == BestMatch(i.rules, isMatch, k))
  }

  // Which is what loading leaves, and what every lookup since has kept.
  lemma LoadedIsReady(r: RuleStore.Rules)
    requires r.Valid() && r.CacheRight()
    ensures Ready(Installed(r.Set(), r.cache, r.poisoned), r.engine.isMatch)
  {
  }

  ghost predicate Enabled(s: State, step: Step, isMatch: (string, string) -> bool) {
    match step
    case Replace(installed) => Ready(installed, isMatch)
    case Snapshot(t, _) => t !in s.pcs && s.sets != []
    case ReadCache(t) => t in s.pcs && s.pcs[t].Looking? && s.pcs[t].snapshot < |s.sets|
    case FillCache(t) => t in s.pcs && s.pcs[t].Missed? && s.pcs[t].snapshot < |s.sets|
    case Poison(i) => i < |s.sets|
  }

  ghost function Do(s: State, step: Step, isMatch: (string, string) -> bool): State
    requires Enabled(s, step, isMatch)
  {
    match step
    case Replace(installed) => s.(sets := s.sets + [installed])
    case Snapshot(t, name) => s.(pcs := s.pcs[t := Looking(|s.sets| - 1, name)])
    case ReadCache(t) =>
      var Looking(i, name) := s.pcs[t];
      var set0 := s.sets[i];
      (match (if set0.poisoned then None else set0.cache.Lookup(name))
       case Some(cached) =>
         State(s.sets[i := set0.(cache := set0.cache.Touch(name))], s.pcs - {t},
           s.log + [Answered(i, name, Resolve(set0.rules, cached))])
       case None => s.(pcs := s.pcs[t := Missed(i, name)]))
    case FillCache(t) =>
      var Missed(i, name) := s.pcs[t];
      var set0 := s.sets[i];
      var best := BestMatch(set0.rules, isMatch, name);
      var kept := T.Utf8Len(name) <= MAX_CACHEABLE_NAME && !set0.poisoned;
      var cache := if kept then set0.cache.Put(name, best) else set0.cache;
      State(s.sets[i := set0.(cache := cache)], s.pcs - {t}, s.log + [Answered(i, name, Resolve(set0.rules, best))])
    case Poison(i) => s.(sets := s.sets[i := s.sets[i].(poisoned := true)])
  }

  ghost predicate Schedule(s: State, steps: seq<Step>, isMatch: (string, string) -> bool)
    decreases |steps|
  {
    steps == [] || (Enabled(s, steps[0], isMatch) && Schedule(Do(s, steps[0], isMatch), steps[1..], isMatch))
  }

  ghost function Run(s: State, steps: seq<Step>, isMatch: (string, string) -> bool): State
    requires Schedule(s, steps, isMatch)
    decreases |steps|
  {
    if steps == [] then s else Run(Do(s, steps[0], isMatch), steps[1..], isMatch)
  }

  ghost predicate AnswerRight(sets: seq<Installed>, a: Answered, isMatch: (string, string) -> bool) {
    a.snapshot < |sets| && a.result == Answer(sets[a.snapshot].rules, isMatch, a.name)
  }

  ghost predicate Inv(s: State, isMatch: (string, string) -> bool) {
    && (forall i :: 0 <= i < |s.sets| ==> Ready(s.sets[i], isMatch))
    && (forall a :: a in s.log ==> AnswerRight(s.sets, a, isMatch))
  }

  // Rule sets never change once installed; only their caches do.
  ghost predicate SameRules(s: State, s': State) {
    |s.sets| <= |s'.sets| && forall i :: 0 <= i < |s.sets| ==> s'.sets[i].rules == s.sets[i].rules
  }

  // A set whose cache alone changed, and stayed right.
  lemma CacheChanged(s: State, i: nat, x: Installed, isMatch: (string, string) -> bool)
    requires Inv(s, isMatch) && i < |s.sets| && Ready(x, isMatch) && x.rules == s.sets[i].rules
    ensures var s' := s.(sets := s.sets[i := x]); Inv(s', isMatch) && SameRules(s, s')
  {
    forall a | a in s.log ensures AnswerRight(s.sets[i := x], a, isMatch) { assert AnswerRight(s.sets, a, isMatch); }
  }

  lemma AnswerAdded(s: State, s': State, a: Answered, isMatch: (string, string) -> bool)
    requires Inv(s, isMatch) && s'.sets == s.sets && s'.log == s.log + [a] && AnswerRight(s.sets, a, isMatch)
    ensures Inv(s', isMatch)
  {
  }

  lemma ReadKeepsInv(s: State, t: nat, isMatch: (string, string) -> bool)
    requires Inv(s, isMatch) && Enabled(s, ReadCache(t), isMatch)
    ensures Inv(Do(s, ReadCache(t), isMatch), isMatch) && SameRules(s, Do(s, ReadCache(t), isMatch))
  {
    var s' := Do(s, ReadCache(t), isMatch);
    var Looking(i, name) := s.pcs[t];
    var c := s.sets[i];
    assert Ready(c, isMatch);
    TouchKeeps(c.cache, name);
    CacheChanged(s, i, c.(cache := c.cache.Touch(name)), isMatch);
    if t !in s'.pcs {
      var mid := s.(sets := s.sets[i := c.(cache := c.cache.Touch(name))]);
      AnswerAdded(mid, s', Answered(i, name, Resolve(c.rules, c.cache.table[name])), isMatch);
    }
  }

  lemma FillKeepsInv(s: State, t: nat, isMatch: (string, string) -> bool)
    requires Inv(s, isMatch) && Enabled(s, FillCache(t), isMatch)
    ensures Inv(Do(s, FillCache(t), isMatch), isMatch) && SameRules(s, Do(s, FillCache(t), isMatch))
  {
    var s' := Do(s, FillCache(t), isMatch);
    var Missed(i, name) := s.pcs[t];
    var c := s.sets[i];
    assert Ready(c, isMatch);
    PutKeeps(c.cache, name, BestMatch(c.rules, isMatch, name));
    CacheChanged(s, i, s'.sets[i], isMatch);
    AnswerAdded(s.(sets := s'.sets), s', Answered(i, name, Answer(c.rules, isMatch, name)), isMatch);
  }

  lemma StepKeepsInv(s: State, step: Step, isMatch: (string, string) -> bool)
    requires Inv(s, isMatch) && Enabled(s, step, isMatch)
    ensures Inv(Do(s, step, isMatch), isMatch) && SameRules(s, Do(s, step, isMatch))
  {
    match step
    case Replace(_) =>
    case Snapshot(_, _) =>
    case ReadCache(t) => ReadKeepsInv(s, t, isMatch);
    case FillCache(t) => FillKeepsInv(s, t, isMatch);
    case Poison(i) =>
      assert Ready(s.sets[i], isMatch);
      CacheChanged(s, i, s.sets[i].(poisoned := true), isMatch);
  }

  lemma {:induction false} RunKeepsInv(s: State, steps: seq<Step>, isMatch: (string, string) -> bool)
    requires Inv(s, isMatch) && Schedule(s, steps, isMatch)
    ensures Inv(Run(s, steps, isMatch), isMatch) && SameRules(s, Run(s, steps, isMatch))
    decreases |steps|
  {
    if steps != [] {
      StepKeepsInv(s, steps[0], isMatch);
      RunKeepsInv(Do(s, steps[0], isMatch), steps[1..], isMatch);
    }
  }

  // Over every interleaving, each lookup answers with the uncached lookup on the
  // set its reader snapshotted, and no cache outgrows its bounds.
  lemma LookupsMatchTheirSnapshot(steps: seq<Step>, isMatch: (string, string) -> bool)
    requires Schedule(NOTHING, steps, isMatch)
    ensures var s := Run(NOTHING, steps, isMatch);
      && (forall a :: a in s.log ==> a.snapshot < |s.sets| && a.result == Answer(s.sets[a.snapshot].rules, isMatch, a.name))
      && (forall i :: 0 <= i < |s.sets| ==> |s.sets[i].cache.table| <= 5000)
      && (forall i, k :: 0 <= i < |s.sets| && k in s.sets[i].cache.table ==> T.Utf8Len(k) <= 256)
  {
    RunKeepsInv(NOTHING, steps, isMatch);
    var s := Run(NOTHING, steps, isMatch);
    forall a | a in s.log ensures AnswerRight(s.sets, a, isMatch) {}
    forall i | 0 <= i < |s.sets|
      ensures |s.sets[i].cache.table| <= CACHE_CAPACITY
      ensures forall k :: k in s.sets[i].cache.table ==> T.Utf8Len(k) <= MAX_CACHEABLE_NAME
    {
      assert Ready(s.sets[i], isMatch);
      NoDupSize(s.sets[i].cache.order);
      assert |s.sets[i].cache.table.Keys| == |s.sets[i].cache.order|;
    }
  }

  predicate IsLookup(step: Step) { step.ReadCache? || step.FillCache? }

  ghost predicate Lookups(steps: seq<Step>) {
    forall i :: 0 <= i < |steps| ==> IsLookup(steps[i])
  }

  // A step of a lookup on a snapshot does the same before a reload and after it.
  lemma ReloadCommutes(s: State, installed: Installed, step: Step, isMatch: (string, string) -> bool)
    requires Ready(installed, isMatch) && Enabled(s, step, isMatch) && IsLookup(step)
    ensures var reloaded := Do(s, Replace(installed), isMatch);
      && Enabled(reloaded, step, isMatch)
      && Do(reloaded, step, isMatch) == Do(Do(s, step, isMatch), Replace(installed), isMatch)
  {
    var i := s.pcs[step.t].snapshot;
    assert (s.sets + [installed])[i] == s.sets[i];
    var x := Do(s, step, isMatch).sets[i];
    assert (s.sets + [installed])[i := x] == s.sets[i := x] + [installed];
  }

  // A reload at any point after their snapshots leaves every lookup in flight, with
  // all its answers and cache entries, exactly as it would have been; only a reader
  // that snapshots afterwards sees the new set.
  lemma {:induction false} ReloadDoesNotDisturb(s: State, installed: Installed, steps: seq<Step>, isMatch: (string, string) -> bool)
    requires Ready(installed, isMatch) && Schedule(s, steps, isMatch) && Lookups(steps)
    ensures var reloaded := Do(s, Replace(installed), isMatch);
      && Schedule(reloaded, steps, isMatch)
      && Run(reloaded, steps, isMatch) == Do(Run(s, steps, isMatch), Replace(installed), isMatch)
    decreases |steps|
  {
    if steps != [] {
      assert IsLookup(steps[0]);
      ReloadCommutes(s, installed, steps[0], isMatch);
      ReloadDoesNotDisturb(Do(s, steps[0], isMatch), installed, steps[1..], isMatch);
    }
  }

  // ---- Which set a lookup reads, off the schedule ----

  const NOTHING := State([], map[], [])

  // The set the last reload installed.
  function Current(steps: seq<Step>): Option<Installed> {
    if steps == [] then None
    else if steps[|steps| - 1].Replace? then Some(steps[|steps| - 1].installed)
    else Current(steps[..|steps| - 1])
  }

  datatype Asked = Asked(rules: RuleSet, name: string)

  // What a reader's last snapshot took: the rules of the last reload before it, and the
  // name it asks for.
  function Taken(steps: seq<Step>, t: nat): Option<Asked> {
    if steps == [] then None
    else
      var init, last := steps[..|steps| - 1], steps[|steps| - 1];
      if last.Snapshot? && last.t == t then
        (match Current(init)
         case Some(installed) => Some(Asked(installed.rules, last.name))
         case None => None)
      else Taken(init, t)
  }

  lemma {:induction false} ScheduleSnoc(s: State, steps: seq<Step>, x: Step, isMatch: (string, string) -> bool)
    requires Schedule(s, steps + [x], isMatch)
    ensures Schedule(s, steps, isMatch) && Enabled(Run(s, steps, isMatch), x, isMatch)
    ensures Run(s, steps + [x], isMatch) == Do(Run(s, steps, isMatch), x, isMatch)
    decreases |steps|
  {
    var all := steps + [x];
    if steps == [] {
      assert all == [x] && all[1..] == [];
    } else {
      assert all[0] == steps[0] && all[1..] == steps[1..] + [x];
      ScheduleSnoc(Do(s, steps[0], isMatch), steps[1..], x, isMatch);
    }
  }

  // The last set is the one of the last reload, and every lookup in flight holds what
  // its own snapshot took.
  ghost predicate Follows(s: State, steps: seq<Step>) {
    && (Current(steps) == None <==> s.sets == [])
    && (s.sets != [] ==> Current(steps).Some? && s.sets[|s.sets| - 1].rules == Current(steps).value.rules)
    && (forall t :: t in s.pcs ==>
          s.pcs[t].snapshot < |s.sets| && Taken(steps, t) == Some(Asked(s.sets[s.pcs[t].snapshot].rules, s.pcs[t].name)))
  }

  lemma SnocParts(steps: seq<Step>, x: Step, t: nat)
    ensures Current(steps + [x]) == if x.Replace? then Some(x.installed) else Current(steps)
    ensures !(x.Snapshot? && x.t == t) ==> Taken(steps + [x], t) == Taken(steps, t)
    ensures x.Snapshot? && x.t == t && Current(steps).Some? ==>
      Taken(steps + [x], t) == Some(Asked(Current(steps).value.rules, x.name))
  {
    assert (steps + [x])[..|steps|] == steps;
  }

  // What a step does to the readers and to the list of sets, caches aside.
  ghost predicate Shape(s: State, s': State, x: Step) {
    && SameRules(s, s')
    && (if x.Replace? then s'.sets == s.sets + [x.installed] else |s'.sets| == |s.sets|)
    && (forall t :: t in s'.pcs && !(x.Snapshot? && x.t == t) ==>
          t in s.pcs && s'.pcs[t].snapshot == s.pcs[t].snapshot && s'.pcs[t].name == s.pcs[t].name)
    && (x.Snapshot? ==> s.sets != [] && s'.pcs[x.t := Looking(|s.sets| - 1, x.name)] == s'.pcs)
  }

  lemma StepShape(s: State, x: Step, isMatch: (string, string) -> bool)
    requires Inv(s, isMatch) && Enabled(s, x, isMatch)
    ensures Shape(s, Do(s, x, isMatch), x)
  {
    StepKeepsInv(s, x, isMatch);
  }

  lemma ShapeFollows(s: State, s': State, steps: seq<Step>, x: Step)
    requires Follows(s, steps) && Shape(s, s', x)
    ensures Follows(s', steps + [x])
  {
    SnocParts(steps, x, 0);
    forall t | t in s'.pcs
      ensures s'.pcs[t].snapshot < |s'.sets|
      ensures Taken(steps + [x], t) == Some(Asked(s'.sets[s'.pcs[t].snapshot].rules, s'.pcs[t].name))
    {
      SnocParts(steps, x, t);
      if x.Snapshot? && x.t == t { assert s'.pcs[t] == Looking(|s.sets| - 1, x.name); }
    }
  }

  lemma FollowStep(s: State, steps: seq<Step>, x: Step, isMatch: (string, string) -> bool)
    requires Inv(s, isMatch) && Follows(s, steps) && Enabled(s, x, isMatch)
    ensures Follows(Do(s, x, isMatch), steps + [x])
  {
    StepShape(s, x, isMatch);
    ShapeFollows(s, Do(s, x, isMatch), steps, x);
  }

  lemma {:induction false} RunFollows(steps: seq<Step>, isMatch: (string, string) -> bool)
    requires Schedule(NOTHING, steps, isMatch)
    ensures Inv(Run(NOTHING, steps, isMatch), isMatch) && Follows(Run(NOTHING, steps, isMatch), steps)
    decreases |steps|
  {
    RunKeepsInv(NOTHING, steps, isMatch);
    if steps != [] {
      var init, x := steps[..|steps| - 1], steps[|steps| - 1];
      assert steps == init + [x];
      ScheduleSnoc(NOTHING, init, x, isMatch);
      RunFollows(init, isMatch);
      FollowStep(Run(NOTHING, init, isMatch), init, x, isMatch);
    }
  }

  // One step more: only a lookup answers, its second half always does, and a first half
  // that does not leaves the second to be taken.  The answer is the uncached one, for
  // the name asked for, on the rules of the last reload before the reader's snapshot.
  lemma StepAnswers(steps: seq<Step>, x: Step, isMatch: (string, string) -> bool)
    requires Schedule(NOTHING, steps + [x], isMatch)
    ensures Schedule(NOTHING, steps, isMatch)
    ensures var before, after := Run(NOTHING, steps, isMatch).log, Run(NOTHING, steps + [x], isMatch).log;
      && (after == before ||
           (IsLookup(x) && Taken(steps, x.t).Some? && |after| == |before| + 1 && after[..|before|] == before
            && after[|before|].name == Taken(steps, x.t).value.name
            && after[|before|].result == Answer(Taken(steps, x.t).value.rules, isMatch, Taken(steps, x.t).value.name)))
      && (x.FillCache? ==> after != before)
      && (x.ReadCache? && after == before ==> Schedule(NOTHING, steps + [x] + [FillCache(x.t)], isMatch))
  {
    ScheduleSnoc(NOTHING, steps, x, isMatch);
    RunFollows(steps, isMatch);
    RunFollows(steps + [x], isMatch);
    var s, s' := Run(NOTHING, steps, isMatch), Run(NOTHING, steps + [x], isMatch);
    if IsLookup(x) && s'.log != s.log {
      var a := s'.log[|s.log|];
      assert a in s'.log && AnswerRight(s'.sets, a, isMatch);
      StepKeepsInv(s, x, isMatch);
    }
    if x.ReadCache? && s'.log == s.log {
      ScheduleMore(NOTHING, steps + [x], FillCache(x.t), isMatch);
    }
  }

  lemma {:induction false} ScheduleMore(s: State, steps: seq<Step>, x: Step, isMatch: (string, string) -> bool)
    requires Schedule(s, steps, isMatch) && Enabled(Run(s, steps, isMatch), x, isMatch)
    ensures Schedule(s, steps + [x], isMatch)
    decreases |steps|
  {
    var all := steps + [x];
    if steps == [] {
      assert all == [x] && all[1..] == [];
    } else {
      assert all[0] == steps[0] && all[1..] == steps[1..] + [x];
      ScheduleMore(Do(s, steps[0], isMatch), steps[1..], x, isMatch);
    }
  }

  // A short name that has been looked up is remembered by the set it was looked up in.
  lemma FilledIsRemembered(s: State, t: nat, isMatch: (string, string) -> bool)
    requires Inv(s, isMatch) && Enabled(s, FillCache(t), isMatch)
    requires T.Utf8Len(s.pcs[t].name) <= 256 && !s.sets[s.pcs[t].snapshot].poisoned
    ensures s.pcs[t].name in Do(s, FillCache(t), isMatch).sets[s.pcs[t].snapshot].cache.table
  {
    var c := s.sets[s.pcs[t].snapshot];
    assert Ready(c, isMatch);
    PutKeeps(c.cache, s.pcs[t].name, BestMatch(c.rules, isMatch, s.pcs[t].name));
  }

  // The step of the schedule an answer was given at.
  ghost predicate GivenAt(steps: seq<Step>, e: nat, a: Answered, isMatch: (string, string) -> bool) {
    && e < |steps| && IsLookup(steps[e])
    && Taken(steps[..e], steps[e].t).Some?
    && a.name == Taken(steps[..e], steps[e].t).value.name
    && a.result == Answer(Taken(steps[..e], steps[e].t).value.rules, isMatch, a.name)
  }

  // Over every schedule: each answer was given at some step of a lookup, and equals the
  // uncached lookup on the rules of the last reload before that lookup's snapshot.
  lemma {:induction false} AnswersReadOffTheSchedule(steps: seq<Step>, p: nat, isMatch: (string, string) -> bool)
    requires Schedule(NOTHING, steps, isMatch) && p < |Run(NOTHING, steps, isMatch).log|
    ensures exists e: nat :: GivenAt(steps, e, Run(NOTHING, steps, isMatch).log[p], isMatch)
    decreases |steps|
  {
    var n := |steps| - 1;
    var init, x := steps[..n], steps[n];
    assert steps == init + [x];
    StepAnswers(init, x, isMatch);
    if p < |Run(NOTHING, init, isMatch).log| {
      AnswersReadOffTheSchedule(init, p, isMatch);
      var a := Run(NOTHING, steps, isMatch).log[p];
      var e: nat :| GivenAt(init, e, a, isMatch);
      assert init[..e] == steps[..e];
      assert GivenAt(steps, e, a, isMatch);
    } else {
      assert steps[..n] == init && GivenAt(steps, n, Run(NOTHING, steps, isMatch).log[p], isMatch);
    }
  }
}
