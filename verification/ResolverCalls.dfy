// How every call of the caching resolver ends, read off the steps of a run, and what an
// undisturbed call answers.
module ResolverCalls {
  import opened Common
  import opened Lru
  import opened CgroupResolver

  // ---- How a call ends, off the schedule ----

  // Who is alive, from the comings and goings alone.
  function AliveNext(alive: map<Pid, Start>, x: Step): map<Pid, Start> {
    if x.Spawn? then alive[x.pid := x.start] else if x.Die? then alive - {x.pid} else alive
  }

  function AliveAfter(steps: seq<Step>): map<Pid, Start> {
    if steps == [] then map[] else AliveNext(AliveAfter(steps[..|steps| - 1]), steps[|steps| - 1])
  }

  // What a thread last set out to do: the pid it was called for, the start time it read
  // first, and the answer it read from the file.
  datatype Intent = Intent(pid: Pid, first: Option<Start>, file: Option<Option<string>>)

  function IntentNext(was: Option<Intent>, alive: map<Pid, Start>, x: Step, t: nat): Option<Intent> {
    match x
    case Call(u, pid) => if u == t then Some(Intent(pid, None, None)) else was
    case FirstStart(u, readable) =>
      if u == t && readable && was.Some? && was.value.pid in alive then Some(was.value.(first := Some(alive[was.value.pid]))) else was
    case ReadCgroup(u, answer, failed) =>
      if u == t && !failed && was.Some? then Some(was.value.(file := Some(answer))) else was
    case _ => was
  }

  function IntentOf(steps: seq<Step>, t: nat): Option<Intent> {
    if steps == [] then None
    else
      var init := steps[..|steps| - 1];
      IntentNext(IntentOf(init, t), AliveAfter(init), steps[|steps| - 1], t)
  }

  lemma IntentSnoc(steps: seq<Step>, x: Step, t: nat)
    ensures AliveAfter(steps + [x]) == AliveNext(AliveAfter(steps), x)
    ensures IntentOf(steps + [x], t) == IntentNext(IntentOf(steps, t), AliveAfter(steps), x, t)
  {
    assert (steps + [x])[..|steps|] == steps;
  }

  ghost predicate PcFollows(pc: Pc, intent: Option<Intent>) {
    && intent.Some? && pc.pid == intent.value.pid
    && (!pc.Began? ==> intent.value.first == Some(pc.start))
    && (pc.Resolved? || pc.Confirmed? ==> intent.value.file == Some(pc.answer))
  }

  // Every call in flight is where its own steps have brought it.
  ghost predicate Follows(s: State, steps: seq<Step>) {
    s.alive == AliveAfter(steps) && forall t :: t in s.pcs ==> PcFollows(s.pcs[t], IntentOf(steps, t))
  }

  lemma FollowStep(s: State, steps: seq<Step>, x: Step, ttl: nat)
    requires Follows(s, steps) && Enabled(s, x)
    ensures Follows(Do(s, x, ttl), steps + [x])
  {
    var s' := Do(s, x, ttl);
    IntentSnoc(steps, x, 0);
    forall t | t in s'.pcs ensures PcFollows(s'.pcs[t], IntentOf(steps + [x], t)) {
      IntentSnoc(steps, x, t);
      if t in s.pcs { assert PcFollows(s.pcs[t], IntentOf(steps, t)); }
    }
  }

  lemma {:induction false} ScheduleSnoc(s: State, steps: seq<Step>, x: Step, ttl: nat)
    requires Schedule(s, steps + [x], ttl)
    ensures Schedule(s, steps, ttl) && Enabled(Run(s, steps, ttl), x)
    ensures Run(s, steps + [x], ttl) == Do(Run(s, steps, ttl), x, ttl)
    decreases |steps|
  {
    var all := steps + [x];
    if steps == [] {
      assert all == [x] && all[1..] == [];
    } else {
      assert all[0] == steps[0] && all[1..] == steps[1..] + [x];
      ScheduleSnoc(Do(s, steps[0], ttl), steps[1..], x, ttl);
    }
  }

  lemma {:induction false} ScheduleMore(s: State, steps: seq<Step>, x: Step, ttl: nat)
    requires Schedule(s, steps, ttl) && Enabled(Run(s, steps, ttl), x)
    ensures Schedule(s, steps + [x], ttl)
    decreases |steps|
  {
    var all := steps + [x];
    if steps == [] {
      assert all == [x] && all[1..] == [];
    } else {
      assert all[0] == steps[0] && all[1..] == steps[1..] + [x];
      ScheduleMore(Do(s, steps[0], ttl), steps[1..], x, ttl);
    }
  }

  lemma {:induction false} RunFollows(capacity: nat, steps: seq<Step>, ttl: nat)
    requires Schedule(Initial(capacity), steps, ttl)
    ensures Follows(Run(Initial(capacity), steps, ttl), steps)
    decreases |steps|
  {
    if steps != [] {
      var init, x := steps[..|steps| - 1], steps[|steps| - 1];
      assert steps == init + [x];
      ScheduleSnoc(Initial(capacity), init, x, ttl);
      RunFollows(capacity, init, ttl);
      FollowStep(Run(Initial(capacity), init, ttl), init, x, ttl);
    }
  }

  // A start time that can be read and is the one the call read first.
  ghost predicate SameIncarnation(steps: seq<Step>, i: Intent) {
    i.pid in AliveAfter(steps) && i.first == Some(AliveAfter(steps)[i.pid])
  }

  // What a step adds to the answers.  A call ends with nothing exactly when a start time
  // could not be read, the file could not be read, or the second start time is not the
  // first; when it ends by storing, it hands back the answer it read from the file.
  ghost predicate Ends(steps: seq<Step>, x: Step, before: seq<Event>, after: seq<Event>) {
    match x
    case FirstStart(t, readable) =>
      IntentOf(steps, t).Some? && after == if readable then before else before + [Nothing(IntentOf(steps, t).value.pid)]
    case ReadCgroup(t, _, failed) =>
      IntentOf(steps, t).Some? && after == if failed then before + [Nothing(IntentOf(steps, t).value.pid)] else before
    case SecondStart(t, readable) =>
      && IntentOf(steps, t).Some?
      && after == if readable && SameIncarnation(steps, IntentOf(steps, t).value) then before
                  else before + [Nothing(IntentOf(steps, t).value.pid)]
    case Store(t) =>
      && IntentOf(steps, t).Some? && |after| == |before| + 1 && after[..|before|] == before
      && var e, i := after[|before|], IntentOf(steps, t).value;
         e.Fresh? && e.t == t && e.pid == i.pid && i.first == Some(e.first) && i.file == Some(e.answer)
    case Lookup(t) =>
      && IntentOf(steps, t).Some?
      && (after == before ||
           (&& |after| == |before| + 1 && after[..|before|] == before
            && var e, i := after[|before|], IntentOf(steps, t).value;
               e.Hit? && e.t == t && e.pid == i.pid && i.first == Some(e.first)))
    case _ => after == before
  }

  lemma StepEnds(s: State, steps: seq<Step>, x: Step, ttl: nat)
    requires Inv(s, ttl) && Follows(s, steps) && Enabled(s, x)
    ensures Ends(steps, x, s.log, Do(s, x, ttl).log)
    ensures x.SecondStart? && Do(s, x, ttl).log == s.log ==> Enabled(Do(s, x, ttl), Store(x.t))
  {
    if x.FirstStart? || x.ReadCgroup? || x.SecondStart? || x.Store? || x.Lookup? {
      assert PcFollows(s.pcs[x.t], IntentOf(steps, x.t)) && PcRight(s, x.t, s.pcs[x.t]);
    }
  }

  // Over every run, and read off its steps alone: how each call ends; and one whose
  // second start time is its first is left with nothing to do but store its answer.
  lemma CallsEnd(capacity: nat, steps: seq<Step>, x: Step, ttl: nat)
    requires Schedule(Initial(capacity), steps + [x], ttl)
    ensures Schedule(Initial(capacity), steps, ttl)
    ensures Ends(steps, x, Run(Initial(capacity), steps, ttl).log, Run(Initial(capacity), steps + [x], ttl).log)
    ensures x.SecondStart? && Run(Initial(capacity), steps + [x], ttl).log == Run(Initial(capacity), steps, ttl).log ==>
      Schedule(Initial(capacity), steps + [x] + [Store(x.t)], ttl)
  {
    var start := Initial(capacity);
    ScheduleSnoc(start, steps, x, ttl);
    RunFollows(capacity, steps, ttl);
    RunKeepsInv(start, steps, ttl);
    StepEnds(Run(start, steps, ttl), steps, x, ttl);
    if x.SecondStart? && Run(start, steps + [x], ttl).log == Run(start, steps, ttl).log {
      ScheduleMore(start, steps + [x], Store(x.t), ttl);
    }
  }

  // ---- Undisturbed calls ----

  lemma Unroll(s: State, steps: seq<Step>, ttl: nat)
    requires steps != [] && Enabled(s, steps[0]) && Schedule(Do(s, steps[0], ttl), steps[1..], ttl)
    ensures Schedule(s, steps, ttl) && Run(s, steps, ttl) == Run(Do(s, steps[0], ttl), steps[1..], ttl)
  {
  }

  ghost predicate Remembers(s: State, pid: Pid, start: Start, answer: Option<string>, at: nat) {
    pid in s.cache.table && s.cache.table[pid].start == start && s.cache.table[pid].answer == answer && s.cache.table[pid].at == at
  }

  // A call up to the cache read, and what follows a miss.
  function FirstHalf(t: nat, pid: Pid): seq<Step> { [Call(t, pid), FirstStart(t, true), Lookup(t)] }
  function SecondHalf(t: nat, answer: Option<string>): seq<Step> {
    [ReadCgroup(t, answer, false), SecondStart(t, true), Store(t)]
  }

  // A call that misses the cache, on an incarnation that lives through it, hands back
  // what it read and remembers it.
  lemma UndisturbedCallAnswers(s: State, t: nat, pid: Pid, answer: Option<string>, ttl: nat)
    requires s.cache.Valid() && t !in s.pcs && pid in s.alive
    requires !Usable(s, HaveStart(pid, s.alive[pid], 0), ttl)
    ensures Schedule(s, FirstHalf(t, pid) + SecondHalf(t, answer), ttl)
    ensures var s' := Run(s, FirstHalf(t, pid) + SecondHalf(t, answer), ttl);
      && s'.log == s.log + [Fresh(t, pid, s.alive[pid], s.steps + 1, answer, s.steps + 3, s.steps + 4)]
      && s'.pcs == s.pcs && s'.alive == s.alive && s'.now == s.now
      && Remembers(s', pid, s.alive[pid], answer, s.now)
  {
    TouchKeeps(s.cache, pid);
    FinishesCall(AfterMiss(s, t, pid), t, answer, ttl);
    CallMisses(s, t, pid, SecondHalf(t, answer), ttl);
    assert AfterMiss(s, t, pid).pcs - {t} == s.pcs;
  }

  // Where a call stands that has found nothing usable in the cache.
  ghost function AfterMiss(s: State, t: nat, pid: Pid): State
    requires pid in s.alive
  {
    s.(steps := s.steps + 3,
       cache := s.cache.Touch(pid),
       pcs := s.pcs[t := Missed(pid, s.alive[pid], s.steps + 1)],
       firsts := s.firsts[t := s.alive[pid]],
       starts := s.starts + {StartRead(t, pid, s.alive[pid], s.steps + 1)})
  }

  lemma CallMisses(s: State, t: nat, pid: Pid, rest: seq<Step>, ttl: nat)
    requires t !in s.pcs && pid in s.alive && !Usable(s, HaveStart(pid, s.alive[pid], 0), ttl)
    requires Schedule(AfterMiss(s, t, pid), rest, ttl)
    ensures var steps := FirstHalf(t, pid) + rest;
      Schedule(s, steps, ttl) && Run(s, steps, ttl) == Run(AfterMiss(s, t, pid), rest, ttl)
  {
    var steps := [Call(t, pid), FirstStart(t, true), Lookup(t)] + rest;
    var s1 := Do(s, Call(t, pid), ttl);
    var s2 := Do(s1, FirstStart(t, true), ttl);
    assert s2.pcs[t] == HaveStart(pid, s.alive[pid], s.steps + 1);
    assert s2.pcs[t := Missed(pid, s.alive[pid], s.steps + 1)] == s.pcs[t := Missed(pid, s.alive[pid], s.steps + 1)];
    assert Do(s2, Lookup(t), ttl) == AfterMiss(s, t, pid);
    assert steps[3..] == rest && steps[1..][1..] == steps[2..] && steps[2..][1..] == rest;
    Unroll(s2, steps[2..], ttl);
    Unroll(s1, steps[1..], ttl);
    Unroll(s, steps, ttl);
  }

  // The half after the miss.
  lemma FinishesCall(s: State, t: nat, answer: Option<string>, ttl: nat)
    requires t in s.pcs && s.pcs[t].Missed? && s.pcs[t].pid in s.alive && s.alive[s.pcs[t].pid] == s.pcs[t].start
    requires s.cache.Valid() && First(s, t) == s.pcs[t].start
    ensures var steps := SecondHalf(t, answer);
      var pc := s.pcs[t];
      && Schedule(s, steps, ttl)
      && Run(s, steps, ttl).log == s.log + [Fresh(t, pc.pid, pc.start, pc.begun, answer, s.steps, s.steps + 1)]
      && Run(s, steps, ttl).pcs == s.pcs - {t}
      && Run(s, steps, ttl).alive == s.alive && Run(s, steps, ttl).now == s.now
      && Remembers(Run(s, steps, ttl), pc.pid, pc.start, answer, s.now)
  {
    var steps := [ReadCgroup(t, answer, false), SecondStart(t, true), Store(t)];
    var Missed(pid, start, begun) := s.pcs[t];
    var s1 := Do(s, steps[0], ttl);
    var s2 := Do(s1, steps[1], ttl);
    assert s2.pcs[t] == Confirmed(pid, start, begun, answer, s.steps, s.steps + 1);
    PutKeeps(s.cache, pid, Entry(start, answer, s.now, FileRead(t, pid, start, answer, s.steps)));
    Unroll(s2, steps[2..], ttl);
    Unroll(s1, steps[1..], ttl);
    Unroll(s, steps, ttl);
  }

  // A later call for a remembered incarnation, within `ttl`, hands back the remembered
  // answer and reads no file.
  lemma SecondCallHits(s: State, t: nat, pid: Pid, answer: Option<string>, at: nat, elapsed: nat, ttl: nat)
    requires t !in s.pcs && pid in s.alive
    requires Remembers(s, pid, s.alive[pid], answer, at) && s.now + elapsed - at < ttl
    ensures var steps := [Tick(elapsed), Call(t, pid), FirstStart(t, true), Lookup(t)];
      && Schedule(s, steps, ttl)
      && Run(s, steps, ttl).log == s.log + [Hit(t, pid, s.alive[pid], s.steps + 2, s.cache.table[pid], s.now + elapsed)]
      && Run(s, steps, ttl).log[|s.log|].entry.answer == answer
      && Run(s, steps, ttl).files == s.files && Run(s, steps, ttl).pcs == s.pcs
  {
    var steps := [Tick(elapsed), Call(t, pid), FirstStart(t, true), Lookup(t)];
    var s1 := Do(s, steps[0], ttl);
    var s2 := Do(s1, steps[1], ttl);
    var s3 := Do(s2, steps[2], ttl);
    assert s3.pcs[t] == HaveStart(pid, s.alive[pid], s.steps + 2);
    Unroll(s3, steps[3..], ttl);
    Unroll(s2, steps[2..], ttl);
    Unroll(s1, steps[1..], ttl);
    Unroll(s, steps, ttl);
  }
}
