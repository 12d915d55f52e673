// Applying a rule: many attributes, each of which may fail in any way.
module Worker {
  import opened Common
  import opened RuleDoc
  import CpuSets
  import T = Text

  datatype PlatformError =
    NotFound | PermissionDenied | Skipped(reason: string) | Unsupported | InvalidCpuset(text: string) | Io(code: int)

  datatype Attempt =
    | SetPriority(nice: int)
    | SetCpuWeight(weight: nat)
    | SetLatencyNice(latencyNice: int)
    | SetSched(policy: string, rtprio: int)
    | SetIoPriority(ioclass: string, ionice: int)
    | SetOomScoreAdj(adj: int)
    | AddToCgroup(cgroup: string)
    | SetAffinity(cpus: set<nat>)

  datatype Outcome = Done | Failed(error: PlatformError)
  datatype Call = Call(pid: int, attempt: Attempt, outcome: Outcome)

  datatype Config = Config(
    applyNice: bool, applyCpuWeight: bool, applyLatnice: bool, applySched: bool, applyIonice: bool,
    applyOomScoreAdj: bool, applyCgroups: bool, applyCpuset: bool, cgroupRealtimeWorkaround: bool)

  // A platform whose calls may end in any way; `calls` records them.
  class Platform {
    const cgroupV2: bool
    const maxCores: nat
    var calls: seq<Call>

    method Perform(pid: int, attempt: Attempt) returns (outcome: Outcome)
      modifies this
      ensures calls == old(calls) + [Call(pid, attempt, outcome)]
    {
      outcome := *;
      calls := calls + [Call(pid, attempt, outcome)];
    }
  }

  // ---- The weight a nice value implies ----

  function Power(n: nat): real {
    if n == 0 then 1.0 else 1.25 * Power(n - 1)
  }

  // `100 * 1.25 ^ -nice` over exact arithmetic, before the clamp.
  function RawWeight(nice: int): real
  {
    if nice <= 0 then 100.0 * Power(-nice) else PowerPositive(nice); 100.0 / Power(nice)
  }

  lemma {:induction false} PowerPositive(n: nat)
    ensures Power(n) >= 1.0
  {
    if n > 0 { PowerPositive(n - 1); }
  }

  function Weight(nice: int): nat {
    var w := RawWeight(nice).Floor;
    if w < 1 then 1 else if w > 10000 then 10000 else w
  }

  lemma {:induction false} PowerGrows(n: nat, m: nat)
    requires n <= m
    ensures Power(n) <= Power(m)
  {
    if n < m {
      PowerGrows(n, m - 1);
      PowerPositive(m - 1);
    }
  }

  lemma DivShrinks(x: real, y: real)
    requires 0.0 < x <= y
    ensures 100.0 / y <= 100.0 / x
  {
  }

  lemma RawWeightShrinks(a: int, b: int)
    requires a <= b
    ensures RawWeight(b) <= RawWeight(a)
  {
    if b <= 0 {
      PowerGrows(-b, -a);
    } else if a > 0 {
      PowerPositive(a);
      PowerGrows(a, b);
      DivShrinks(Power(a), Power(b));
    } else {
      PowerPositive(b);
      PowerPositive(-a);
      DivShrinks(1.0, Power(b));
    }
  }

  // A nicer process never gets more weight, and the result is always a legal weight.
  lemma WeightShrinks(a: int, b: int)
    requires a <= b
    ensures 1 <= Weight(b) <= Weight(a) <= 10000
    ensures Weight(0) == 100
  {
    RawWeightShrinks(a, b);
    assert Power(0) == 1.0;
    assert RawWeight(0) == 100.0;
  }

  // Each step of nice is a factor of 1.25, from one hundred at zero: which is the weight.
  lemma WeightRatio(nice: int)
    ensures RawWeight(0) == 100.0
    ensures RawWeight(nice) == 1.25 * RawWeight(nice + 1)
  {
    assert Power(0) == 1.0;
    if nice >= 0 {
      PowerPositive(nice);
      PowerPositive(nice + 1);
      QuarterMore(Power(nice));
    } else {
      assert Power(-nice) == 1.25 * Power(-nice - 1);
    }
  }

  // The weight is that number rounded down, within what the kernel accepts.
  lemma WeightIsRoundedDown(nice: int, w: int)
    requires w as real <= RawWeight(nice) < (w + 1) as real
    ensures 1 <= w <= 10000 ==> Weight(nice) == w
    ensures w < 1 ==> Weight(nice) == 1
    ensures w > 10000 ==> Weight(nice) == 10000
  {
    assert RawWeight(nice).Floor == w;
  }

  lemma QuarterMore(x: real)
    requires x > 0.0
    ensures 100.0 / x == 1.25 * (100.0 / (1.25 * x))
  {
    var y := 100.0 / (1.25 * x);
    assert y * (1.25 * x) == 100.0;
    assert (1.25 * y) * x == 100.0;
  }

  lemma SomeWeights()
    ensures Weight(0) == 100 && Weight(1) == 80 && Weight(-1) == 125 && Weight(2) == 64 && Weight(-2) == 156
  {
    WeightRatio(-1);
    WeightRatio(-2);
    WeightRatio(0);
    WeightRatio(1);
  }

  // ---- What a rule asks for ----

  // One thing `apply_rule` does: try an attribute, or reject a cpuset unread.
  datatype Item = Try(attempt: Attempt) | Reject(error: PlatformError)

  datatype Job = Job(
    rule: Settings, cfg: Config, aliases: map<string, string>, isRealtime: bool, affected: bool,
    cgroupV2: bool, maxCores: nat)

  function Plan(j: Job): seq<Item> {
    NiceItems(j) + LatencyItems(j) + SchedItems(j) + IoItems(j) + OomItems(j) + CgroupItems(j) + CpusetItems(j)
  }

  function NiceItems(j: Job): seq<Item> {
    if j.cfg.applyNice && j.rule.nice.Some? then
      [Try(SetPriority(j.rule.nice.value))] +
      if j.cfg.applyCpuWeight && j.cgroupV2 then [Try(SetCpuWeight(Weight(j.rule.nice.value)))] else []
    else []
  }

  function LatencyItems(j: Job): seq<Item> {
    if j.cfg.applyLatnice && LatencyNice(j.rule).Some? then [Try(SetLatencyNice(LatencyNice(j.rule).value))] else []
  }

  function SchedItems(j: Job): seq<Item> {
    if j.cfg.applySched && j.rule.sched.Some? then
      [Try(SetSched(j.rule.sched.value, if j.rule.rtprio.Some? then j.rule.rtprio.value else 1))]
    else []
  }

  function IoItems(j: Job): seq<Item> {
    if j.cfg.applyIonice && j.rule.ioclass.Some? then
      [Try(SetIoPriority(j.rule.ioclass.value, if j.rule.ionice.Some? then j.rule.ionice.value else 0))]
    else []
  }

  function OomItems(j: Job): seq<Item> {
    if j.cfg.applyOomScoreAdj && j.rule.oomScoreAdj.Some? then [Try(SetOomScoreAdj(j.rule.oomScoreAdj.value))] else []
  }

  // A realtime task is left where it is when the workaround applies.
  function CgroupItems(j: Job): seq<Item> {
    if j.isRealtime && j.cfg.cgroupRealtimeWorkaround && j.affected then []
    else if j.cfg.applyCgroups && j.rule.cgroup.Some? then [Try(AddToCgroup(j.rule.cgroup.value))]
    else []
  }

  // An alias that resolves to nothing is a decision not to touch the affinity.
  function CpusetItems(j: Job): seq<Item> {
    if j.cfg.applyCpuset && j.rule.cpuset.Some? then
      var raw := j.rule.cpuset.value;
      var text := if raw in j.aliases then j.aliases[raw] else raw;
      if raw in j.aliases && text == "" then []
      else match CpuSets.Denoted(text, j.maxCores)
        case Some(cpus) => [Try(SetAffinity(cpus))]
        case None => [Reject(InvalidCpuset(text))]
    else []
  }

  // ---- What happened ----

  datatype Event = Tried(attempt: Attempt, outcome: Outcome) | Rejected(error: PlatformError)

  function ItemOf(e: Event): Item {
    match e
    case Tried(a, _) => Try(a)
    case Rejected(error) => Reject(error)
  }

  function ItemsOf(events: seq<Event>): seq<Item> {
    if events == [] then [] else ItemsOf(events[..|events| - 1]) + [ItemOf(events[|events| - 1])]
  }

  function CallsOf(pid: int, events: seq<Event>): seq<Call> {
    if events == [] then []
    else
      CallsOf(pid, events[..|events| - 1]) +
      match events[|events| - 1]
      case Tried(a, o) => [Call(pid, a, o)]
      case Rejected(_) => []
  }

  predicate Succeeded(e: Event) { e.Tried? && e.outcome.Done? }

  // The weight is optional: its failure is not held against the rule.
  predicate Optional(a: Attempt) { a.SetCpuWeight? }

  // A failure that counts against the rule.
  function FailureOf(e: Event): Option<PlatformError> {
    match e
    case Tried(a, Failed(error)) => if Optional(a) then None else Some(error)
    case Tried(_, Done) => None
    case Rejected(error) => Some(error)
  }

  // Every failure counts against the rule but that of the weight.
  lemma FailuresThatCount(a: Attempt, e: PlatformError)
    ensures FailureOf(Tried(a, Failed(e))) == if a.SetCpuWeight? then None else Some(e)
    ensures FailureOf(Tried(a, Done)) == None && FailureOf(Rejected(e)) == Some(e)
  {
  }

  predicate AnySuccess(events: seq<Event>) {
    exists i :: 0 <= i < |events| && Succeeded(events[i])
  }

  function FirstFailure(events: seq<Event>): Option<PlatformError> {
    if events == [] then None
    else if FirstFailure(events[..|events| - 1]).Some? then FirstFailure(events[..|events| - 1])
    else FailureOf(events[|events| - 1])
  }

  datatype Verdict = Applied | NoApplicable | Partial(error: PlatformError) | Err(error: PlatformError)

  // The verdict as coded, from the flag and the recorded failure.
  function Conclude(appliedAny: bool, failure: Option<PlatformError>): Verdict {
    match failure
    case Some(e) => if appliedAny then Partial(e) else Err(e)
    case None => if appliedAny then Applied else NoApplicable
  }

  lemma Extend(pid: int, events: seq<Event>, e: Event)
    ensures ItemsOf(events + [e]) == ItemsOf(events) + [ItemOf(e)]
    ensures CallsOf(pid, events + [e]) ==
      CallsOf(pid, events) + if e.Tried? then [Call(pid, e.attempt, e.outcome)] else []
    ensures AnySuccess(events + [e]) <==> AnySuccess(events) || Succeeded(e)
    ensures FirstFailure(events + [e]) == if FirstFailure(events).Some? then FirstFailure(events) else FailureOf(e)
  {
    var all := events + [e];
    assert all[..|all| - 1] == events;
    if AnySuccess(events) {
      var i :| 0 <= i < |events| && Succeeded(events[i]);
      assert Succeeded(all[i]);
    }
    if Succeeded(e) { assert Succeeded(all[|events|]); }
  }

  // ---- The method ----

  // The two locals of `apply_rule`.
  datatype Progress = Progress(appliedAny: bool, failure: Option<PlatformError>)

  // The locals and the platform's record summarise the events so far.
  ghost predicate Tracks(platform: Platform, pid: int, before: seq<Call>, p: Progress, events: seq<Event>)
    reads platform
  {
    && p.appliedAny == AnySuccess(events)
    && p.failure == FirstFailure(events)
    && platform.calls == before + CallsOf(pid, events)
  }

  method Run(platform: Platform, pid: int, attempt: Attempt, p: Progress,
             ghost before: seq<Call>, ghost events: seq<Event>)
    returns (p': Progress, ghost events': seq<Event>)
    requires Tracks(platform, pid, before, p, events)
    modifies platform
    ensures Tracks(platform, pid, before, p', events')
    ensures ItemsOf(events') == ItemsOf(events) + [Try(attempt)]
  {
    var outcome := platform.Perform(pid, attempt);
    ghost var e := Tried(attempt, outcome);
    Extend(pid, events, e);
    events' := events + [e];
    match outcome {
      case Done => p' := p.(appliedAny := true);
      case Failed(error) =>
        p' := if Optional(attempt) || p.failure.Some? then p else p.(failure := Some(error));
    }
  }

  method ApplyNice(platform: Platform, pid: int, j: Job, p: Progress, ghost before: seq<Call>, ghost events: seq<Event>)
    returns (p': Progress, ghost events': seq<Event>)
    requires Tracks(platform, pid, before, p, events)
    modifies platform
    ensures Tracks(platform, pid, before, p', events')
    ensures ItemsOf(events') == ItemsOf(events) + NiceItems(j)
  {
    p', events' := p, events;
    if j.cfg.applyNice && j.rule.nice.Some? {
      p', events' := Run(platform, pid, SetPriority(j.rule.nice.value), p', before, events');
      if j.cfg.applyCpuWeight && j.cgroupV2 {
        p', events' := Run(platform, pid, SetCpuWeight(Weight(j.rule.nice.value)), p', before, events');
      }
    }
  }

  method ApplySched(platform: Platform, pid: int, j: Job, p: Progress, ghost before: seq<Call>, ghost events: seq<Event>)
    returns (p': Progress, ghost events': seq<Event>)
    requires Tracks(platform, pid, before, p, events)
    modifies platform
    ensures Tracks(platform, pid, before, p', events')
    ensures ItemsOf(events') == ItemsOf(events) + LatencyItems(j) + SchedItems(j)
  {
    p', events' := p, events;
    if j.cfg.applyLatnice && LatencyNice(j.rule).Some? {
      p', events' := Run(platform, pid, SetLatencyNice(LatencyNice(j.rule).value), p', before, events');
    }
    assert ItemsOf(events') == ItemsOf(events) + LatencyItems(j);
    if j.cfg.applySched && j.rule.sched.Some? {
      var rtprio := if j.rule.rtprio.Some? then j.rule.rtprio.value else 1;
      p', events' := Run(platform, pid, SetSched(j.rule.sched.value, rtprio), p', before, events');
    }
  }

  method ApplyIo(platform: Platform, pid: int, j: Job, p: Progress, ghost before: seq<Call>, ghost events: seq<Event>)
    returns (p': Progress, ghost events': seq<Event>)
    requires Tracks(platform, pid, before, p, events)
    modifies platform
    ensures Tracks(platform, pid, before, p', events')
    ensures ItemsOf(events') == ItemsOf(events) + IoItems(j) + OomItems(j)
  {
    p', events' := p, events;
    if j.cfg.applyIonice && j.rule.ioclass.Some? {
      var ionice := if j.rule.ionice.Some? then j.rule.ionice.value else 0;
      p', events' := Run(platform, pid, SetIoPriority(j.rule.ioclass.value, ionice), p', before, events');
    }
    assert ItemsOf(events') == ItemsOf(events) + IoItems(j);
    if j.cfg.applyOomScoreAdj && j.rule.oomScoreAdj.Some? {
      p', events' := Run(platform, pid, SetOomScoreAdj(j.rule.oomScoreAdj.value), p', before, events');
    }
  }

  method ApplyCgroup(platform: Platform, pid: int, j: Job, p: Progress, ghost before: seq<Call>, ghost events: seq<Event>)
    returns (p': Progress, ghost events': seq<Event>)
    requires Tracks(platform, pid, before, p, events)
    modifies platform
    ensures Tracks(platform, pid, before, p', events')
    ensures ItemsOf(events') == ItemsOf(events) + CgroupItems(j)
  {
    p', events' := p, events;
    if !(j.isRealtime && j.cfg.cgroupRealtimeWorkaround && j.affected) {
      if j.cfg.applyCgroups && j.rule.cgroup.Some? {
        p', events' := Run(platform, pid, AddToCgroup(j.rule.cgroup.value), p', before, events');
      }
    }
  }

  method ApplyCpuset(platform: Platform, pid: int, j: Job, p: Progress, ghost before: seq<Call>, ghost events: seq<Event>)
    returns (p': Progress, ghost events': seq<Event>)
    requires Tracks(platform, pid, before, p, events)
    modifies platform
    ensures Tracks(platform, pid, before, p', events')
    ensures ItemsOf(events') == ItemsOf(events) + CpusetItems(j)
  {
    p', events' := p, events;
    if j.cfg.applyCpuset && j.rule.cpuset.Some? {
      var text := j.rule.cpuset.value;
      if text in j.aliases {
        if j.aliases[text] == "" {
          return;
        }
        text := j.aliases[text];
      }
      var parsed := CpuSets.Denoted(text, j.maxCores);
      if parsed.Some? {
        p', events' := Run(platform, pid, SetAffinity(parsed.value), p', before, events');
      } else {
        ghost var e := Rejected(InvalidCpuset(text));
        Extend(pid, events, e);
        events' := events + [e];
        p' := if p.failure.Some? then p else p.(failure := Some(InvalidCpuset(text)));
      }
    }
  }

  // Attempts every attribute the rule and the configuration ask for, whatever
  // the earlier ones answered, and sums up.
  method ApplyRule(platform: Platform, pid: int, rule: Settings, cfg: Config, aliases: map<string, string>,
                   isRealtime: bool, affected: bool)
    returns (verdict: Verdict, ghost events: seq<Event>)
    modifies platform
    ensures platform.calls == old(platform.calls) + CallsOf(pid, events)
    ensures ItemsOf(events) == Plan(Job(rule, cfg, aliases, isRealtime, affected, platform.cgroupV2, platform.maxCores))
    ensures verdict == Conclude(AnySuccess(events), FirstFailure(events))
  {
    var j := Job(rule, cfg, aliases, isRealtime, affected, platform.cgroupV2, platform.maxCores);
    ghost var before := platform.calls;
    var p := Progress(false, None);
    events := [];
    p, events := ApplyNice(platform, pid, j, p, before, events);
    assert [] + NiceItems(j) == NiceItems(j);
    p, events := ApplySched(platform, pid, j, p, before, events);
    p, events := ApplyIo(platform, pid, j, p, before, events);
    p, events := ApplyCgroup(platform, pid, j, p, before, events);
    p, events := ApplyCpuset(platform, pid, j, p, before, events);
    verdict := Conclude(p.appliedAny, p.failure);
  }

  // ---- What follows for every run ----

  function AttemptsOf(items: seq<Item>): seq<Attempt> {
    if items == [] then []
    else
      AttemptsOf(items[..|items| - 1]) +
      match items[|items| - 1]
      case Try(a) => [a]
      case Reject(_) => []
  }

  function CallAttempts(calls: seq<Call>): (r: seq<Attempt>)
    ensures |r| == |calls| && forall i :: 0 <= i < |r| ==> r[i] == calls[i].attempt
  {
    if calls == [] then [] else [calls[0].attempt] + CallAttempts(calls[1..])
  }

  lemma {:induction false} AttemptsOfCalls(pid: int, events: seq<Event>)
    ensures CallAttempts(CallsOf(pid, events)) == AttemptsOf(ItemsOf(events))
  {
    if events != [] {
      var n := |events| - 1;
      AttemptsOfCalls(pid, events[..n]);
      var items := ItemsOf(events);
      assert items[..|items| - 1] == ItemsOf(events[..n]);
    }
  }

  // Non-interference: two runs of one job make the same calls in the same order,
  // however differently those calls end.
  lemma SameCallsWhateverFails(pid: int, j: Job, one: seq<Event>, other: seq<Event>)
    requires ItemsOf(one) == Plan(j) && ItemsOf(other) == Plan(j)
    ensures CallAttempts(CallsOf(pid, one)) == CallAttempts(CallsOf(pid, other)) == AttemptsOf(Plan(j))
  {
    AttemptsOfCalls(pid, one);
    AttemptsOfCalls(pid, other);
  }

  lemma {:induction false} ItemsOfIndex(events: seq<Event>)
    ensures |ItemsOf(events)| == |events|
    ensures forall i :: 0 <= i < |events| ==> ItemsOf(events)[i] == ItemOf(events[i])
  {
    if events != [] { ItemsOfIndex(events[..|events| - 1]); }
  }

  lemma {:induction false} NoFailure(events: seq<Event>)
    ensures FirstFailure(events) == None <==> forall i :: 0 <= i < |events| ==> FailureOf(events[i]) == None
  {
    if events != [] {
      var n := |events| - 1;
      NoFailure(events[..n]);
      assert forall i :: 0 <= i < n ==> events[..n][i] == events[i];
    }
  }

  // The verdict, read off what happened: nothing at all was applicable exactly
  // when the plan is empty, and a failure is an error exactly when nothing took effect.
  lemma VerdictMeaning(j: Job, events: seq<Event>)
    requires ItemsOf(events) == Plan(j)
    ensures var v := Conclude(AnySuccess(events), FirstFailure(events));
      && (v == NoApplicable <==> Plan(j) == [])
      && (v == Applied <==> AnySuccess(events) && FirstFailure(events) == None)
      && (forall e :: v == Err(e) <==> !AnySuccess(events) && FirstFailure(events) == Some(e))
      && (forall e :: v == Partial(e) <==> AnySuccess(events) && FirstFailure(events) == Some(e))
  {
    ItemsOfIndex(events);
    NoFailure(events);
    if events != [] && FirstFailure(events) == None && !AnySuccess(events) {
      assert ItemsOf(events)[0] == ItemOf(events[0]) == Plan(j)[0];
      assert FailureOf(events[0]) == None && !Succeeded(events[0]);
      WeightFollowsPriority(j, 0);
    }
  }

  // The first recorded failure is the failure of the earliest event that has one.
  lemma {:induction false} FirstFailureIsFirst(events: seq<Event>, i: nat)
    requires i < |events| && FailureOf(events[i]).Some?
    requires forall k :: 0 <= k < i ==> FailureOf(events[k]) == None
    ensures FirstFailure(events) == FailureOf(events[i])
  {
    var n := |events| - 1;
    if i == n {
      NoFailure(events[..n]);
    } else {
      FirstFailureIsFirst(events[..n], i);
    }
  }

  // ---- What the plan holds ----

  // The text an alias or a literal cpuset resolves to; None to leave the affinity alone.
  function CpusetText(j: Job): Option<string> {
    if !j.cfg.applyCpuset || j.rule.cpuset == None then None
    else if j.rule.cpuset.value !in j.aliases then j.rule.cpuset
    else if j.aliases[j.rule.cpuset.value] == "" then None
    else Some(j.aliases[j.rule.cpuset.value])
  }

  // The calls a job wants, one attribute at a time.
  predicate Wants(j: Job, a: Attempt) {
    match a
    case SetPriority(n) => j.cfg.applyNice && j.rule.nice == Some(n)
    case SetCpuWeight(w) =>
      j.cfg.applyNice && j.cfg.applyCpuWeight && j.cgroupV2 && j.rule.nice.Some? && w == Weight(j.rule.nice.value)
    case SetLatencyNice(n) =>
      j.cfg.applyLatnice && Some(n) == if j.rule.latencyNice.Some? then j.rule.latencyNice else j.rule.nice
    case SetSched(policy, rtprio) =>
      j.cfg.applySched && j.rule.sched == Some(policy) && (j.rule.rtprio == Some(rtprio) || (j.rule.rtprio == None && rtprio == 1))
    case SetIoPriority(ioclass, ionice) =>
      j.cfg.applyIonice && j.rule.ioclass == Some(ioclass) && (j.rule.ionice == Some(ionice) || (j.rule.ionice == None && ionice == 0))
    case SetOomScoreAdj(n) => j.cfg.applyOomScoreAdj && j.rule.oomScoreAdj == Some(n)
    case AddToCgroup(cgroup) =>
      j.cfg.applyCgroups && j.rule.cgroup == Some(cgroup) && !(j.isRealtime && j.cfg.cgroupRealtimeWorkaround && j.affected)
    case SetAffinity(cpus) => CpusetText(j).Some? && CpuSets.Denoted(CpusetText(j).value, j.maxCores) == Some(cpus)
  }

  predicate Planned(items: seq<Item>, a: Attempt) {
    exists k :: 0 <= k < |items| && items[k].Try? && items[k].attempt == a
  }

  lemma PlannedConcat(x: seq<Item>, y: seq<Item>, a: Attempt)
    ensures Planned(x + y, a) <==> Planned(x, a) || Planned(y, a)
  {
    if Planned(x, a) {
      var k :| 0 <= k < |x| && x[k].Try? && x[k].attempt == a;
      assert (x + y)[k] == x[k];
    }
    if Planned(y, a) {
      var k :| 0 <= k < |y| && y[k].Try? && y[k].attempt == a;
      assert (x + y)[|x| + k] == y[k];
    }
  }

  lemma AtMostOne(items: seq<Item>, a: Attempt)
    requires |items| <= 1
    ensures Planned(items, a) <==> items != [] && items[0].Try? && items[0].attempt == a
  {
  }

  lemma NicePlanned(j: Job, a: Attempt)
    ensures Planned(NiceItems(j), a) <==> Wants(j, a) && (a.SetPriority? || a.SetCpuWeight?)
  {
    if j.cfg.applyNice && j.rule.nice.Some? {
      var first := [Try(SetPriority(j.rule.nice.value))];
      var second := NiceItems(j)[1..];
      assert NiceItems(j) == first + second;
      AtMostOne(first, a);
      AtMostOne(second, a);
      PlannedConcat(first, second, a);
    }
  }

  lemma OthersPlanned(j: Job, a: Attempt)
    ensures Planned(LatencyItems(j), a) <==> Wants(j, a) && a.SetLatencyNice?
    ensures Planned(SchedItems(j), a) <==> Wants(j, a) && a.SetSched?
    ensures Planned(IoItems(j), a) <==> Wants(j, a) && a.SetIoPriority?
    ensures Planned(OomItems(j), a) <==> Wants(j, a) && a.SetOomScoreAdj?
    ensures Planned(CgroupItems(j), a) <==> Wants(j, a) && a.AddToCgroup?
  {
    AtMostOne(LatencyItems(j), a);
    AtMostOne(SchedItems(j), a);
    AtMostOne(IoItems(j), a);
    AtMostOne(OomItems(j), a);
    AtMostOne(CgroupItems(j), a);
  }

  lemma CpusetPlanned(j: Job, a: Attempt)
    ensures Planned(CpusetItems(j), a) <==> Wants(j, a) && a.SetAffinity?
  {
    AtMostOne(CpusetItems(j), a);
  }

  // A call is in the plan exactly when the rule gives its attribute a value, the
  // configuration has it switched on and nothing exempts the process from it.
  lemma PlanExact(j: Job, a: Attempt)
    ensures Planned(Plan(j), a) <==> Wants(j, a)
  {
    NicePlanned(j, a);
    OthersPlanned(j, a);
    CpusetPlanned(j, a);
    var p1 := NiceItems(j) + LatencyItems(j);
    var p2 := p1 + SchedItems(j);
    var p3 := p2 + IoItems(j);
    var p4 := p3 + OomItems(j);
    PlannedConcat(NiceItems(j), LatencyItems(j), a);
    PlannedConcat(p1, SchedItems(j), a);
    PlannedConcat(p2, IoItems(j), a);
    PlannedConcat(p3, OomItems(j), a);
    PlannedConcat(p4, CgroupItems(j), a);
    PlannedConcat(p4 + CgroupItems(j), CpusetItems(j), a);
  }

  // The order of the attributes.
  function Rank(item: Item): nat {
    match item
    case Reject(_) => 7
    case Try(a) =>
      match a
      case SetPriority(_) => 0
      case SetCpuWeight(_) => 1
      case SetLatencyNice(_) => 2
      case SetSched(_, _) => 3
      case SetIoPriority(_, _) => 4
      case SetOomScoreAdj(_) => 5
      case AddToCgroup(_) => 6
      case SetAffinity(_) => 7
  }

  // Strictly by rank, and within `lo` and `hi`.
  predicate Ranked(items: seq<Item>, lo: nat, hi: nat) {
    && (forall k :: 0 <= k < |items| ==> lo <= Rank(items[k]) < hi)
    && (forall k, l :: 0 <= k < l < |items| ==> Rank(items[k]) < Rank(items[l]))
  }

  lemma RankedConcat(x: seq<Item>, y: seq<Item>, lo: nat, mid: nat, hi: nat)
    requires Ranked(x, lo, mid) && Ranked(y, mid, hi) && lo <= mid <= hi
    ensures Ranked(x + y, lo, hi)
  {
  }

  lemma RankedOne(items: seq<Item>, rank: nat)
    requires |items| <= 1 && (items != [] ==> Rank(items[0]) == rank)
    ensures Ranked(items, rank, rank + 1)
  {
  }

  lemma NiceRanked(j: Job)
    ensures Ranked(NiceItems(j), 0, 2)
  {
    var items := NiceItems(j);
    assert items != [] ==> Rank(items[0]) == 0;
    assert |items| > 1 ==> Rank(items[1]) == 1;
  }

  lemma PartsRanked(j: Job)
    ensures Ranked(LatencyItems(j), 2, 3) && Ranked(SchedItems(j), 3, 4) && Ranked(IoItems(j), 4, 5)
    ensures Ranked(OomItems(j), 5, 6) && Ranked(CgroupItems(j), 6, 7)
  {
    RankedOne(LatencyItems(j), 2);
    RankedOne(SchedItems(j), 3);
    RankedOne(IoItems(j), 4);
    RankedOne(OomItems(j), 5);
    RankedOne(CgroupItems(j), 6);
  }

  lemma CpusetRanked(j: Job)
    ensures Ranked(CpusetItems(j), 7, 8)
  {
    RankedOne(CpusetItems(j), 7);
  }

  // Attributes are taken in one fixed order, each at most once.
  lemma PlanOrdered(j: Job)
    ensures Ranked(Plan(j), 0, 8)
  {
    NiceRanked(j);
    PartsRanked(j);
    CpusetRanked(j);
    var p1 := NiceItems(j) + LatencyItems(j);
    var p2 := p1 + SchedItems(j);
    var p3 := p2 + IoItems(j);
    var p4 := p3 + OomItems(j);
    RankedConcat(NiceItems(j), LatencyItems(j), 0, 2, 3);
    RankedConcat(p1, SchedItems(j), 0, 3, 4);
    RankedConcat(p2, IoItems(j), 0, 4, 5);
    RankedConcat(p3, OomItems(j), 0, 5, 6);
    RankedConcat(p4, CgroupItems(j), 0, 6, 7);
    RankedConcat(p4 + CgroupItems(j), CpusetItems(j), 0, 7, 8);
  }

  // The optional weight is only ever tried after the priority.
  lemma WeightFollowsPriority(j: Job, i: nat)
    requires i < |Plan(j)| && Plan(j)[i].Try? && Optional(Plan(j)[i].attempt)
    ensures exists k :: 0 <= k < i && Plan(j)[k].Try? && Plan(j)[k].attempt.SetPriority?
  {
    PlanExact(j, Plan(j)[i].attempt);
    PlanExact(j, SetPriority(j.rule.nice.value));
    PlanOrdered(j);
    var k :| 0 <= k < |Plan(j)| && Plan(j)[k].Try? && Plan(j)[k].attempt == SetPriority(j.rule.nice.value);
    assert !(i < k) && i != k;
  }

  // Every call of a run is one the job wants; in particular, with the workaround on
  // and the platform affected, a realtime process is never moved.
  lemma CallsAreWanted(pid: int, j: Job, events: seq<Event>, i: nat)
    requires ItemsOf(events) == Plan(j) && i < |CallsOf(pid, events)|
    ensures Wants(j, CallsOf(pid, events)[i].attempt)
    ensures j.isRealtime && j.cfg.cgroupRealtimeWorkaround && j.affected ==> !CallsOf(pid, events)[i].attempt.AddToCgroup?
  {
    AttemptsOfCalls(pid, events);
    var a := CallsOf(pid, events)[i].attempt;
    assert CallAttempts(CallsOf(pid, events))[i] == a;
    AttemptFromItem(Plan(j), i);
    PlanExact(j, a);
  }

  lemma {:induction false} AttemptFromItem(items: seq<Item>, i: nat)
    requires i < |AttemptsOf(items)|
    ensures Planned(items, AttemptsOf(items)[i])
  {
    var n := |items| - 1;
    if i < |AttemptsOf(items[..n])| {
      AttemptFromItem(items[..n], i);
      var k :| 0 <= k < n && items[..n][k].Try? && items[..n][k].attempt == AttemptsOf(items[..n])[i];
      assert items[k] == items[..n][k];
    } else {
      assert items[n].Try?;
    }
  }

  // ---- One run of `apply_rule`, as seen from outside ----

  // The calls made for a process, and the verdict on them: exactly the planned ones,
  // all of this process and all wanted; on an affected platform with the workaround
  // on, none that moves a realtime process.
  ghost predicate Made(j: Job, pid: int, calls: seq<Call>, verdict: Verdict) {
    && CallAttempts(calls) == AttemptsOf(Plan(j))
    && (verdict == NoApplicable <==> Plan(j) == [])
    && (forall c :: c in calls ==> c.pid == pid && Wants(j, c.attempt))
    && (j.isRealtime && j.cfg.cgroupRealtimeWorkaround && j.affected ==> forall c :: c in calls ==> !c.attempt.AddToCgroup?)
  }

  lemma RunMade(pid: int, j: Job, events: seq<Event>)
    requires ItemsOf(events) == Plan(j)
    ensures Made(j, pid, CallsOf(pid, events), Conclude(AnySuccess(events), FirstFailure(events)))
  {
    var calls := CallsOf(pid, events);
    AttemptsOfCalls(pid, events);
    VerdictMeaning(j, events);
    forall k | 0 <= k < |calls|
      ensures calls[k].pid == pid && Wants(j, calls[k].attempt)
      ensures j.isRealtime && j.cfg.cgroupRealtimeWorkaround && j.affected ==> !calls[k].attempt.AddToCgroup?
    {
      CallsAreWanted(pid, j, events, k);
      CallsOfPid(pid, events, k);
    }
  }

  lemma {:induction false} CallsOfPid(pid: int, events: seq<Event>, k: nat)
    requires k < |CallsOf(pid, events)|
    ensures CallsOf(pid, events)[k].pid == pid
  {
    var n := |events| - 1;
    if k < |CallsOf(pid, events[..n])| { CallsOfPid(pid, events[..n], k); }
  }

  // ---- The name a process is looked up under ----

  // NixOS wraps executables as `.name-wrapped`, which `comm` may truncate.
  function LookupName(name: string): string {
    if name != "" && name[0] == '.' then
      Unwrapped(name, T.RFind(name, '-'), T.Utf8Len(name))
    else name
  }

  // `dash` is where the last dash is, `bytes` the length in bytes.
  function Unwrapped(name: string, dash: nat, bytes: nat): string {
    var wrapped := |name| >= 8 && name[|name| - 8..] == "-wrapped";
    var truncated := bytes == 15 && dash < |name| && name[dash..] <= "-wrapped";
    if (wrapped || truncated) && 1 < dash < |name| then name[1..dash] else name
  }

  lemma LastDash(s: string, n: nat)
    requires n < |s| && s[n] == '-' && '-' !in s[n + 1..]
    ensures T.RFind(s, '-') == n
  {
    var i := T.RFind(s, '-');
    assert forall k :: n < k < |s| ==> s[k] == s[n + 1..][k - n - 1];
    assert forall k :: i < k < |s| ==> s[k] == s[i + 1..][k - i - 1];
  }

  // Unwrapping undoes wrapping, whole or cut short at fifteen bytes.
  lemma UnwrapsWrapped(x: string, w: string)
    requires x != "" && w != "" && w <= "-wrapped"
    requires w == "-wrapped" || T.Utf8Len("." + x + w) == 15
    ensures LookupName("." + x + w) == x
  {
    var name := "." + x + w;
    var n := 1 + |x|;
    TailHasOneDash(w);
    assert name[n..] == w && name[n] == w[0] && name[n + 1..] == w[1..];
    LastDash(name, n);
    assert name[1..n] == x;
    assert w == "-wrapped" ==> |name| - 8 == n;
  }

  // And nothing else is changed: a name that is not looked up as itself is a wrapped one.
  lemma OnlyWrappedNamesChange(name: string)
    requires LookupName(name) != name
    ensures exists w ::
      && w != "" && w <= "-wrapped" && LookupName(name) != ""
      && (w == "-wrapped" || T.Utf8Len(name) == 15)
      && name == "." + LookupName(name) + w
  {
    var i := T.RFind(name, '-');
    var w := name[i..];
    assert name == [name[0]] + name[1..i] + w;
    if |name| >= 8 && name[|name| - 8..] == "-wrapped" {
      var n := |name| - 8;
      assert name[n] == name[n..][0] && name[n + 1..] == name[n..][1..];
      TailHasOneDash("-wrapped");
      LastDash(name, n);
    }
  }

  // In particular a name without a leading dot is looked up as itself.
  lemma PlainNamesStay(name: string)
    requires name == "" || name[0] != '.'
    ensures LookupName(name) == name
  {
  }

  lemma TailHasOneDash(w: string)
    requires w != "" && w <= "-wrapped"
    ensures w[0] == '-' && '-' !in w[1..]
  {
    assert forall k :: 1 <= k < |w| ==> w[k] == "-wrapped"[k] && w[k] != '-';
  }
}
