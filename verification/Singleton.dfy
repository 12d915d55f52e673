// One daemon at a time: an exclusive create on one shared name.
//
// Steps are the system calls of `check_singleton`, of the guard's drop and of the
// forced removal, interleaved over any number of processes that start, exit or
// crash at any point.
module Singleton {
  import opened Common

  datatype Pc =
    | Starting             // about to open the name
    | SawNothing           // the open said NOENT
    | Created              // made the object, pid not yet written
    | Holding              // holds the guard
    | Removing             // a forced removal that found the object stale

  // The object under the name: who made it, and the pid written into it.
  datatype Shm = Shm(creator: nat, contents: Option<nat>)

  datatype State = State(shm: Option<Shm>, pcs: map<nat, Pc>)

  datatype Step =
    | Start(p: nat)
    | Open(p: nat, fails: bool)
    | Create(p: nat, fails: bool)
    | Write(p: nat, fails: bool)   // through its own descriptor; a failure is ignored
    | Exit(p: nat)                 // drops the guard: unlink
    | Crash(p: nat)                // killed, or aborted before any drop
    | CheckStale(p: nat, looksLikeDaemon: bool)
    | ForceUnlink(p: nat)

  predicate At(s: State, p: nat, pc: Pc) { p in s.pcs && s.pcs[p] == pc }

  predicate Owner(s: State, p: nat) { At(s, p, Created) || At(s, p, Holding) }

  predicate Enabled(s: State, step: Step) {
    match step
    case Start(p) => p !in s.pcs
    case Open(p, _) => At(s, p, Starting)
    case Create(p, _) => At(s, p, SawNothing)
    case Write(p, _) => At(s, p, Created)
    case Exit(p) => At(s, p, Holding)
    case Crash(p) => p in s.pcs
    case CheckStale(p, looksLikeDaemon) =>
      // Only a pid that was written can be recognised as a running daemon, and a
      // daemon that is running and wrote its pid is recognised.
      && p !in s.pcs
      && (looksLikeDaemon ==> s.shm.Some? && s.shm.value.contents.Some?)
      && (s.shm.Some? && s.shm.value.contents.Some? && At(s, s.shm.value.contents.value, Holding) ==> looksLikeDaemon)
    case ForceUnlink(p) => At(s, p, Removing)
  }

  function Do(s: State, step: Step): State
    requires Enabled(s, step)
  {
    match step
    case Start(p) => s.(pcs := s.pcs[p := Starting])
    case Open(p, fails) =>
      // An existing object, or any other error, is a refusal to start.
      if fails || s.shm.Some? then s.(pcs := s.pcs - {p}) else s.(pcs := s.pcs[p := SawNothing])
    case Create(p, fails) =>
      if fails || s.shm.Some? then s.(pcs := s.pcs - {p})
      else State(Some(Shm(p, None)), s.pcs[p := Created])
    case Write(p, fails) =>
      // The object it made, which a forced removal may have taken from under the name.
      var own := s.shm.Some? && s.shm.value.creator == p;
      State(if own && !fails then Some(Shm(p, Some(p))) else s.shm, s.pcs[p := Holding])
    case Exit(p) => State(None, s.pcs - {p})
    case Crash(p) => s.(pcs := s.pcs - {p})
    case CheckStale(p, looksLikeDaemon) =>
      if looksLikeDaemon then s else s.(pcs := s.pcs[p := Removing])
    case ForceUnlink(p) => State(None, s.pcs - {p})
  }

  ghost predicate Schedule(s: State, steps: seq<Step>)
    decreases |steps|
  {
    steps == [] || (Enabled(s, steps[0]) && Schedule(Do(s, steps[0]), steps[1..]))
  }

  ghost function Run(s: State, steps: seq<Step>): State
    requires Schedule(s, steps)
    decreases |steps|
  {
    if steps == [] then s else Run(Do(s, steps[0]), steps[1..])
  }

  // Whoever owns the name made the object that is there.
  ghost predicate Inv(s: State) {
    forall p :: Owner(s, p) ==> s.shm.Some? && s.shm.value.creator == p
  }

  // Every step keeps the invariant, except a forced unlink of an owned object.
  lemma StepKeepsInv(s: State, step: Step)
    requires Inv(s) && Enabled(s, step)
    ensures Inv(Do(s, step)) <==> !(step.ForceUnlink? && exists p :: Owner(s, p))
  {
    var s' := Do(s, step);
    if step.ForceUnlink? {
      if p :| Owner(s, p) {
        assert Owner(s', p);
      } else {
        assert forall p :: Owner(s', p) ==> Owner(s, p);
      }
    } else if step.Exit? {
      assert Owner(s, step.p);
      assert forall p :: Owner(s', p) ==> Owner(s, p) && p != step.p;
    } else if step.Create? {
      assert forall p :: Owner(s', p) && p != step.p ==> Owner(s, p);
    } else {
      assert forall p :: Owner(s', p) ==> Owner(s, p);
    }
  }

  // No forced removal unlinks an object somebody owns at that moment.
  ghost predicate Careful(s: State, steps: seq<Step>)
    requires Schedule(s, steps)
    decreases |steps|
  {
    steps == [] ||
    (!(steps[0].ForceUnlink? && exists p :: Owner(s, p)) && Careful(Do(s, steps[0]), steps[1..]))
  }

  lemma {:induction false} RunKeepsInv(s: State, steps: seq<Step>)
    requires Inv(s) && Schedule(s, steps) && Careful(s, steps)
    ensures Inv(Run(s, steps))
    decreases |steps|
  {
    if steps != [] {
      StepKeepsInv(s, steps[0]);
      RunKeepsInv(Do(s, steps[0]), steps[1..]);
    }
  }

  lemma {:induction false} NoForceIsCareful(s: State, steps: seq<Step>)
    requires Schedule(s, steps) && forall i :: 0 <= i < |steps| ==> !steps[i].ForceUnlink?
    ensures Careful(s, steps)
    decreases |steps|
  {
    if steps != [] { NoForceIsCareful(Do(s, steps[0]), steps[1..]); }
  }

  // From any leftover object and no process, in every interleaving without a
  // forced removal: at most one process holds the guard, and while it does the
  // object exists and is the one it created.
  lemma MutualExclusion(leftover: Option<Shm>, steps: seq<Step>)
    requires Schedule(State(leftover, map[]), steps)
    requires forall i :: 0 <= i < |steps| ==> !steps[i].ForceUnlink?
    ensures var s := Run(State(leftover, map[]), steps);
      && (forall p, q :: At(s, p, Holding) && At(s, q, Holding) ==> p == q)
      && (forall p :: At(s, p, Holding) ==> s.shm.Some? && s.shm.value.creator == p)
  {
    NoForceIsCareful(State(leftover, map[]), steps);
    RunKeepsInv(State(leftover, map[]), steps);
    var s := Run(State(leftover, map[]), steps);
    forall p | At(s, p, Holding) ensures s.shm.Some? && s.shm.value.creator == p { assert Owner(s, p); }
  }

  // A start that finds no object, undisturbed, ends with the guard; in particular the
  // first start after a holder's clean exit.
  lemma NextStartSucceeds(s: State, p: nat, q: nat, fails: bool)
    requires At(s, p, Holding) && q !in s.pcs
    ensures var steps := [Exit(p), Start(q), Open(q, false), Create(q, false), Write(q, fails)];
      && Schedule(s, steps)
      && At(Run(s, steps), q, Holding) && !At(Run(s, steps), p, Holding)
      && Run(s, steps).shm == Some(Shm(q, if fails then None else Some(q)))
  {
    var steps := [Exit(p), Start(q), Open(q, false), Create(q, false), Write(q, fails)];
    var s1 := Do(s, steps[0]);
    var s2 := Do(s1, steps[1]);
    var s3 := Do(s2, steps[2]);
    var s4 := Do(s3, steps[3]);
    Unroll(s4, steps[4..]);
    Unroll(s3, steps[3..]);
    Unroll(s2, steps[2..]);
    Unroll(s1, steps[1..]);
    Unroll(s, steps);
  }

  // While any object is under the name, a start ends without the guard and leaves the
  // object alone.
  lemma StartsAreRefused(s: State, q: nat)
    requires s.shm.Some? && q !in s.pcs
    ensures var steps := [Start(q), Open(q, false)];
      Schedule(s, steps) && Run(s, steps) == s
  {
    var steps := [Start(q), Open(q, false)];
    var s1 := Do(s, steps[0]);
    Unroll(s1, steps[1..]);
    Unroll(s, steps);
    assert s.pcs[q := Starting] - {q} == s.pcs;
  }

  // With forced removal the guarantee is lost: one that reads the object between
  // its creation and the writing of the pid takes it for a leftover.
  const LOSES: seq<Step> := [
    Start(1), Open(1, false), Create(1, false), CheckStale(9, false), Write(1, false), ForceUnlink(9)]
  const ENTERS: seq<Step> := [Start(2), Open(2, false), Create(2, false), Write(2, false)]

  // The first daemon holds the guard and its object is gone.
  const LOST := State(None, map[1 := Holding])

  lemma RemovalLosesTheObject(rest: seq<Step>)
    requires Schedule(LOST, rest)
    ensures Schedule(State(None, map[]), LOSES + rest)
    ensures Run(State(None, map[]), LOSES + rest) == Run(LOST, rest)
  {
    var s0 := State(None, map[]);
    var s1 := Do(s0, Start(1));
    var s2 := Do(s1, Open(1, false));
    var s3 := Do(s2, Create(1, false));
    var s4 := Do(s3, CheckStale(9, false));
    var s5 := Do(s4, Write(1, false));
    var race := LOSES + rest;
    assert race[6..] == rest && Do(s5, ForceUnlink(9)) == LOST;
    Unroll(s5, race[5..]);
    Unroll(s4, race[4..]);
    Unroll(s3, race[3..]);
    Unroll(s2, race[2..]);
    Unroll(s1, race[1..]);
    Unroll(s0, race);
  }

  lemma SecondEnters()
    ensures Schedule(LOST, ENTERS)
    ensures At(Run(LOST, ENTERS), 1, Holding) && At(Run(LOST, ENTERS), 2, Holding)
  {
    var s1 := Do(LOST, Start(2));
    var s2 := Do(s1, Open(2, false));
    var s3 := Do(s2, Create(2, false));
    Unroll(s3, ENTERS[3..]);
    Unroll(s2, ENTERS[2..]);
    Unroll(s1, ENTERS[1..]);
    Unroll(LOST, ENTERS);
  }

  lemma ForcedRemovalCanAdmitTwo()
    ensures Schedule(State(None, map[]), LOSES + ENTERS)
    ensures var s := Run(State(None, map[]), LOSES + ENTERS);
      At(s, 1, Holding) && At(s, 2, Holding)
  {
    SecondEnters();
    RemovalLosesTheObject(ENTERS);
  }

  // The window need not be short: a daemon whose pid could not be written holds the
  // guard over an empty object, which passes for a leftover for as long as it runs.
  const UNWRITTEN: seq<Step> := [
    Start(1), Open(1, false), Create(1, false), Write(1, true), CheckStale(9, false), ForceUnlink(9)]

  lemma UnwrittenLosesTheObject(rest: seq<Step>)
    requires Schedule(LOST, rest)
    ensures Schedule(State(None, map[]), UNWRITTEN + rest)
    ensures Run(State(None, map[]), UNWRITTEN + rest) == Run(LOST, rest)
  {
    var s0 := State(None, map[]);
    var s1 := Do(s0, Start(1));
    var s2 := Do(s1, Open(1, false));
    var s3 := Do(s2, Create(1, false));
    var s4 := Do(s3, Write(1, true));
    var s5 := Do(s4, CheckStale(9, false));
    var race := UNWRITTEN + rest;
    assert race[6..] == rest && Do(s5, ForceUnlink(9)) == LOST;
    Unroll(s5, race[5..]);
    Unroll(s4, race[4..]);
    Unroll(s3, race[3..]);
    Unroll(s2, race[2..]);
    Unroll(s1, race[1..]);
    Unroll(s0, race);
  }

  lemma UnwrittenHolderCanBeJoined()
    ensures Schedule(State(None, map[]), UNWRITTEN + ENTERS)
    ensures var s := Run(State(None, map[]), UNWRITTEN + ENTERS);
      At(s, 1, Holding) && At(s, 2, Holding)
  {
    SecondEnters();
    UnwrittenLosesTheObject(ENTERS);
  }

  // A holder whose pid is in the object under the name is safe from a removal that
  // has not checked yet.
  lemma WrittenHolderIsRecognised(s: State, p: nat, remover: nat)
    requires At(s, p, Holding) && s.shm == Some(Shm(p, Some(p)))
    ensures !Enabled(s, CheckStale(remover, false))
  {
  }

  lemma Unroll(s: State, steps: seq<Step>)
    requires steps != [] && Enabled(s, steps[0]) && Schedule(Do(s, steps[0]), steps[1..])
    ensures Schedule(s, steps) && Run(s, steps) == Run(Do(s, steps[0]), steps[1..])
  {
  }
}
