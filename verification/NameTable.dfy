// The process-wide name table: a vector of names behind one lock and an index
// from name to id behind another, filled by double-checked locking.
//
// The table is a state machine whose steps are the lock-protected regions of
// `intern` and `get`, taken in any order by any number of threads.
module NameTable {
  import opened Common

  // Ids 0 and 1 are the two states of an attribute that are not names.
  const FIRST_VALUE: nat := 2
  // The largest id is `u16::MAX`, so this many names fit.
  const CAPACITY: nat := 65534
  const UNUSABLE: nat := 1

  // ---- What one undisturbed call does ----

  function IndexOf(values: seq<string>, name: string): (i: nat)
    ensures i <= |values|
    ensures i < |values| ==> values[i] == name
    ensures i < |values| <==> name in values
  {
    if values == [] then 0
    else if values[0] == name then 0
    else 1 + IndexOf(values[1..], name)
  }

  function InternedValues(values: seq<string>, name: string): seq<string> {
    if name in values || |values| >= CAPACITY then values else values + [name]
  }

  function InternedId(values: seq<string>, name: string): nat {
    if name in values then FIRST_VALUE + IndexOf(values, name)
    else if |values| >= CAPACITY then UNUSABLE
    else FIRST_VALUE + |values|
  }

  // `get`, on the id as an attribute stores it.
  function NameOf(values: seq<string>, id: nat): Option<string> {
    if FIRST_VALUE <= id < FIRST_VALUE + |values| then Some(values[id - FIRST_VALUE]) else None
  }

  // ---- The interleaved protocol ----

  datatype Pc =
    | Calling(name: string)              // about to read the index
    | Missed(name: string)               // not indexed; wants the values lock
    | Locked(name: string)               // holds the values lock, about to re-check
    | Checked(name: string)              // still not indexed
    | Pushed(name: string, id: nat)      // in `values`, not yet in the index
    | Returning(name: string, id: nat)   // done, values lock still held

  datatype Event = Interned(name: string, id: nat) | Got(id: nat, result: Option<string>)

  datatype State = State(
    values: seq<string>,
    index: map<string, nat>,
    writer: Option<nat>,
    pcs: map<nat, Pc>,
    log: seq<Event>)

  const INITIAL := State([], map[], None, map[], [])

  datatype Step =
    | Call(name: string) | ReadIndex | TakeLock | Recheck | Append | InsertIndex | Return
    | Get(id: nat)

  // What thread `t` must be doing, and which locks must be free, for a step.
  predicate Enabled(s: State, t: nat, step: Step) {
    match step
    case Call(_) => t !in s.pcs
    case ReadIndex => t in s.pcs && s.pcs[t].Calling?
    case TakeLock => t in s.pcs && s.pcs[t].Missed? && s.writer == None
    case Recheck => t in s.pcs && s.pcs[t].Locked?
    case Append => t in s.pcs && s.pcs[t].Checked?
    case InsertIndex => t in s.pcs && s.pcs[t].Pushed?
    case Return => t in s.pcs && s.pcs[t].Returning?
    case Get(_) => t !in s.pcs && s.writer == None
  }

  function Do(s: State, t: nat, step: Step): State
    requires Enabled(s, t, step)
  {
    match step
    case Call(name) => s.(pcs := s.pcs[t := Calling(name)])
    case ReadIndex =>
      var name := s.pcs[t].name;
      if name in s.index then
        s.(pcs := s.pcs - {t}, log := s.log + [Interned(name, s.index[name])])
      else
        s.(pcs := s.pcs[t := Missed(name)])
    case TakeLock => s.(writer := Some(t), pcs := s.pcs[t := Locked(s.pcs[t].name)])
    case Recheck =>
      var name := s.pcs[t].name;
      s.(pcs := s.pcs[t := if name in s.index then Returning(name, s.index[name]) else Checked(name)])
    case Append =>
      var name := s.pcs[t].name;
      var id := FIRST_VALUE + |s.values|;
      if id > 65535 then
        s.(pcs := s.pcs[t := Returning(name, UNUSABLE)])
      else
        s.(values := s.values + [name], pcs := s.pcs[t := Pushed(name, id)])
    case InsertIndex =>
      var Pushed(name, id) := s.pcs[t];
      s.(index := s.index[name := id], pcs := s.pcs[t := Returning(name, id)])
    case Return =>
      var Returning(name, id) := s.pcs[t];
      s.(writer := None, pcs := s.pcs - {t}, log := s.log + [Interned(name, id)])
    case Get(id) => s.(log := s.log + [Got(id, NameOf(s.values, id))])
  }

  // A schedule is any finite interleaving of enabled steps.
  ghost predicate Schedule(s: State, steps: seq<(nat, Step)>)
    decreases |steps|
  {
    steps == [] ||
    (Enabled(s, steps[0].0, steps[0].1) && Schedule(Do(s, steps[0].0, steps[0].1), steps[1..]))
  }

  ghost function Run(s: State, steps: seq<(nat, Step)>): State
    requires Schedule(s, steps)
    decreases |steps|
  {
    if steps == [] then s else Run(Do(s, steps[0].0, steps[0].1), steps[1..])
  }

  // ---- The invariant ----

  predicate HoldsLock(pc: Pc) {
    pc.Locked? || pc.Checked? || pc.Pushed? || pc.Returning?
  }

  ghost predicate IndexSound(s: State) {
    forall name :: name in s.index ==> NameOf(s.values, s.index[name]) == Some(name)
  }

  // Every stored name is indexed, except the one a writer has just pushed.
  ghost predicate IndexComplete(s: State) {
    forall i :: 0 <= i < |s.values| && s.values[i] !in s.index ==>
      && s.writer.Some?
      && s.writer.value in s.pcs
      && s.pcs[s.writer.value] == Pushed(s.values[i], i + FIRST_VALUE)
  }

  ghost predicate AnswerRight(values: seq<string>, name: string, id: nat) {
    if id == UNUSABLE then |values| == CAPACITY && name !in values
    else NameOf(values, id) == Some(name)
  }

  ghost predicate PcRight(s: State, pc: Pc) {
    match pc
    case Calling(_) => true
    case Missed(_) => true
    case Locked(_) => true
    case Checked(name) => name !in s.values && name !in s.index
    case Pushed(name, id) =>
      && id == |s.values| + 1
      && NameOf(s.values, id) == Some(name)
      && name !in s.index
    case Returning(name, id) => AnswerRight(s.values, name, id)
  }

  ghost predicate EventRight(values: seq<string>, e: Event) {
    match e
    case Interned(name, id) => AnswerRight(values, name, id)
    case Got(id, result) => result.Some? ==> NameOf(values, id) == result
  }

  ghost predicate Inv(s: State) {
    && NoDup(s.values)
    && |s.values| <= CAPACITY
    && IndexSound(s)
    && IndexComplete(s)
    && (forall t :: t in s.pcs && HoldsLock(s.pcs[t]) ==> s.writer == Some(t))
    && (s.writer.Some? ==> s.writer.value in s.pcs && HoldsLock(s.pcs[s.writer.value]))
    && (forall t :: t in s.pcs ==> PcRight(s, s.pcs[t]))
    && (forall e :: e in s.log ==> EventRight(s.values, e))
  }

  // Names are only ever appended, so an id keeps its meaning.
  lemma NameOfGrows(values: seq<string>, more: seq<string>, id: nat)
    requires NameOf(values, id).Some?
    ensures NameOf(values + more, id) == NameOf(values, id)
  {
  }

  lemma AppendKeepsInv(s: State, t: nat)
    requires Inv(s) && Enabled(s, t, Append)
    ensures Inv(Do(s, t, Append))
  {
    var s' := Do(s, t, Append);
    assert PcRight(s, s.pcs[t]) && HoldsLock(s.pcs[t]);
    forall n | n in s'.index ensures NameOf(s'.values, s'.index[n]) == Some(n) {
      NameOfGrows(s.values, [s.pcs[t].name], s.index[n]);
    }
    assert forall u :: u in s'.pcs && u != t ==> s'.pcs[u] == s.pcs[u] && !HoldsLock(s.pcs[u]);
  }

  lemma InsertKeepsInv(s: State, t: nat)
    requires Inv(s) && Enabled(s, t, InsertIndex)
    ensures Inv(Do(s, t, InsertIndex))
  {
    var s' := Do(s, t, InsertIndex);
    assert PcRight(s, s.pcs[t]) && HoldsLock(s.pcs[t]);
    assert forall u :: u in s'.pcs && u != t ==> s'.pcs[u] == s.pcs[u] && !HoldsLock(s.pcs[u]);
  }

  // The steps that touch neither the values nor the index.
  lemma OtherKeepsInv(s: State, t: nat, step: Step)
    requires Inv(s) && Enabled(s, t, step) && !step.Append? && !step.InsertIndex?
    ensures Inv(Do(s, t, step))
  {
    var s' := Do(s, t, step);
    if t in s.pcs { assert PcRight(s, s.pcs[t]); }
    assert forall u :: u in s'.pcs && u != t ==> u in s.pcs && s'.pcs[u] == s.pcs[u];
  }

  lemma StepKeepsInv(s: State, t: nat, step: Step)
    requires Inv(s) && Enabled(s, t, step)
    ensures Inv(Do(s, t, step))
  {
    if step.Append? {
      AppendKeepsInv(s, t);
    } else if step.InsertIndex? {
      InsertKeepsInv(s, t);
    } else {
      OtherKeepsInv(s, t, step);
    }
  }

  lemma {:induction false} RunKeepsInv(s: State, steps: seq<(nat, Step)>)
    requires Inv(s) && Schedule(s, steps)
    ensures Inv(Run(s, steps))
    ensures s.values <= Run(s, steps).values
    ensures s.log <= Run(s, steps).log
    decreases |steps|
  {
    if steps != [] {
      StepKeepsInv(s, steps[0].0, steps[0].1);
      RunKeepsInv(Do(s, steps[0].0, steps[0].1), steps[1..]);
    }
  }

  // ---- The main results, over every interleaving from the empty table ----

  // No name is stored twice, and with the values lock free the index is the
  // exact inverse of the values.
  lemma TableConsistent(steps: seq<(nat, Step)>)
    requires Schedule(INITIAL, steps)
    ensures var s := Run(INITIAL, steps);
      && NoDup(s.values)
      && |s.values| <= 65534
      && (s.writer == None ==>
            forall name, id: nat :: (name in s.index && s.index[name] == id) <==> NameOf(s.values, id) == Some(name))
  {
    RunKeepsInv(INITIAL, steps);
    var s := Run(INITIAL, steps);
    if s.writer == None {
      forall name, id: nat
        ensures (name in s.index && s.index[name] == id) <==> NameOf(s.values, id) == Some(name)
      {
        assert name in s.index ==> NameOf(s.values, s.index[name]) == Some(name);
      }
    }
  }

  // An id once returned for a name means that name for good, and every later
  // answer for that name is the same id: also id 1, handed out once the table is full.
  lemma IdsAreForever(before: seq<(nat, Step)>, after: seq<(nat, Step)>, name: string, id: nat)
    requires Schedule(INITIAL, before) && Schedule(Run(INITIAL, before), after)
    requires Interned(name, id) in Run(INITIAL, before).log
    ensures var s := Run(Run(INITIAL, before), after);
      && (id != UNUSABLE ==> NameOf(s.values, id) == Some(name))
      && (id == UNUSABLE ==> name !in s.values)
      && (forall id' :: Interned(name, id') in s.log ==> id' == id)
      && (forall result :: Got(id, result) in s.log && result.Some? ==> result == Some(name))
  {
    RunKeepsInv(INITIAL, before);
    var mid := Run(INITIAL, before);
    RunKeepsInv(mid, after);
    var s := Run(mid, after);
    assert Interned(name, id) in s.log;
    assert EventRight(s.values, Interned(name, id));
    forall id' | Interned(name, id') in s.log ensures id' == id {
      assert EventRight(s.values, Interned(name, id'));
      assert NameOf(s.values, id') == Some(name) ==> name in s.values;
    }
    forall result | Got(id, result) in s.log && result.Some? ensures result == Some(name) {
      assert EventRight(s.values, Got(id, result));
    }
  }

  // ---- What `get` answers, read off the log and the schedule ----

  // Wherever a `get` comes after an `intern` that returned the id, it gives the name.
  ghost predicate GetsFollowInterns(log: seq<Event>) {
    forall i, j :: 0 <= i < j < |log| && log[i].Interned? && log[j].Got? && log[i].id == log[j].id && log[i].id != UNUSABLE ==>
      log[j].result == Some(log[i].name)
  }

  lemma StepKeepsGets(s: State, t: nat, step: Step)
    requires Inv(s) && Enabled(s, t, step) && GetsFollowInterns(s.log)
    ensures GetsFollowInterns(Do(s, t, step).log)
  {
    var log := Do(s, t, step).log;
    forall i, j | 0 <= i < j < |log| && log[i].Interned? && log[j].Got? && log[i].id == log[j].id && log[i].id != UNUSABLE
      ensures log[j].result == Some(log[i].name)
    {
      assert log[i] == s.log[i] && EventRight(s.values, s.log[i]);
    }
  }

  lemma {:induction false} RunKeepsGets(s: State, steps: seq<(nat, Step)>)
    requires Inv(s) && Schedule(s, steps) && GetsFollowInterns(s.log)
    ensures GetsFollowInterns(Run(s, steps).log)
    decreases |steps|
  {
    if steps != [] {
      StepKeepsInv(s, steps[0].0, steps[0].1);
      StepKeepsGets(s, steps[0].0, steps[0].1);
      RunKeepsGets(Do(s, steps[0].0, steps[0].1), steps[1..]);
    }
  }

  // In every interleaving: a `get` that answers after some call was given the id
  // answers with that call's name, so it says nothing only of an id no call was given.
  lemma GetsSeeWhatWasInterned(steps: seq<(nat, Step)>, i: nat, j: nat, name: string, id: nat, result: Option<string>)
    requires Schedule(INITIAL, steps)
    requires i < j < |Run(INITIAL, steps).log| && id != UNUSABLE
    requires Run(INITIAL, steps).log[i] == Interned(name, id) && Run(INITIAL, steps).log[j] == Got(id, result)
    ensures result == Some(name)
  {
    RunKeepsGets(INITIAL, steps);
  }

  lemma {:induction false} ScheduleSplits(s: State, a: seq<(nat, Step)>, b: seq<(nat, Step)>)
    requires Schedule(s, a + b)
    ensures Schedule(s, a) && Schedule(Run(s, a), b) && Run(s, a + b) == Run(Run(s, a), b)
    decreases |a|
  {
    if a == [] {
      assert a + b == b;
    } else {
      assert (a + b)[0] == a[0] && (a + b)[1..] == a[1..] + b;
      ScheduleSplits(Do(s, a[0].0, a[0].1), a[1..], b);
    }
  }

  // Exactly what one `get` of a run answers: the name stored under the id by then, and
  // nothing if and only if no name has been stored under it.
  lemma GetAnswers(before: seq<(nat, Step)>, t: nat, id: nat, after: seq<(nat, Step)>)
    requires Schedule(INITIAL, before + [(t, Get(id))] + after)
    ensures Schedule(INITIAL, before)
    ensures var s, end := Run(INITIAL, before), Run(INITIAL, before + [(t, Get(id))] + after);
      && |s.log| < |end.log| && end.log[|s.log|].Got? && end.log[|s.log|].id == id
      && (forall name :: end.log[|s.log|].result == Some(name) <==>
            FIRST_VALUE <= id < FIRST_VALUE + |s.values| && s.values[id - FIRST_VALUE] == name)
      && (end.log[|s.log|].result == None <==> id < FIRST_VALUE || id >= FIRST_VALUE + |s.values|)
  {
    var get := [(t, Get(id))];
    ScheduleSplits(INITIAL, before + get, after);
    ScheduleSplits(INITIAL, before, get);
    var s := Run(INITIAL, before);
    assert get[1..] == [];
    assert Run(s, get) == Do(s, t, Get(id));
    RunKeepsInv(INITIAL, before + get);
    RunKeepsInv(Run(INITIAL, before + get), after);
  }

  // ---- The undisturbed call is the one-step function the rule store uses ----

  ghost function SoloCall(s: State, t: nat, name: string): seq<(nat, Step)> {
    [(t, Call(name)), (t, ReadIndex)] +
    if name in s.index then []
    else [(t, TakeLock), (t, Recheck), (t, Append)] + (if |s.values| >= CAPACITY then [] else [(t, InsertIndex)]) + [(t, Return)]
  }

  lemma RunOne(s: State, step: (nat, Step), rest: seq<(nat, Step)>)
    requires Enabled(s, step.0, step.1) && Schedule(Do(s, step.0, step.1), rest)
    ensures Schedule(s, [step] + rest)
    ensures Run(s, [step] + rest) == Run(Do(s, step.0, step.1), rest)
  {
    assert ([step] + rest)[1..] == rest;
  }

  lemma QuietIndex(s: State, name: string)
    requires Inv(s) && s.pcs == map[]
    ensures name in s.index <==> name in s.values
    ensures name in s.index ==> s.index[name] == InternedId(s.values, name)
  {
    if name in s.index {
      assert NameOf(s.values, s.index[name]) == Some(name);
    }
  }

  lemma SoloCallIsIntern(s: State, t: nat, name: string)
    requires Inv(s) && s.pcs == map[]
    ensures Schedule(s, SoloCall(s, t, name))
    ensures var s' := Run(s, SoloCall(s, t, name));
      && s'.pcs == map[]
      && s'.values == InternedValues(s.values, name)
      && s'.log == s.log + [Interned(name, InternedId(s.values, name))]
  {
    QuietIndex(s, name);
    var s1 := Do(s, t, Call(name));
    var s2 := Do(s1, t, ReadIndex);
    ghost var rest := SoloCall(s, t, name)[2..];
    if name in s.index {
      assert s2.pcs == map[];
    } else {
      SoloLocked(s2, t, name);
    }
    RunOne(s1, (t, ReadIndex), rest);
    RunOne(s, (t, Call(name)), [(t, ReadIndex)] + rest);
    assert SoloCall(s, t, name) == [(t, Call(name))] + ([(t, ReadIndex)] + rest);
  }

  // The locked half of a call that missed, from the values lock to the return.
  lemma SoloLocked(s: State, t: nat, name: string)
    requires s.pcs == map[t := Missed(name)] && s.writer == None && name !in s.index
    requires |s.values| <= CAPACITY
    ensures var full := |s.values| >= CAPACITY;
      var steps := [(t, TakeLock), (t, Recheck), (t, Append)] + (if full then [] else [(t, InsertIndex)]) + [(t, Return)];
      && Schedule(s, steps)
      && Run(s, steps).pcs == map[]
      && Run(s, steps).values == (if full then s.values else s.values + [name])
      && Run(s, steps).log == s.log + [Interned(name, if full then UNUSABLE else FIRST_VALUE + |s.values|)]
  {
    var s1 := Do(s, t, TakeLock);
    var s2 := Do(s1, t, Recheck);
    var s3 := Do(s2, t, Append);
    assert s3.pcs.Keys == {t};
    ghost var tail := [(t, Return)];
    if |s.values| < CAPACITY {
      RunOne(Do(s3, t, InsertIndex), (t, Return), []);
      RunOne(s3, (t, InsertIndex), [(t, Return)]);
      tail := [(t, InsertIndex)] + tail;
    } else {
      RunOne(s3, (t, Return), []);
    }
    RunOne(s2, (t, Append), tail);
    RunOne(s1, (t, Recheck), [(t, Append)] + tail);
    RunOne(s, (t, TakeLock), [(t, Recheck)] + ([(t, Append)] + tail));
    assert [(t, TakeLock)] + ([(t, Recheck)] + ([(t, Append)] + tail))
      == [(t, TakeLock), (t, Recheck), (t, Append)] + tail;
    assert [(t, TakeLock), (t, Recheck), (t, Append)] + tail
      == [(t, TakeLock), (t, Recheck), (t, Append)] + (if |s.values| >= CAPACITY then [] else [(t, InsertIndex)]) + [(t, Return)];
  }
}
