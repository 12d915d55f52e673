// The caching cgroup resolver against a world that kills and recycles pids.
//
// Every procfs read and every locked region of `resolve` is one step, and any
// number of calls interleave with the environment.  A process incarnation is a
// pid together with its start time; the kernel never gives one pid the same
// start time twice.
module CgroupResolver {
  import opened Common
  import opened Lru

  type Pid = int
  type Start = nat

  // What calls have read, and at which step of the run: a start time, and the cgroup
  // file of the incarnation that was alive then.
  datatype StartRead = StartRead(t: nat, pid: Pid, start: Start, at: nat)
  datatype FileRead = FileRead(t: nat, pid: Pid, start: Start, answer: Option<string>, at: nat)

  // A cache entry; `origin` only says where the answer came from.
  datatype Entry = Entry(start: Start, answer: Option<string>, at: nat, origin: FileRead)

  // Where a call is, with the steps at which it made its reads.
  datatype Pc =
    | Began(pid: Pid)
    | HaveStart(pid: Pid, start: Start, begun: nat)
    | Missed(pid: Pid, start: Start, begun: nat)
    // `source` is the incarnation the file was read from, None for no process.
    | Resolved(pid: Pid, start: Start, begun: nat, answer: Option<string>, source: Option<Start>, read: nat)
    | Confirmed(pid: Pid, start: Start, begun: nat, answer: Option<string>, read: nat, confirmed: nat)

  // A cache store, and what a call handed back: `first` is the start time that call
  // read before anything else, at step `begun`.
  datatype Stored = Stored(pid: Pid, entry: Entry)
  datatype Event =
    | Fresh(t: nat, pid: Pid, first: Start, begun: nat, answer: Option<string>, read: nat, confirmed: nat)
    | Hit(t: nat, pid: Pid, first: Start, begun: nat, entry: Entry, now: nat)
    | Nothing(pid: Pid)

  datatype State = State(
    steps: nat,
    alive: map<Pid, Start>,
    used: set<(Pid, Start)>,
    now: nat,
    cache: Cache<Pid, Entry>,
    pcs: map<nat, Pc>,
    firsts: map<nat, Start>,
    starts: set<StartRead>,
    files: set<FileRead>,
    stores: set<Stored>,
    log: seq<Event>)

  function Initial(capacity: nat): State {
    State(0, map[], {}, 0, Lru.Empty(capacity), map[], map[], {}, {}, {}, [])
  }

  datatype Step =
    | Spawn(pid: Pid, start: Start) | Die(pid: Pid) | Tick(elapsed: nat)
    | Call(t: nat, pid: Pid)
    | FirstStart(t: nat, readable: bool)
    | Lookup(t: nat)
    | ReadCgroup(t: nat, answer: Option<string>, failed: bool)
    | SecondStart(t: nat, readable: bool)
    | Store(t: nat)

  predicate Enabled(s: State, step: Step) {
    match step
    case Spawn(pid, start) => pid !in s.alive && (pid, start) !in s.used
    case Die(pid) => pid in s.alive
    case Tick(_) => true
    case Call(t, _) => t !in s.pcs
    case FirstStart(t, readable) => t in s.pcs && s.pcs[t].Began? && (readable ==> s.pcs[t].pid in s.alive)
    case Lookup(t) => t in s.pcs && s.pcs[t].HaveStart?
    case ReadCgroup(t, answer, failed) =>
      t in s.pcs && s.pcs[t].Missed? && (!failed && answer.Some? ==> s.pcs[t].pid in s.alive)
    case SecondStart(t, readable) => t in s.pcs && s.pcs[t].Resolved? && (readable ==> s.pcs[t].pid in s.alive)
    case Store(t) => t in s.pcs && s.pcs[t].Confirmed?
  }

  function First(s: State, t: nat): Start {
    if t in s.firsts then s.firsts[t] else 0
  }

  function Finish(s: State, t: nat, e: Event): State {
    s.(pcs := s.pcs - {t}, log := s.log + [e])
  }

  function Do(s: State, step: Step, ttl: nat): State
    requires Enabled(s, step)
  {
    Act(s, step, ttl).(steps := s.steps + 1)
  }

  function Act(s: State, step: Step, ttl: nat): State
    requires Enabled(s, step)
  {
    match step
    case Spawn(pid, start) => s.(alive := s.alive[pid := start], used := s.used + {(pid, start)})
    case Die(pid) => s.(alive := s.alive - {pid})
    case Tick(elapsed) => s.(now := s.now + elapsed)
    case Call(t, pid) => s.(pcs := s.pcs[t := Began(pid)])
    case FirstStart(t, readable) =>
      var pid := s.pcs[t].pid;
      if readable then
        s.(pcs := s.pcs[t := HaveStart(pid, s.alive[pid], s.steps)],
           firsts := s.firsts[t := s.alive[pid]],
           starts := s.starts + {StartRead(t, pid, s.alive[pid], s.steps)})
      else Finish(s, t, Nothing(pid))
    case Lookup(t) =>
      var HaveStart(pid, start, begun) := s.pcs[t];
      var s' := s.(cache := s.cache.Touch(pid));
      (match s.cache.Lookup(pid)
       case Some(e) =>
         if e.start == start && s.now - e.at < ttl then Finish(s', t, Hit(t, pid, First(s, t), begun, e, s.now))
         else s'.(pcs := s.pcs[t := Missed(pid, start, begun)])
       case None => s'.(pcs := s.pcs[t := Missed(pid, start, begun)]))
    case ReadCgroup(t, answer, failed) =>
      var Missed(pid, start, begun) := s.pcs[t];
      if failed then Finish(s, t, Nothing(pid))
      else if pid in s.alive then
        s.(pcs := s.pcs[t := Resolved(pid, start, begun, answer, Some(s.alive[pid]), s.steps)],
           files := s.files + {FileRead(t, pid, s.alive[pid], answer, s.steps)})
      else
        s.(pcs := s.pcs[t := Resolved(pid, start, begun, answer, None, s.steps)])
    case SecondStart(t, readable) =>
      var Resolved(pid, start, begun, answer, _, read) := s.pcs[t];
      var s' := if readable then s.(starts := s.starts + {StartRead(t, pid, s.alive[pid], s.steps)}) else s;
      if readable && s.alive[pid] == start then
        s'.(pcs := s.pcs[t := Confirmed(pid, start, begun, answer, read, s.steps)])
      else Finish(s', t, Nothing(pid))
    case Store(t) =>
      var Confirmed(pid, start, begun, answer, read, confirmed) := s.pcs[t];
      var e := Entry(start, answer, s.now, FileRead(t, pid, start, answer, read));
      Finish(s.(cache := s.cache.Put(pid, e), stores := s.stores + {Stored(pid, e)}), t,
        Fresh(t, pid, First(s, t), begun, answer, read, confirmed))
  }

  ghost predicate Schedule(s: State, steps: seq<Step>, ttl: nat)
    decreases |steps|
  {
    steps == [] || (Enabled(s, steps[0]) && Schedule(Do(s, steps[0], ttl), steps[1..], ttl))
  }

  ghost function Run(s: State, steps: seq<Step>, ttl: nat): State
    requires Schedule(s, steps, ttl)
    decreases |steps|
  {
    if steps == [] then s else Run(Do(s, steps[0], ttl), steps[1..], ttl)
  }

  // ---- The invariant ----

  // What a call has read so far, and when.  An incarnation that was alive once and is
  // not now never comes back, so a file read from another cannot be confirmed.
  ghost predicate PcRight(s: State, t: nat, pc: Pc) {
    pc.Began? ||
    (&& First(s, t) == pc.start
     && (pc.pid, pc.start) in s.used
     && pc.begun < s.steps && StartRead(t, pc.pid, pc.start, pc.begun) in s.starts
     && (pc.Resolved? ==>
           && pc.begun < pc.read < s.steps
           && (pc.source == Some(pc.start) ==> FileRead(t, pc.pid, pc.start, pc.answer, pc.read) in s.files)
           && (pc.source != Some(pc.start) ==> !(pc.pid in s.alive && s.alive[pc.pid] == pc.start)))
     && (pc.Confirmed? ==>
           && pc.begun < pc.read < pc.confirmed
           && FileRead(t, pc.pid, pc.start, pc.answer, pc.read) in s.files
           && StartRead(t, pc.pid, pc.start, pc.confirmed) in s.starts))
  }

  // An entry holds what some call read from that very incarnation.
  ghost predicate StoredRight(s: State, pid: Pid, e: Entry) {
    && e.origin in s.files && e.origin.pid == pid && e.origin.start == e.start && e.origin.answer == e.answer
    && Stored(pid, e) in s.stores
    && e.at <= s.now
  }

  ghost predicate EventRight(s: State, e: Event, ttl: nat) {
    match e
    case Fresh(t, pid, first, begun, answer, read, confirmed) =>
      && begun < read < confirmed
      && StartRead(t, pid, first, begun) in s.starts
      && FileRead(t, pid, first, answer, read) in s.files
      && StartRead(t, pid, first, confirmed) in s.starts
    case Hit(t, pid, first, begun, entry, now) =>
      && StartRead(t, pid, first, begun) in s.starts
      && entry.start == first
      && entry.origin in s.files && entry.origin.pid == pid && entry.origin.start == first && entry.origin.answer == entry.answer
      && Stored(pid, entry) in s.stores
      && entry.at <= now < entry.at + ttl
    case Nothing(_) => true
  }

  ghost predicate Inv(s: State, ttl: nat) {
    && s.cache.Valid()
    && (forall pid :: pid in s.alive ==> (pid, s.alive[pid]) in s.used)
    && (forall t :: t in s.pcs ==> PcRight(s, t, s.pcs[t]))
    && (forall pid :: pid in s.cache.table ==> StoredRight(s, pid, s.cache.table[pid]))
    && (forall e :: e in s.log ==> EventRight(s, e, ttl))
  }

  // A step forgets nothing, goes forward in time, and revives no incarnation.
  ghost predicate Grows(s: State, s': State) {
    && s.steps <= s'.steps && s.now <= s'.now
    && s.used <= s'.used && s.starts <= s'.starts && s.files <= s'.files && s.stores <= s'.stores
    && (forall pid :: pid in s'.alive ==>
          (pid in s.alive && s.alive[pid] == s'.alive[pid]) || (pid, s'.alive[pid]) !in s.used)
  }

  lemma PcGrows(s: State, s': State, t: nat, pc: Pc)
    requires PcRight(s, t, pc) && Grows(s, s') && First(s', t) == First(s, t)
    ensures PcRight(s', t, pc)
  {
  }

  lemma StoredGrows(s: State, s': State, pid: Pid, e: Entry)
    requires StoredRight(s, pid, e) && Grows(s, s')
    ensures StoredRight(s', pid, e)
  {
  }

  lemma EventGrows(s: State, s': State, e: Event, ttl: nat)
    requires EventRight(s, e, ttl) && Grows(s, s')
    ensures EventRight(s', e, ttl)
  {
  }

  // What a step of call `t` leaves of the invariant to show: its own new place, its own
  // new event, and the cache it wrote.
  lemma Rest(s: State, s': State, t: nat, ttl: nat)
    requires Inv(s, ttl) && Grows(s, s') && s'.cache.Valid()
    requires forall pid :: pid in s'.alive ==> (pid, s'.alive[pid]) in s'.used
    requires forall u :: u in s'.pcs && u != t ==> u in s.pcs && s'.pcs[u] == s.pcs[u] && First(s', u) == First(s, u)
    requires t in s'.pcs ==> PcRight(s', t, s'.pcs[t])
    requires forall pid :: pid in s'.cache.table ==>
      (pid in s.cache.table && s'.cache.table[pid] == s.cache.table[pid]) || StoredRight(s', pid, s'.cache.table[pid])
    requires forall e :: e in s'.log ==> e in s.log || EventRight(s', e, ttl)
    ensures Inv(s', ttl)
  {
    forall u | u in s'.pcs ensures PcRight(s', u, s'.pcs[u]) {
      if u != t { PcGrows(s, s', u, s.pcs[u]); }
    }
    forall pid | pid in s'.cache.table ensures StoredRight(s', pid, s'.cache.table[pid]) {
      if pid in s.cache.table { StoredGrows(s, s', pid, s.cache.table[pid]); }
    }
    forall e | e in s'.log ensures EventRight(s', e, ttl) {
      if e in s.log { EventGrows(s, s', e, ttl); }
    }
  }

  lemma LookupKeepsInv(s: State, t: nat, ttl: nat)
    requires Inv(s, ttl) && Enabled(s, Lookup(t))
    ensures Inv(Do(s, Lookup(t), ttl), ttl)
  {
    var pid := s.pcs[t].pid;
    TouchKeeps(s.cache, pid);
    assert PcRight(s, t, s.pcs[t]);
    if Usable(s, s.pcs[t], ttl) {
      HitKeepsInv(s, t, ttl);
    } else {
      var s1 := s.(cache := s.cache.Touch(pid), steps := s.steps + 1);
      Rest(s, s1.(pcs := s.pcs[t := Missed(pid, s.pcs[t].start, s.pcs[t].begun)]), t, ttl);
    }
  }

  // The cache holds an answer for that start time, young enough to use.
  predicate Usable(s: State, pc: Pc, ttl: nat)
    requires pc.HaveStart?
  {
    pc.pid in s.cache.table && s.cache.table[pc.pid].start == pc.start && s.now - s.cache.table[pc.pid].at < ttl
  }

  lemma HitKeepsInv(s: State, t: nat, ttl: nat)
    requires Inv(s, ttl) && Enabled(s, Lookup(t)) && Usable(s, s.pcs[t], ttl) && PcRight(s, t, s.pcs[t])
    ensures Inv(Do(s, Lookup(t), ttl), ttl)
  {
    var HaveStart(pid, start, begun) := s.pcs[t];
    var e := s.cache.table[pid];
    var hit := Hit(t, pid, start, begun, e, s.now);
    TouchKeeps(s.cache, pid);
    assert StoredRight(s, pid, e);
    assert EventRight(s, hit, ttl);
    var s' := Do(s, Lookup(t), ttl);
    assert s'.log == s.log + [hit] && s'.pcs == s.pcs - {t};
    Rest(s, s', t, ttl);
  }

  lemma StoreKeepsInv(s: State, t: nat, ttl: nat)
    requires Inv(s, ttl) && Enabled(s, Store(t))
    ensures Inv(Do(s, Store(t), ttl), ttl)
  {
    var s' := Do(s, Store(t), ttl);
    var Confirmed(pid, start, _, answer, read, _) := s.pcs[t];
    assert PcRight(s, t, s.pcs[t]);
    PutKeeps(s.cache, pid, Entry(start, answer, s.now, FileRead(t, pid, start, answer, read)));
    Rest(s, s', t, ttl);
  }

  // The procfs reads of a call, and its beginning.
  lemma ReadKeepsInv(s: State, step: Step, ttl: nat)
    requires Inv(s, ttl) && Enabled(s, step)
    requires step.Call? || step.FirstStart? || step.ReadCgroup? || step.SecondStart?
    ensures Inv(Do(s, step, ttl), ttl)
  {
    if step.t in s.pcs { assert PcRight(s, step.t, s.pcs[step.t]); }
    Rest(s, Do(s, step, ttl), step.t, ttl);
  }

  // Processes come and go, and time passes.
  lemma WorldKeepsInv(s: State, step: Step, ttl: nat)
    requires Inv(s, ttl) && Enabled(s, step) && (step.Spawn? || step.Die? || step.Tick?)
    ensures Inv(Do(s, step, ttl), ttl)
  {
    var s' := Do(s, step, ttl);
    if t :| t in s'.pcs {
      PcGrows(s, s', t, s.pcs[t]);
      Rest(s, s', t, ttl);
    } else {
      Rest(s, s', 0, ttl);
    }
  }

  lemma OtherKeepsInv(s: State, step: Step, ttl: nat)
    requires Inv(s, ttl) && Enabled(s, step) && !step.Lookup? && !step.Store?
    ensures Inv(Do(s, step, ttl), ttl)
  {
    if step.Spawn? || step.Die? || step.Tick? {
      WorldKeepsInv(s, step, ttl);
    } else {
      ReadKeepsInv(s, step, ttl);
    }
  }

  lemma {:induction false} RunKeepsInv(s: State, steps: seq<Step>, ttl: nat)
    requires Inv(s, ttl) && Schedule(s, steps, ttl)
    ensures Inv(Run(s, steps, ttl), ttl)
    decreases |steps|
  {
    if steps != [] {
      if steps[0].Lookup? {
        LookupKeepsInv(s, steps[0].t, ttl);
      } else if steps[0].Store? {
        StoreKeepsInv(s, steps[0].t, ttl);
      } else {
        OtherKeepsInv(s, steps[0], ttl);
      }
      RunKeepsInv(Do(s, steps[0], ttl), steps[1..], ttl);
    }
  }

  // Over every run.  An answer a call read itself was read from the very incarnation
  // whose start time that call read first, and between its reading that start time
  // and reading it again.  An answer out of the cache was read by some call from that
  // same incarnation, and stored under its start time less than `ttl` before.
  lemma AnswersFromFirstIncarnation(capacity: nat, steps: seq<Step>, ttl: nat)
    requires Schedule(Initial(capacity), steps, ttl)
    ensures var s := Run(Initial(capacity), steps, ttl);
      && (forall e :: e in s.log && e.Fresh? ==>
            && e.begun < e.read < e.confirmed
            && StartRead(e.t, e.pid, e.first, e.begun) in s.starts
            && FileRead(e.t, e.pid, e.first, e.answer, e.read) in s.files
            && StartRead(e.t, e.pid, e.first, e.confirmed) in s.starts)
      && (forall e :: e in s.log && e.Hit? ==>
            && StartRead(e.t, e.pid, e.first, e.begun) in s.starts
            && e.entry.origin in s.files && e.entry.origin.pid == e.pid && e.entry.origin.start == e.first
            && e.entry.origin.answer == e.entry.answer
            && e.entry.start == e.first && Stored(e.pid, e.entry) in s.stores
            && e.entry.at <= e.now < e.entry.at + ttl)
      && |s.cache.table| <= if capacity == 0 then 1 else capacity
  {
    RunKeepsInv(Initial(capacity), steps, ttl);
    CapacityFixed(Initial(capacity), steps, ttl);
    var s := Run(Initial(capacity), steps, ttl);
    forall e | e in s.log ensures EventRight(s, e, ttl) {}
    NoDupSize(s.cache.order);
    assert |s.cache.table.Keys| == |s.cache.order|;
  }

  lemma {:induction false} CapacityFixed(s: State, steps: seq<Step>, ttl: nat)
    requires Schedule(s, steps, ttl)
    ensures Run(s, steps, ttl).cache.capacity == s.cache.capacity
    decreases |steps|
  {
    if steps != [] { CapacityFixed(Do(s, steps[0], ttl), steps[1..], ttl); }
  }
}
