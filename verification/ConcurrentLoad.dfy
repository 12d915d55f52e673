// Reading documents while other threads intern names of their own.
module ConcurrentLoad {
  import opened Common
  import opened NameTable
  import opened RuleDoc

  // `id` is an answer the table has given for `name`.
  predicate Given(log: seq<Event>, name: Option<string>, id: nat) {
    name.Some? ==> Interned(name.value, id) in log
  }

  // A thread has interned every name of the document, at any points of the run, and
  // got these ids.
  predicate ReadWith(log: seq<Event>, doc: Json, ids: Ids) {
    && Given(log, Text(doc, Type), ids.typeName)
    && Given(log, Text(doc, Ioclass), ids.ioclass)
    && Given(log, Text(doc, Sched), ids.sched)
    && Given(log, Text(doc, Cgroup), ids.cgroup)
    && Given(log, Text(doc, Cpuset), ids.cpuset)
  }

  lemma GivenIsAnswered(s: State, name: Option<string>, id: nat)
    requires Inv(s) && Given(s.log, name, id)
    ensures Answered(s.values, name, id)
    ensures name.Some? && |s.values| < CAPACITY ==> name.value in s.values
  {
    if name.Some? { assert EventRight(s.values, Interned(name.value, id)); }
  }

  lemma ReadIsAnswered(s: State, doc: Json, ids: Ids)
    requires Inv(s) && ReadWith(s.log, doc, ids)
    ensures AllAnswered(s.values, doc, ids)
    ensures |s.values| < CAPACITY ==> Recorded(s.values, doc)
  {
    GivenIsAnswered(s, Text(doc, Type), ids.typeName);
    GivenIsAnswered(s, Text(doc, Ioclass), ids.ioclass);
    GivenIsAnswered(s, Text(doc, Sched), ids.sched);
    GivenIsAnswered(s, Text(doc, Cgroup), ids.cgroup);
    GivenIsAnswered(s, Text(doc, Cpuset), ids.cpuset);
  }

  // In every interleaving, a record built from the answers of a run reads, then and
  // in every later state, as its document: exactly as if the reader had been alone,
  // with the same names lost if the table is full.
  lemma InterleavedRecordReads(before: seq<(nat, Step)>, after: seq<(nat, Step)>, doc: Json, ids: Ids)
    requires Schedule(INITIAL, before) && Schedule(Run(INITIAL, before), after)
    requires ReadWith(Run(INITIAL, before).log, doc, ids)
    ensures var s := Run(Run(INITIAL, before), after);
      && Formed(s.values, RecordOf(doc, ids))
      && ViewOf(s.values, RecordOf(doc, ids)) == Seen(s.values, DocView(doc))
      && (|s.values| < CAPACITY ==> ViewOf(s.values, RecordOf(doc, ids)) == DocView(doc))
  {
    RunKeepsInv(INITIAL, before);
    RunKeepsInv(Run(INITIAL, before), after);
    var s := Run(Run(INITIAL, before), after);
    LogKept(Run(INITIAL, before).log, s.log, doc, ids);
    ReadIsAnswered(s, doc, ids);
    RecordRight(s.values, doc, ids);
    SeenIsRecorded(s.values, doc);
  }

  lemma LogKept(log: seq<Event>, later: seq<Event>, doc: Json, ids: Ids)
    requires log <= later && ReadWith(log, doc, ids)
    ensures ReadWith(later, doc, ids)
  {
    assert forall e :: e in log ==> e in later;
  }

  lemma SameAnswer(steps: seq<(nat, Step)>, name: Option<string>, id: nat, id': nat)
    requires Schedule(INITIAL, steps)
    requires Given(Run(INITIAL, steps).log, name, id) && Given(Run(INITIAL, steps).log, name, id')
    ensures name.Some? ==> id == id'
  {
    if name.Some? { IdsAreForever(steps, [], name.value, id); }
  }

  // Two threads that read one document, however they interleave, build one record.
  lemma OneRecordPerDocument(steps: seq<(nat, Step)>, doc: Json, mine: Ids, yours: Ids)
    requires Schedule(INITIAL, steps)
    requires ReadWith(Run(INITIAL, steps).log, doc, mine) && ReadWith(Run(INITIAL, steps).log, doc, yours)
    ensures RecordOf(doc, mine) == RecordOf(doc, yours)
  {
    SameAnswer(steps, Text(doc, Type), mine.typeName, yours.typeName);
    SameAnswer(steps, Text(doc, Ioclass), mine.ioclass, yours.ioclass);
    SameAnswer(steps, Text(doc, Sched), mine.sched, yours.sched);
    SameAnswer(steps, Text(doc, Cgroup), mine.cgroup, yours.cgroup);
    SameAnswer(steps, Text(doc, Cpuset), mine.cpuset, yours.cpuset);
  }
}
