// One process of the work loop: from a name, through the rules of a snapshot, to the
// calls made for it.
module WorkLoop {
  import opened Common
  import opened NameTable
  import opened RuleDoc
  import opened RuleLookup
  import opened RuleLines
  import opened RuleStore
  import opened Worker

  // What was received about a process.
  datatype Process = Process(pid: int, name: string, authoritative: bool)

  // The name it was received under, unless the platform knows a fuller one.
  function ProcessName(p: Process, full: string): string {
    if p.authoritative || full == "" || full == "<unknown>" then p.name else full
  }

  // A name that is known for sure stays; otherwise the platform's replaces it, unless the
  // platform has none.
  lemma FullerNameWins(p: Process, full: string)
    ensures p.authoritative ==> ProcessName(p, full) == p.name
    ensures ProcessName(p, "") == ProcessName(p, "<unknown>") == p.name
    ensures !p.authoritative && full != "" && full != "<unknown>" ==> ProcessName(p, full) == full
  {
  }

  // What the accessors of the rule that answers for a name report.
  ghost function Found(store: Rules, name: string): Option<Settings>
    reads store, store.names
  {
    match Answer(store.Set(), store.engine.isMatch, name)
    case None => None
    case Some((_, rule)) => Some(Reported(store.names.values, rule))
  }

  function Reported(values: seq<string>, rule: Rule): Settings { Report(ViewOf(values, rule)) }

  // Pid 0 is ignored, a process no rule answers for is left alone, and any other is
  // given its rule.  The platform counts as affected exactly on cgroup v2, so there a
  // realtime process is never moved while the workaround is on.
  method HandleProcess(platform: Platform, store: Rules, p: Process, full: string, cfg: Config,
                       aliases: map<string, string>, isRealtime: bool)
    returns (verdict: Option<Verdict>, ghost calls: seq<Call>)
    requires store.Valid() && store.CacheRight()
    modifies platform, store`cache, store`poisoned
    ensures store.Valid() && store.CacheRight()
    ensures platform.calls == old(platform.calls) + calls
    ensures verdict == None <==> p.pid == 0 || Found(store, LookupName(ProcessName(p, full))) == None
    ensures verdict == None ==> calls == []
    ensures verdict.Some? ==>
      var rule := Found(store, LookupName(ProcessName(p, full))).value;
      Made(Job(rule, cfg, aliases, isRealtime, platform.cgroupV2, platform.cgroupV2, platform.maxCores), p.pid, calls, verdict.value)
  {
    var affected := platform.cgroupV2;
    if p.pid == 0 {
      return None, [];
    }
    var found := store.GetRule(LookupName(ProcessName(p, full)));
    if found == None {
      return None, [];
    }
    var rule := Reported(store.names.values, found.value.1);
    ghost var events;
    var v;
    v, events := ApplyRule(platform, p.pid, rule, cfg, aliases, isRealtime, affected);
    RunMade(p.pid, Job(rule, cfg, aliases, isRealtime, affected, platform.cgroupV2, platform.maxCores), events);
    verdict, calls := Some(v), CallsOf(p.pid, events);
  }

  // Which settings that is, said of the rule lines alone: none exactly when no line's
  // rule owns the name, and otherwise, while the name table has room, the merge of the
  // owner's last definition onto the last definition of its type.
  lemma SettingsFollowTheLines(store: Rules, docs: seq<Option<Json>>, name: string)
    requires store.Valid() && store.HoldsResolved(LoadDocs(store.engine, NO_DOCS, docs))
    ensures Found(store, name) == None <==> forall n :: !Owns(store.engine, docs, name, n)
    ensures Found(store, name).Some? && |store.names.values| < CAPACITY ==>
      exists n, i :: Owns(store.engine, docs, name, n) && IsLastDefinition(docs, i, n) && IsMergeAt(docs, i, Found(store, name).value)
  {
    LookupAfterLoad(store, docs, name);
    var a := Answer(store.Set(), store.engine.isMatch, name);
    if a.Some? {
      assert Owns(store.engine, docs, name, a.value.0);
    }
  }

  // So the calls made for a process are those its rule lines want: with nothing but
  // the lines, the configuration, the aliases and the platform's facts, however the
  // calls themselves end.
  lemma CallsFollowTheLines(store: Rules, docs: seq<Option<Json>>, p: Process, full: string, cfg: Config,
                            aliases: map<string, string>, isRealtime: bool, cgroupV2: bool, maxCores: nat,
                            calls: seq<Call>, verdict: Verdict)
    requires store.Valid() && store.HoldsResolved(LoadDocs(store.engine, NO_DOCS, docs)) && |store.names.values| < CAPACITY
    requires Found(store, LookupName(ProcessName(p, full))).Some?
    requires Made(Job(Found(store, LookupName(ProcessName(p, full))).value, cfg, aliases, isRealtime, cgroupV2, cgroupV2, maxCores),
                  p.pid, calls, verdict)
    ensures exists n, i, rule ::
      && Owns(store.engine, docs, LookupName(ProcessName(p, full)), n)
      && IsLastDefinition(docs, i, n) && IsMergeAt(docs, i, rule)
      && CallAttempts(calls) == AttemptsOf(Plan(Job(rule, cfg, aliases, isRealtime, cgroupV2, cgroupV2, maxCores)))
  {
    SettingsFollowTheLines(store, docs, LookupName(ProcessName(p, full)));
  }
}
