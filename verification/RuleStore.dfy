// The rule store as it is kept: records in a vector, names to indices, and a cache of
// resolved names, loaded line by line and read by the workers.
module RuleStore {
  import opened Common
  import opened Lru
  import opened NameTable
  import opened RuleDoc
  import opened RuleLookup
  import opened RuleLines
  import T = Text

  const EMPTY_RULE := Rule(0, Absent, Absent, 0, Absent, 0, Absent, Absent, 0, 0, map[])
  const CACHE_CAPACITY: nat := 5000
  const MAX_CACHEABLE_NAME: nat := 256

  function Viewer(values: seq<string>): Rule -> View { (r: Rule) => ViewOf(values, r) }
  function Checker(values: seq<string>): Rule -> bool { (r: Rule) => Formed(values, r) }

  lemma ViewsGrow(before: seq<string>, after: seq<string>, programs: map<string, nat>, rules: seq<Rule>)
    requires before <= after && InRange(programs, rules) && AllRules(rules, Checker(before))
    ensures AllRules(rules, Checker(after))
    ensures MapRules(programs, rules, Viewer(after)) == MapRules(programs, rules, Viewer(before))
  {
    forall i | 0 <= i < |rules| ensures Checker(after)(rules[i]) && Viewer(after)(rules[i]) == Viewer(before)(rules[i]) {
      assert Checker(before)(rules[i]);
      ViewGrows(before, after, rules[i]);
    }
    SameMaps(programs, rules, Viewer(after), Viewer(before));
  }

  // ---- What a store shows of its documents ----

  // `shown` is `views` as far as the table holds their names, and exactly `views`
  // while the table has room.
  ghost predicate Shows(values: seq<string>, shown: map<string, View>, views: map<string, View>) {
    shown == SeenAll(values, views) && (|values| < CAPACITY ==> shown == views)
  }

  lemma ShowsGrows(values: seq<string>, later: seq<string>, shown: map<string, View>, views: map<string, View>)
    requires Shows(values, shown, views) && values <= later && |later| <= CAPACITY
    ensures Shows(later, shown, views)
  {
    if |values| < CAPACITY {
      forall n | n in views ensures Seen(later, views[n]) == views[n] {
        assert SeenAll(values, views)[n] == views[n];
        SeenGrows(values, later, views[n]);
      }
    } else {
      assert later == values;
    }
  }

  lemma ShowsDefine(values: seq<string>, shown: map<string, View>, views: map<string, View>, name: string, doc: Json)
    requires Shows(values, shown, views) && (|values| < CAPACITY ==> Recorded(values, doc))
    ensures Shows(values, shown[name := Seen(values, DocView(doc))], views[name := DocView(doc)])
  {
    SeenIsRecorded(values, doc);
    var views' := views[name := DocView(doc)];
    assert SeenAll(values, views') == SeenAll(values, views)[name := Seen(values, DocView(doc))];
  }

  lemma UnresolvedDefine(e: Engine, d: Docs, doc: Json)
    ensures Unresolved(DefineDoc(e, d, doc)) ==
      if Text(doc, Name).Some? then Unresolved(d)[Text(doc, Name).value := DocView(doc)] else Unresolved(d)
  {
  }

  // ---- Storing one document ----

  lemma FromJsonStored(values: seq<string>, programs: map<string, nat>, rules: seq<Rule>, doc: Json)
    requires NoDup(values) && |values| <= CAPACITY && InRange(programs, rules) && AllRules(rules, Checker(values))
    ensures var l := FromJson(values, doc);
      && values <= l.values && NoDup(l.values) && |l.values| <= CAPACITY
      && AllRules(rules, Checker(l.values)) && Checker(l.values)(l.rule) && Checker(l.values)(EMPTY_RULE)
      && Viewer(l.values)(l.rule) == Seen(l.values, DocView(doc))
      && MapRules(programs, rules, Viewer(l.values)) == MapRules(programs, rules, Viewer(values))
      && (|l.values| < CAPACITY ==> Recorded(l.values, doc))
  {
    FromJsonView(values, doc);
    ViewsGrow(values, FromJson(values, doc).values, programs, rules);
  }

  // One definition.  Indices stay in range and the vector grows by at most one; and
  // as long as it fits 32-bit indices, the names stay a bijection and the store
  // shows the old documents with this one under its name.
  method BuildRecord(values: seq<string>, programs: map<string, nat>, rules: seq<Rule>, name: string, doc: Json,
                     ghost views: map<string, View>)
    returns (values': seq<string>, programs': map<string, nat>, rules': seq<Rule>)
    requires NoDup(values) && |values| <= CAPACITY
    requires InRange(programs, rules) && (|rules| <= MAX_INDEX ==> Bijective(programs, rules))
    requires AllRules(rules, Checker(values))
    ensures values <= values' && NoDup(values') && |values'| <= CAPACITY
    ensures InRange(programs', rules') && AllRules(rules', Checker(values'))
    ensures programs'.Keys == programs.Keys + {name} && |rules'| == |rules| + if name in programs then 0 else 1
    ensures |rules'| <= MAX_INDEX ==> Bijective(programs', rules')
    ensures |rules'| <= MAX_INDEX && Shows(values, MapRules(programs, rules, Viewer(values)), views) ==>
      Shows(values', MapRules(programs', rules', Viewer(values')), views[name := DocView(doc)])
  {
    FromJsonStored(values, programs, rules, doc);
    var loaded := FromJson(values, doc);
    values' := loaded.values;
    var (p, r) := Define(programs, rules, name, loaded.rule, EMPTY_RULE);
    programs', rules' := p, r;
    DefinedRules(programs, rules, name, loaded.rule, EMPTY_RULE, Checker(values'));
    if |rules'| <= MAX_INDEX {
      DefineMaps(programs, rules, name, loaded.rule, EMPTY_RULE, Viewer(values'));
      ghost var shown := MapRules(programs, rules, Viewer(values));
      if Shows(values, shown, views) {
        ShowsGrows(values, values', shown, views);
        ShowsDefine(values', shown, views, name, doc);
      }
    }
  }

  // ---- Inheritance, record by record ----

  // A base reads as its type's document, as far as the table holds its names, less
  // the type's own `type` key.
  ghost predicate BaseRight(values: seq<string>, doc: Json, base: Rule) {
    && Formed(values, base)
    && ViewOf(values, base) == Seen(values, DocView(doc)).(typeName := None)
    && (|values| < CAPACITY ==> Recorded(values, doc))
  }

  ghost predicate BasesRight(values: seq<string>, types: map<string, Json>, bases: map<string, Rule>) {
    bases.Keys <= types.Keys && forall t :: t in bases ==> BaseRight(values, types[t], bases[t])
  }

  function InheritOne(values: seq<string>, bases: map<string, Rule>, r: Rule): Rule {
    match TypeView(values, r.typeName)
    case Some(t) => if t in bases then Inherit(r, bases[t]) else r
    case None => r
  }

  lemma OneInherits(values: seq<string>, types: map<string, Json>, bases: map<string, Rule>, r: Rule)
    requires Formed(values, r) && BasesRight(values, types, bases) && bases.Keys == types.Keys
    ensures Formed(values, InheritOne(values, bases, r))
    ensures ViewOf(values, InheritOne(values, bases, r)) == ResolveIn(values, types, ViewOf(values, r))
  {
    match TypeView(values, r.typeName)
    case Some(t) =>
      if t in bases {
        assert BaseRight(values, types[t], bases[t]);
        InheritForms(values, r, bases[t]);
      }
    case None =>
  }

  lemma BaseGrows(values: seq<string>, later: seq<string>, doc: Json, base: Rule)
    requires BaseRight(values, doc, base) && values <= later && |later| <= CAPACITY
    ensures BaseRight(later, doc, base)
  {
    ViewGrows(values, later, base);
    if |values| < CAPACITY {
      SeenIsRecorded(values, doc);
      SeenGrows(values, later, DocView(doc));
    } else {
      assert later == values;
    }
  }

  lemma BaseBuilt(values: seq<string>, doc: Json)
    requires NoDup(values) && |values| <= CAPACITY
    ensures var l := FromJson(values, doc);
      && values <= l.values && NoDup(l.values) && |l.values| <= CAPACITY
      && BaseRight(l.values, doc, l.rule.(typeName := 0))
  {
    FromJsonView(values, doc);
  }

  method BuildBases(values: seq<string>, types: map<string, Json>)
    returns (values': seq<string>, bases: map<string, Rule>)
    requires NoDup(values) && |values| <= CAPACITY
    ensures values <= values' && NoDup(values') && |values'| <= CAPACITY
    ensures bases.Keys == types.Keys && BasesRight(values', types, bases)
  {
    values', bases := values, map[];
    var todo := types.Keys;
    while todo != {}
      invariant todo <= types.Keys && bases.Keys == types.Keys - todo
      invariant values <= values' && NoDup(values') && |values'| <= CAPACITY
      invariant BasesRight(values', types, bases)
      decreases |todo|
    {
      var t :| t in todo;
      var loaded := FromJson(values', types[t]);
      BaseBuilt(values', types[t]);
      forall u | u in bases ensures BaseRight(loaded.values, types[u], bases[u]) {
        BaseGrows(values', loaded.values, types[u], bases[u]);
      }
      bases := bases[t := loaded.rule.(typeName := 0)];
      values' := loaded.values;
      todo := todo - {t};
    }
  }

  method InheritAll(values: seq<string>, bases: map<string, Rule>, rules: seq<Rule>) returns (rules': seq<Rule>)
    ensures |rules'| == |rules| && forall i :: 0 <= i < |rules| ==> rules'[i] == InheritOne(values, bases, rules[i])
  {
    rules' := rules;
    var i := 0;
    while i < |rules|
      invariant 0 <= i <= |rules| == |rules'|
      invariant forall k :: 0 <= k < i ==> rules'[k] == InheritOne(values, bases, rules[k])
      invariant forall k :: i <= k < |rules| ==> rules'[k] == rules[k]
    {
      rules' := rules'[i := InheritOne(values, bases, rules'[i])];
      i := i + 1;
    }
  }

  lemma InheritViews(values: seq<string>, types: map<string, Json>, bases: map<string, Rule>,
                     programs: map<string, nat>, rules: seq<Rule>, rules': seq<Rule>)
    requires InRange(programs, rules) && AllRules(rules, Checker(values))
    requires BasesRight(values, types, bases) && bases.Keys == types.Keys
    requires |rules'| == |rules| && forall i :: 0 <= i < |rules| ==> rules'[i] == InheritOne(values, bases, rules[i])
    ensures InRange(programs, rules') && AllRules(rules', Checker(values))
    ensures forall n :: n in programs ==>
      MapRules(programs, rules', Viewer(values))[n] == ResolveIn(values, types, MapRules(programs, rules, Viewer(values))[n])
  {
    forall i | 0 <= i < |rules|
      ensures Checker(values)(rules'[i])
      ensures Viewer(values)(rules'[i]) == ResolveIn(values, types, Viewer(values)(rules[i]))
    {
      assert Checker(values)(rules[i]);
      OneInherits(values, types, bases, rules[i]);
    }
  }

  // With every name in the table, resolving in it is resolving outright.
  lemma ResolveWhole(values: seq<string>, d: Docs, doc: Json)
    requires Seen(values, DocView(doc)) == DocView(doc)
    requires forall t :: t in d.types ==> Recorded(values, d.types[t])
    ensures ResolveIn(values, d.types, DocView(doc)) == ResolvedView(d, doc)
  {
    match TypeDoc(d, doc)
    case Some(base) => SeenIsRecorded(values, base);
    case None =>
  }

  ghost predicate ShowsResolved(values: seq<string>, shown: map<string, View>, d: Docs) {
    shown == ResolvedIn(values, d) && (|values| < CAPACITY ==> shown == Resolved(d))
  }

  lemma ResolvedShown(values: seq<string>, d: Docs, before: map<string, View>, after: map<string, View>)
    requires Shows(values, before, Unresolved(d)) && after.Keys == before.Keys
    requires forall n :: n in before ==> after[n] == ResolveIn(values, d.types, before[n])
    requires |values| < CAPACITY ==> forall t :: t in d.types ==> Recorded(values, d.types[t])
    ensures ShowsResolved(values, after, d)
  {
    ProgramKeys(values, d);
    forall n | n in after ensures after[n] == ResolvedIn(values, d)[n] { OneSeen(values, d, before, n); }
    SameMap(after, ResolvedIn(values, d));
    if |values| < CAPACITY {
      forall n | n in after ensures after[n] == Resolved(d)[n] { OneWhole(values, d, before, n); }
      SameMap(after, Resolved(d));
    }
  }

  lemma ProgramKeys(values: seq<string>, d: Docs)
    ensures SeenAll(values, Unresolved(d)).Keys == Resolved(d).Keys == ResolvedIn(values, d).Keys == d.programs.Keys
  {
  }

  lemma SameMap<V>(a: map<string, V>, b: map<string, V>)
    requires a.Keys == b.Keys && forall n :: n in a ==> a[n] == b[n]
    ensures a == b
  {
  }

  lemma OneSeen(values: seq<string>, d: Docs, before: map<string, View>, n: string)
    requires before == SeenAll(values, Unresolved(d)) && n in d.programs
    ensures ResolveIn(values, d.types, before[n]) == ResolvedIn(values, d)[n]
  {
    assert before[n] == Seen(values, Unresolved(d)[n]);
  }

  lemma OneWhole(values: seq<string>, d: Docs, before: map<string, View>, n: string)
    requires before == SeenAll(values, Unresolved(d)) == Unresolved(d) && n in d.programs
    requires forall t :: t in d.types ==> Recorded(values, d.types[t])
    ensures ResolveIn(values, d.types, before[n]) == Resolved(d)[n]
  {
    assert before[n] == Unresolved(d)[n] == DocView(d.programs[n]);
    ResolveWhole(values, d, d.programs[n]);
  }

  // Inheriting every record, in the table grown by the types, turns a store that shows
  // the documents into one that shows them resolved.
  lemma InheritedStore(values0: seq<string>, values: seq<string>, bases: map<string, Rule>,
                       programs: map<string, nat>, rules: seq<Rule>, rules': seq<Rule>, d: Docs)
    requires values0 <= values && |values| <= CAPACITY
    requires InRange(programs, rules) && AllRules(rules, Checker(values0))
    requires BasesRight(values, d.types, bases) && bases.Keys == d.types.Keys
    requires |rules'| == |rules| && forall i :: 0 <= i < |rules| ==> rules'[i] == InheritOne(values, bases, rules[i])
    requires Shows(values0, MapRules(programs, rules, Viewer(values0)), Unresolved(d))
    ensures InRange(programs, rules')
    ensures ShowsResolved(values, MapRules(programs, rules', Viewer(values)), d)
  {
    var before := MapRules(programs, rules, Viewer(values));
    ViewsGrow(values0, values, programs, rules);
    ShowsGrows(values0, values, before, Unresolved(d));
    InheritViews(values, d.types, bases, programs, rules, rules');
    ResolvedShown(values, d, before, MapRules(programs, rules', Viewer(values)));
  }

  // What inheriting keeps of the records themselves.
  lemma InheritedRules(values0: seq<string>, values: seq<string>, types: map<string, Json>, bases: map<string, Rule>,
                       programs: map<string, nat>, rules: seq<Rule>, rules': seq<Rule>)
    requires values0 <= values && InRange(programs, rules) && AllRules(rules, Checker(values0))
    requires BasesRight(values, types, bases) && bases.Keys == types.Keys
    requires |rules'| == |rules| && forall i :: 0 <= i < |rules| ==> rules'[i] == InheritOne(values, bases, rules[i])
    ensures InRange(programs, rules') && AllRules(rules', Checker(values))
    ensures Bijective(programs, rules) ==> Bijective(programs, rules')
  {
    ViewsGrow(values0, values, programs, rules);
    InheritViews(values, types, bases, programs, rules, rules');
  }

  // Resolves the types once and applies each to the records that name it.
  method InheritRecords(values: seq<string>, types: map<string, Json>, programs: map<string, nat>, rules: seq<Rule>, ghost d: Docs)
    returns (values': seq<string>, rules': seq<Rule>)
    requires NoDup(values) && |values| <= CAPACITY && InRange(programs, rules) && AllRules(rules, Checker(values))
    ensures values <= values' && NoDup(values') && |values'| <= CAPACITY && |rules'| == |rules|
    ensures InRange(programs, rules') && AllRules(rules', Checker(values'))
    ensures Bijective(programs, rules) ==> Bijective(programs, rules')
    ensures types == d.types && Shows(values, MapRules(programs, rules, Viewer(values)), Unresolved(d)) ==>
      ShowsResolved(values', MapRules(programs, rules', Viewer(values')), d)
  {
    var bases;
    values', bases := BuildBases(values, types);
    rules' := InheritAll(values', bases, rules);
    InheritedRules(values, values', types, bases, programs, rules, rules');
    if types == d.types && Shows(values, MapRules(programs, rules, Viewer(values)), Unresolved(d)) {
      InheritedStore(values, values', bases, programs, rules, rules', d);
    }
  }

  // ---- The store ----

  // The process-wide name table, in the order the loading thread appends to it.
  class Names {
    var values: seq<string>

    ghost predicate Valid()
      reads this
    {
      NoDup(values) && |values| <= CAPACITY
    }
  }

  class Rules {
    const engine: Engine
    const names: Names
    var programs: map<string, nat>
    var rules: seq<Rule>
    var types: map<string, Json>
    var cgroups: map<string, Json>
    var matchers: seq<Matcher>
    var cache: Cache<string, Option<string>>
    // The cache's lock; once poisoned by a panic the cache is neither read nor written.
    var poisoned: bool

    ghost predicate Valid()
      reads this, names
    {
      && names.Valid()
      && Sound(Set())
      && AllRules(rules, Checker(names.values))
      && cache.Valid()
      && cache.capacity == CACHE_CAPACITY
      && (forall k :: k in cache.table ==> T.Utf8Len(k) <= MAX_CACHEABLE_NAME)
    }

    function Set(): RuleSet
      reads this
    {
      RuleSet(programs, rules, matchers)
    }

    // What the records read as, by name.
    ghost function Programs(): map<string, View>
      requires InRange(programs, rules)
      reads this, names
    {
      MapRules(programs, rules, Viewer(names.values))
    }

    ghost predicate SameRest(d: Docs)
      reads this
    {
      types == d.types && cgroups == d.cgroups && matchers == d.matchers
    }

    // The store is the documents `d`, as written.
    ghost predicate Holds(d: Docs)
      reads this, names
    {
      InRange(programs, rules) && SameRest(d) && Shows(names.values, Programs(), Unresolved(d))
    }

    // The store is the documents `d`, each rule resolved against its type.
    ghost predicate HoldsResolved(d: Docs)
      reads this, names
    {
      InRange(programs, rules) && SameRest(d) && ShowsResolved(names.values, Programs(), d)
    }

    // Every remembered answer is the one a full lookup would give.
    ghost predicate CacheRight()
      reads this
    {
      !poisoned ==> forall k :: k in cache.table ==> cache.table[k] == BestMatch(Set(), engine.isMatch, k)
    }

    constructor (engine: Engine, names: Names)
      requires names.Valid()
      ensures Valid() && this.engine == engine && this.names == names
      ensures Holds(NO_DOCS) && CacheRight() && rules == []
    {
      this.engine := engine;
      this.names := names;
      programs := map[];
      rules := [];
      types := map[];
      cgroups := map[];
      matchers := [];
      cache := Lru.Empty(CACHE_CAPACITY);
      poisoned := false;
    }

    // Stores one program rule under its name.
    method DefineProgram(doc: Json, name: string, ghost views: map<string, View>)
      requires Valid() && Text(doc, Name) == Some(name)
      modifies this`programs, this`rules, this`matchers, names
      ensures Valid()
      ensures old(names.values) <= names.values && old(|rules|) <= |rules| <= old(|rules|) + 1
      ensures |rules| <= MAX_INDEX && old(Shows(names.values, Programs(), views)) ==>
        Shows(names.values, Programs(), views[name := DocView(doc)])
      ensures matchers == old(matchers) + Patterns(engine, doc, name)
    {
      var values, p, r := BuildRecord(names.values, programs, rules, name, doc, views);
      names.values := values;
      programs := p;
      rules := r;
      matchers := matchers + Patterns(engine, doc, name);
    }

    method StoreDoc(doc: Json, ghost docs: Docs) returns (ok: bool)
      requires Valid()
      modifies this`programs, this`rules, this`matchers, this`types, this`cgroups, names
      ensures Valid()
      ensures old(names.values) <= names.values && old(|rules|) <= |rules| <= old(|rules|) + 1
      ensures |rules| <= MAX_INDEX && old(Holds(docs)) ==> Holds(DefineDoc(engine, docs, doc))
      ensures ok <==> Defines(doc)
    {
      UnresolvedDefine(engine, docs, doc);
      if Text(doc, Name).Some? {
        DefineProgram(doc, Text(doc, Name).value, Unresolved(docs));
        return true;
      } else if Text(doc, Type).Some? {
        types := types[Text(doc, Type).value := doc];
        return true;
      } else if Text(doc, Cgroup).Some? {
        cgroups := cgroups[Text(doc, Cgroup).value := doc];
        return true;
      }
      return false;
    }

    // Parses one line.  As long as the indices fit, the store goes from one set of
    // documents to the next; the resolution cache is left as it was.
    method LoadRuleFromNamed(line: string, ghost docs: Docs) returns (ok: bool)
      requires Valid()
      modifies this`programs, this`rules, this`matchers, this`types, this`cgroups, names
      ensures Valid()
      ensures old(names.values) <= names.values && old(|rules|) <= |rules| <= old(|rules|) + 1
      ensures |rules| <= MAX_INDEX && old(Holds(docs)) ==> Holds(LoadDoc(engine, docs, LineDoc(engine, line)))
      ensures ok <==> LineDoc(engine, line).Some? && Defines(LineDoc(engine, line).value)
    {
      var read := LineDoc(engine, line);
      if read == None {
        return false;
      }
      ok := StoreDoc(read.value, docs);
    }

    // Applies every rule's type to it, in place.
    method PrecomputeInheritance(ghost docs: Docs)
      requires Valid()
      modifies this`rules, this`cache, names
      ensures Valid() && |rules| == old(|rules|)
      ensures old(CacheRight()) || !poisoned ==> CacheRight()
      ensures !poisoned ==> cache.table == map[]
      ensures old(names.values) <= names.values
      ensures old(Holds(docs)) ==> HoldsResolved(docs)
    {
      var values, rules' := InheritRecords(names.values, types, programs, rules, docs);
      names.values := values;
      rules := rules';
      ClearCache();
    }

    method ClearCache()
      requires cache.Valid() && cache.capacity == CACHE_CAPACITY
      modifies this`cache
      ensures cache.Valid() && cache.capacity == CACHE_CAPACITY
      ensures cache == old(cache) || cache.table == map[]
      ensures !poisoned ==> cache.table == map[]
    {
      if !poisoned {
        cache := Lru.Empty(CACHE_CAPACITY);
      }
    }

    method LoadFile(lines: seq<string>, ghost docs: Docs)
      requires Valid()
      modifies this`programs, this`rules, this`matchers, this`types, this`cgroups, names
      ensures Valid()
      ensures old(names.values) <= names.values && old(|rules|) <= |rules| <= old(|rules|) + |lines|
      ensures |rules| <= MAX_INDEX && old(Holds(docs)) ==> Holds(LoadDocs(engine, docs, ReadLines(engine, lines)))
    {
      ghost var d := docs;
      var i := 0;
      while i < |lines|
        invariant 0 <= i <= |lines| && Valid()
        invariant old(names.values) <= names.values && old(|rules|) <= |rules| <= old(|rules|) + i
        invariant |rules| <= MAX_INDEX && old(Holds(docs)) ==> Holds(d)
        invariant LoadDocs(engine, d, ReadLines(engine, lines[i..])) == LoadDocs(engine, docs, ReadLines(engine, lines))
      {
        LoadFirst(engine, d, lines[i..]);
        assert lines[i..][1..] == lines[i + 1..];
        var _ := LoadRuleFromNamed(lines[i], d);
        d := LoadDoc(engine, d, LineDoc(engine, lines[i]));
        i := i + 1;
      }
    }

    method Clear()
      requires Valid()
      modifies this`programs, this`rules, this`matchers, this`types, this`cgroups, this`cache
      ensures Valid() && rules == [] && Holds(NO_DOCS)
      ensures !poisoned ==> cache.table == map[]
    {
      programs, rules, types, cgroups, matchers := map[], [], map[], map[], [];
      ClearCache();
    }

    method LoadWanted(file: File, flags: Flags, ghost docs: Docs)
      requires Valid()
      modifies this`programs, this`rules, this`matchers, this`types, this`cgroups, names
      ensures Valid() && old(names.values) <= names.values
      ensures old(|rules|) <= |rules| <= old(|rules|) + |FileDocs(engine, flags, file)|
      ensures |rules| <= MAX_INDEX && old(Holds(docs)) ==> Holds(LoadDocs(engine, docs, FileDocs(engine, flags, file)))
    {
      if Wanted(flags, file) {
        ReadLinesLength(engine, file.lines.value);
        LoadFile(file.lines.value, docs);
      }
    }

    method LoadFiles(files: seq<File>, flags: Flags, ghost docs: Docs)
      requires Valid()
      modifies this`programs, this`rules, this`matchers, this`types, this`cgroups, names
      ensures Valid()
      ensures old(|rules|) <= |rules| <= old(|rules|) + |WantedDocs(engine, flags, files)|
      ensures |rules| <= MAX_INDEX && old(Holds(docs)) ==> Holds(LoadDocs(engine, docs, WantedDocs(engine, flags, files)))
    {
      ghost var d := docs;
      var i := 0;
      assert files[0..] == files;
      while i < |files|
        invariant 0 <= i <= |files| && Valid() && old(|rules|) <= |rules|
        invariant |rules| + |WantedDocs(engine, flags, files[i..])| <= old(|rules|) + |WantedDocs(engine, flags, files)|
        invariant |rules| <= MAX_INDEX && old(Holds(docs)) ==> Holds(d)
        invariant LoadDocs(engine, d, WantedDocs(engine, flags, files[i..])) ==
          LoadDocs(engine, docs, WantedDocs(engine, flags, files))
      {
        ghost var read := FileDocs(engine, flags, files[i]);
        WantedFirst(engine, flags, files, i);
        LoadDocsConcat(engine, d, read, WantedDocs(engine, flags, files[i + 1..]));
        LoadWanted(files[i], flags, d);
        d := LoadDocs(engine, d, read);
        i := i + 1;
      }
    }

    // Loads a directory from nothing.  As long as the indices fit, what the store then
    // holds is a function of the files, the flags and the names the table holds; and
    // of the files and the flags alone while the table has room.
    method LoadDirectory(dir: Option<seq<File>>, flags: Flags)
      requires Valid()
      modifies this`programs, this`rules, this`matchers, this`types, this`cgroups, this`cache, names
      ensures Valid()
      ensures dir == None ==> Set() == old(Set()) && names.values == old(names.values) && cache == old(cache)
      ensures dir == None ==> types == old(types) && cgroups == old(cgroups)
      ensures dir.Some? ==> CacheRight() && |rules| <= |WantedDocs(engine, flags, dir.value)|
      ensures dir.Some? && |rules| <= MAX_INDEX ==>
        HoldsResolved(LoadDocs(engine, NO_DOCS, WantedDocs(engine, flags, dir.value)))
    {
      if dir == None {
        return;
      }
      Clear();
      LoadFiles(dir.value, flags, NO_DOCS);
      PrecomputeInheritance(LoadDocs(engine, NO_DOCS, WantedDocs(engine, flags, dir.value)));
    }

    // Another thread may have panicked with the cache's lock held.
    method TakeLock() returns (ok: bool)
      modifies this`poisoned
      ensures old(poisoned) ==> poisoned
      ensures ok <==> !poisoned
    {
      var panicked := *;
      poisoned := poisoned || panicked;
      ok := !poisoned;
    }

    // The lookup through the cache: the uncached answer, as long as the cache was
    // filled from this set or can no longer be read.
    method GetRule(name: string) returns (r: Option<(string, Rule)>)
      requires Valid()
      modifies this`cache, this`poisoned
      ensures Valid() && (old(poisoned) ==> poisoned)
      ensures old(CacheRight()) ==> CacheRight() && r == Answer(Set(), engine.isMatch, name)
      ensures |cache.order| <= CACHE_CAPACITY
      ensures !poisoned && T.Utf8Len(name) <= MAX_CACHEABLE_NAME ==> name in cache.table
      ensures old(poisoned) || T.Utf8Len(name) > MAX_CACHEABLE_NAME ==> cache.table == old(cache.table)
    {
      var ok := TakeLock();
      if ok {
        TouchKeeps(cache, name);
        match cache.Lookup(name) {
          case Some(cached) =>
            cache := cache.Touch(name);
            return Resolve(Set(), cached);
          case None =>
        }
      }
      var best := FindBestMatch(Set(), engine.isMatch, name);
      if T.Utf8Len(name) <= MAX_CACHEABLE_NAME {
        ok := TakeLock();
        if ok {
          PutKeeps(cache, name, best);
          cache := cache.Put(name, best);
        }
      }
      return Resolve(Set(), best);
    }
  }

  // ---- A load and a lookup, end to end ----

  lemma StoredUnderName(s: RuleSet, values: seq<string>, d: Docs, name: string)
    requires InRange(s.programs, s.rules) && ShowsResolved(values, MapRules(s.programs, s.rules, Viewer(values)), d)
    ensures name in s.programs <==> name in d.programs
    ensures name in d.programs ==> ViewOf(values, s.rules[s.programs[name]]) == ResolvedIn(values, d)[name]
    ensures name in d.programs && |values| < CAPACITY ==>
      ViewOf(values, s.rules[s.programs[name]]) == ResolvedView(d, d.programs[name])
  {
    var shown := MapRules(s.programs, s.rules, Viewer(values));
    assert shown.Keys == s.programs.Keys && ResolvedIn(values, d).Keys == d.programs.Keys;
    if name in d.programs {
      assert shown[name] == ViewOf(values, s.rules[s.programs[name]]);
      if |values| < CAPACITY { assert shown[name] == Resolved(d)[name]; }
    }
  }

  // After a load, and said of the lines alone: a process name is answered exactly when
  // some rule owns it, under that rule's name.  The answer reads as the owner resolved,
  // as far as the name table holds its names; and while the table has room it
  // reports the merge of the owner's last definition onto the last of its type.
  lemma LookupAfterLoad(r: Rules, docs: seq<Option<Json>>, target: string)
    requires r.Valid() && r.HoldsResolved(LoadDocs(r.engine, NO_DOCS, docs))
    ensures var a := Answer(r.Set(), r.engine.isMatch, target);
      && (forall n :: Owns(r.engine, docs, target, n) <==> a.Some? && a.value.0 == n)
      && (a.Some? ==>
            var views := ResolvedIn(r.names.values, LoadDocs(r.engine, NO_DOCS, docs));
            a.value.0 in views && ViewOf(r.names.values, a.value.1) == views[a.value.0])
      && (a.Some? && |r.names.values| < CAPACITY ==>
            exists i :: IsLastDefinition(docs, i, a.value.0)
              && IsMergeAt(docs, i, Report(ViewOf(r.names.values, a.value.1))))
  {
    var best := BestMatch(r.Set(), r.engine.isMatch, target);
    forall n ensures Owns(r.engine, docs, target, n) <==> best == Some(n) {
      BestIsOwner(r.Set(), r.names.values, r.engine, docs, target, n);
    }
    if best.Some? {
      OwnerReports(r.Set(), r.names.values, r.engine, docs, target, best.value);
    }
  }

  lemma BestIsOwner(s: RuleSet, values: seq<string>, e: Engine, docs: seq<Option<Json>>, target: string, n: string)
    requires InRange(s.programs, s.rules) && s.matchers == LoadDocs(e, NO_DOCS, docs).matchers
    requires ShowsResolved(values, MapRules(s.programs, s.rules, Viewer(values)), LoadDocs(e, NO_DOCS, docs))
    ensures Owns(e, docs, target, n) <==> BestMatch(s, e.isMatch, target) == Some(n)
  {
    StoredUnderName(s, values, LoadDocs(e, NO_DOCS, docs), target);
    OwnerFound(e, docs, target, n);
  }

  lemma OwnerReports(s: RuleSet, values: seq<string>, e: Engine, docs: seq<Option<Json>>, target: string, n: string)
    requires InRange(s.programs, s.rules) && Owns(e, docs, target, n)
    requires ShowsResolved(values, MapRules(s.programs, s.rules, Viewer(values)), LoadDocs(e, NO_DOCS, docs))
    ensures n in s.programs && n in LoadDocs(e, NO_DOCS, docs).programs
    ensures ViewOf(values, s.rules[s.programs[n]]) == ResolvedIn(values, LoadDocs(e, NO_DOCS, docs))[n]
    ensures |values| < CAPACITY ==>
      exists i :: IsLastDefinition(docs, i, n) && IsMergeAt(docs, i, Report(ViewOf(values, s.rules[s.programs[n]])))
  {
    OwnerIsDefined(e, docs, target, n);
    var i :| IsLastDefinition(docs, i, n);
    LoadedRuleIsMerge(e, docs, n, i);
    StoredUnderName(s, values, LoadDocs(e, NO_DOCS, docs), n);
  }
}
