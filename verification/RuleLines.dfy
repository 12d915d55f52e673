// Rule files as lines, the lines as documents, and what a set of lines means: which
// definition wins, what it inherits, and which rule answers for a process name.
module RuleLines {
  import opened Common
  import opened NameTable
  import opened RuleDoc
  import opened RuleLookup
  import T = Text

  // The JSON reader and the pattern engine, as any functions.
  datatype Engine = Engine(
    parse: string -> Option<Json>,
    compiles: string -> bool,
    isMatch: (string, string) -> bool)

  // ---- The store as a plain map of documents: the last definition wins ----

  datatype Docs = Docs(
    programs: map<string, Json>, types: map<string, Json>, cgroups: map<string, Json>, matchers: seq<Matcher>)

  const NO_DOCS := Docs(map[], map[], map[], [])

  // The text between the first `{` and the last `}` of a line that is not a comment.
  function LineText(line: string): Option<string> {
    var l := T.Trim(line);
    if l == "" || l[0] == '#' then None else Braced(l)
  }

  function Braced(l: string): Option<string> {
    var start, end := T.Find(l, '{'), T.RFind(l, '}');
    if start == |l| || end == |l| || start > end then None else Some(l[start..end + 1])
  }

  // A comment reads as nothing, whatever follows the sign.
  lemma CommentReadsAsNothing(w: string, rest: string)
    requires forall c :: c in w ==> T.IsSpace(c)
    ensures LineText(w + "#" + rest) == None
  {
    var line := w + "#" + rest;
    assert line == w + ("#" + rest);
    T.TrimStartOfSpace(w, "#" + rest);
    assert T.TrimStart("#" + rest) == "#" + rest;
    assert "#" + rest == "" + ['#'] + rest;
    T.TrimEndStops("", '#', rest);
  }

  // No opening brace has a closing one after it.
  predicate Unbraced(s: string) {
    forall i, j :: 0 <= i < j < |s| ==> !(s[i] == '{' && s[j] == '}')
  }

  lemma UnbracedReadsAsNothing(l: string)
    requires Unbraced(l)
    ensures Braced(l) == None
  {
    var start, end := T.Find(l, '{'), T.RFind(l, '}');
    assert start < |l| ==> l[start] == '{';
    assert end < |l| ==> l[end] == '}';
  }

  lemma PartUnbraced(s: string, lo: nat, hi: nat)
    requires Unbraced(s) && lo <= hi <= |s|
    ensures Unbraced(s[lo..hi])
  {
    var p := s[lo..hi];
    forall i, j | 0 <= i < j < |p| ensures !(p[i] == '{' && p[j] == '}') {
      assert p[i] == s[lo + i] && p[j] == s[lo + j];
    }
  }

  // So does a line without an opening brace that a closing one follows.
  lemma BracelessReadsAsNothing(line: string)
    requires Unbraced(line)
    ensures LineText(line) == None
  {
    var front := T.TrimStart(line);
    T.TrimStartShape(line);
    T.TrimEndShape(front);
    PartUnbraced(line, |line| - |front|, |line|);
    assert line[|line| - |front|..|line|] == front;
    PartUnbraced(front, 0, |T.Trim(line)|);
    assert front[0..|T.Trim(line)|] == T.Trim(line);
    UnbracedReadsAsNothing(T.Trim(line));
  }

  lemma BracedFromBraceToBrace(front: string, b: string, back: string)
    requires '{' !in front && '}' !in back
    ensures Braced(front + "{" + b + "}" + back) == Some("{" + b + "}")
  {
    var l := front + "{" + b + "}" + back;
    assert l == front + ['{'] + (b + "}" + back);
    T.FindAt(front, '{', b + "}" + back);
    assert l == (front + "{" + b) + ['}'] + back;
    T.RFindAt(front + "{" + b, '}', back);
    assert l[|front|..|front + "{" + b| + 1] == "{" + b + "}";
  }

  lemma TrimmedAround(a: string, b: string, c: string)
    ensures T.Trim(a + "{" + b + "}" + c) == T.TrimStart(a) + "{" + b + "}" + T.TrimEnd(c)
  {
    var front := T.TrimStart(a);
    assert a + "{" + b + "}" + c == a + ['{'] + (b + "}" + c);
    T.TrimStartStops(a, '{', b + "}" + c);
    assert front + ['{'] + (b + "}" + c) == (front + "{" + b) + ['}'] + c;
    T.TrimEndStops(front + "{" + b, '}', c);
    assert (front + "{" + b) + ['}'] + T.TrimEnd(c) == front + "{" + b + "}" + T.TrimEnd(c);
  }

  // Any other line reads as the text from its first opening brace to its last closing
  // one, with whatever stands before and after left out.
  lemma LineReadsFromBraceToBrace(a: string, b: string, c: string)
    requires '{' !in a && '}' !in c
    requires T.TrimStart(a) == "" || T.TrimStart(a)[0] != '#'
    ensures LineText(a + "{" + b + "}" + c) == Some("{" + b + "}")
  {
    TrimmedAround(a, b, c);
    T.TrimAddsNothing(a, '{');
    T.TrimAddsNothing(c, '}');
    FirstOf(T.TrimStart(a), b, T.TrimEnd(c));
    BracedFromBraceToBrace(T.TrimStart(a), b, T.TrimEnd(c));
    NotAComment(a + "{" + b + "}" + c, T.TrimStart(a) + "{" + b + "}" + T.TrimEnd(c));
  }

  lemma NotAComment(line: string, l: string)
    requires T.Trim(line) == l && l != "" && l[0] != '#'
    ensures LineText(line) == Braced(l)
  {
  }

  lemma FirstOf(front: string, b: string, back: string)
    ensures var l := front + "{" + b + "}" + back; l != "" && l[0] == if front == "" then '{' else front[0]
  {
  }

  function LineDoc(e: Engine, line: string): Option<Json> {
    match LineText(line)
    case Some(text) => e.parse(text)
    case None => None
  }

  function Patterns(e: Engine, doc: Json, name: string): seq<Matcher> {
    match Text(doc, Other("name_regex"))
    case Some(pattern) => if e.compiles(pattern) then [Matcher(pattern, name)] else []
    case None => []
  }

  function DefineDoc(e: Engine, d: Docs, doc: Json): Docs {
    if Text(doc, Name).Some? then
      var name := Text(doc, Name).value;
      d.(programs := d.programs[name := doc], matchers := d.matchers + Patterns(e, doc, name))
    else if Text(doc, Type).Some? then d.(types := d.types[Text(doc, Type).value := doc])
    else if Text(doc, Cgroup).Some? then d.(cgroups := d.cgroups[Text(doc, Cgroup).value := doc])
    else d
  }

  predicate Defines(doc: Json) {
    Text(doc, Name).Some? || Text(doc, Type).Some? || Text(doc, Cgroup).Some?
  }

  function LoadDoc(e: Engine, d: Docs, doc: Option<Json>): Docs {
    if doc.Some? then DefineDoc(e, d, doc.value) else d
  }

  // Loading what each line reads as, in order.
  function LoadDocs(e: Engine, d: Docs, docs: seq<Option<Json>>): Docs {
    if docs == [] then d else LoadDoc(e, LoadDocs(e, d, docs[..|docs| - 1]), docs[|docs| - 1])
  }

  predicate DefinesProgram(doc: Option<Json>, name: string) {
    doc.Some? && Text(doc.value, Name) == Some(name)
  }

  predicate IsLastDefinition(docs: seq<Option<Json>>, i: int, name: string) {
    && 0 <= i < |docs|
    && DefinesProgram(docs[i], name)
    && forall j :: i < j < |docs| ==> !DefinesProgram(docs[j], name)
  }

  lemma DocEffect(e: Engine, d: Docs, doc: Option<Json>, name: string)
    ensures var d' := LoadDoc(e, d, doc);
      if DefinesProgram(doc, name) then name in d'.programs && d'.programs[name] == doc.value && doc.value.Object?
      else (name in d'.programs <==> name in d.programs) && (name in d.programs ==> d'.programs[name] == d.programs[name])
  {
  }

  // What is stored under a name is the document of the last line that defines it.
  lemma {:induction false} LastDefinitionWins(e: Engine, docs: seq<Option<Json>>, name: string)
    ensures var d := LoadDocs(e, NO_DOCS, docs);
      && (name in d.programs <==> exists i :: IsLastDefinition(docs, i, name))
      && (forall i :: IsLastDefinition(docs, i, name) ==> d.programs[name] == docs[i].value)
      && (name in d.programs ==> d.programs[name].Object?)
  {
    if docs != [] {
      var n := |docs| - 1;
      var init := docs[..n];
      LastDefinitionWins(e, init, name);
      DocEffect(e, LoadDocs(e, NO_DOCS, init), docs[n], name);
      if DefinesProgram(docs[n], name) {
        assert IsLastDefinition(docs, n, name);
      } else {
        forall i ensures IsLastDefinition(docs, i, name) <==> IsLastDefinition(init, i, name) {}
      }
    }
  }

  // A line with a type and no name defines that type.
  predicate DefinesType(doc: Option<Json>, t: string) {
    doc.Some? && Text(doc.value, Name) == None && Text(doc.value, Type) == Some(t)
  }

  predicate IsLastType(docs: seq<Option<Json>>, i: int, t: string) {
    && 0 <= i < |docs|
    && DefinesType(docs[i], t)
    && forall j :: i < j < |docs| ==> !DefinesType(docs[j], t)
  }

  lemma TypeEffect(e: Engine, d: Docs, doc: Option<Json>, t: string)
    ensures var d' := LoadDoc(e, d, doc);
      if DefinesType(doc, t) then t in d'.types && d'.types[t] == doc.value
      else (t in d'.types <==> t in d.types) && (t in d.types ==> d'.types[t] == d.types[t])
  {
  }

  lemma {:induction false} LastTypeWins(e: Engine, docs: seq<Option<Json>>, t: string)
    ensures var d := LoadDocs(e, NO_DOCS, docs);
      && (t in d.types <==> exists i :: IsLastType(docs, i, t))
      && (forall i :: IsLastType(docs, i, t) ==> d.types[t] == docs[i].value)
  {
    if docs != [] {
      var n := |docs| - 1;
      var init := docs[..n];
      LastTypeWins(e, init, t);
      TypeEffect(e, LoadDocs(e, NO_DOCS, init), docs[n], t);
      if DefinesType(docs[n], t) {
        assert IsLastType(docs, n, t);
      } else {
        forall i ensures IsLastType(docs, i, t) <==> IsLastType(init, i, t) {}
      }
    }
  }

  // ---- Resolving types ----

  function TypeDoc(d: Docs, doc: Json): Option<Json> {
    match Text(doc, Type)
    case Some(t) => if t in d.types then Some(d.types[t]) else None
    case None => None
  }

  function ResolvedView(d: Docs, doc: Json): View {
    match TypeDoc(d, doc)
    case Some(base) => InheritView(DocView(doc), DocView(base))
    case None => DocView(doc)
  }

  // A resolved rule reports what the RFC 7396 merge of its document onto its
  // type's document (or onto nothing) says.
  lemma ResolvedIsMergePatch(d: Docs, doc: Json)
    requires doc.Object?
    ensures Report(ResolvedView(d, doc)) ==
      ReadDoc(MergePatch(if TypeDoc(d, doc).Some? then TypeDoc(d, doc).value else Object(map[]), doc))
  {
    var base := if TypeDoc(d, doc).Some? then TypeDoc(d, doc).value else Object(map[]);
    InheritanceIsMergePatch(base, doc);
    if TypeDoc(d, doc) == None {
      assert InheritView(DocView(doc), DocView(base)) == DocView(doc);
    }
  }

  // `report` is the merge of line `i`'s document onto the last document of its type,
  // or that document by itself when no line defines the type.
  ghost predicate IsMergeAt(docs: seq<Option<Json>>, i: int, report: Settings)
    requires 0 <= i < |docs| && docs[i].Some?
  {
    var doc := docs[i].value;
    && (forall t, k :: Text(doc, Type) == Some(t) && IsLastType(docs, k, t) ==>
          report == ReadDoc(MergePatch(docs[k].value, doc)))
    && ((forall t, k :: Text(doc, Type) == Some(t) ==> !IsLastType(docs, k, t)) ==> report == ReadDoc(doc))
  }

  // What a loaded and resolved set reports under a name, said of the lines alone.
  lemma LoadedRuleIsMerge(e: Engine, docs: seq<Option<Json>>, name: string, i: int)
    requires IsLastDefinition(docs, i, name)
    ensures var d := LoadDocs(e, NO_DOCS, docs);
      name in d.programs && IsMergeAt(docs, i, Report(ResolvedView(d, d.programs[name])))
  {
    var d, doc := LoadDocs(e, NO_DOCS, docs), docs[i].value;
    LastDefinitionWins(e, docs, name);
    ResolvedIsMergePatch(d, doc);
    if Text(doc, Type).Some? { LastTypeWins(e, docs, Text(doc, Type).value); }
    ReportOfDoc(doc);
  }

  // ---- Which rule answers ----

  // The line defines a rule whose pattern compiles and matches.
  predicate PatternMatches(e: Engine, doc: Option<Json>, target: string) {
    && doc.Some? && Text(doc.value, Name).Some?
    && Text(doc.value, Other("name_regex")).Some?
    && e.compiles(Text(doc.value, Other("name_regex")).value)
    && e.isMatch(Text(doc.value, Other("name_regex")).value, target)
  }

  predicate IsFirstPattern(e: Engine, docs: seq<Option<Json>>, i: int, target: string) {
    && 0 <= i < |docs|
    && PatternMatches(e, docs[i], target)
    && forall j :: 0 <= j < i ==> !PatternMatches(e, docs[j], target)
  }

  // `name` is the rule a process called `target` gets: the exact name if any line
  // defines it, else the name on the first line whose pattern matches, even when a
  // later line has redefined that name without the pattern.
  ghost predicate Owns(e: Engine, docs: seq<Option<Json>>, target: string, name: string) {
    if exists i :: IsLastDefinition(docs, i, target) then name == target
    else exists i :: IsFirstPattern(e, docs, i, target) && Text(docs[i].value, Name) == Some(name)
  }

  lemma PatternOfLine(e: Engine, doc: Json, name: string, target: string)
    requires Text(doc, Name) == Some(name)
    ensures PatternOwner(Patterns(e, doc, name), e.isMatch, target) ==
      if PatternMatches(e, Some(doc), target) then Some(name) else None
  {
  }

  lemma PatternStep(e: Engine, d: Docs, doc: Option<Json>, target: string)
    ensures PatternOwner(LoadDoc(e, d, doc).matchers, e.isMatch, target) ==
      if PatternOwner(d.matchers, e.isMatch, target).Some? then PatternOwner(d.matchers, e.isMatch, target)
      else if PatternMatches(e, doc, target) then Text(doc.value, Name) else None
  {
    if doc.Some? && Text(doc.value, Name).Some? {
      var name := Text(doc.value, Name).value;
      PatternOfLine(e, doc.value, name, target);
      FirstMatchConcat(d.matchers, Patterns(e, doc.value, name), e.isMatch, target);
    }
  }

  // The name on the first line whose pattern matches.
  function FirstPattern(e: Engine, docs: seq<Option<Json>>, target: string): Option<string> {
    if docs == [] then None
    else
      var earlier, last := FirstPattern(e, docs[..|docs| - 1], target), docs[|docs| - 1];
      if earlier.Some? then earlier else if PatternMatches(e, last, target) then Text(last.value, Name) else None
  }

  lemma {:induction false} PatternsLoaded(e: Engine, docs: seq<Option<Json>>, target: string)
    ensures PatternOwner(LoadDocs(e, NO_DOCS, docs).matchers, e.isMatch, target) == FirstPattern(e, docs, target)
  {
    if docs != [] {
      var n := |docs| - 1;
      PatternsLoaded(e, docs[..n], target);
      PatternStep(e, LoadDocs(e, NO_DOCS, docs[..n]), docs[n], target);
    }
  }

  lemma {:induction false} FirstPatternIsFirst(e: Engine, docs: seq<Option<Json>>, target: string)
    ensures FirstPattern(e, docs, target) == None <==> forall i :: 0 <= i < |docs| ==> !PatternMatches(e, docs[i], target)
    ensures forall i :: IsFirstPattern(e, docs, i, target) ==> FirstPattern(e, docs, target) == Text(docs[i].value, Name)
    ensures FirstPattern(e, docs, target).Some? ==> exists i :: IsFirstPattern(e, docs, i, target)
  {
    if docs != [] {
      var n := |docs| - 1;
      var init := docs[..n];
      FirstPatternIsFirst(e, init, target);
      assert forall i :: 0 <= i < n ==> docs[i] == init[i];
      forall i | 0 <= i < n ensures IsFirstPattern(e, docs, i, target) <==> IsFirstPattern(e, init, i, target) {}
      if FirstPattern(e, init, target).Some? {
        var i :| IsFirstPattern(e, init, i, target);
        assert IsFirstPattern(e, docs, i, target);
      } else if PatternMatches(e, docs[n], target) {
        assert IsFirstPattern(e, docs, n, target);
      }
    }
  }

  lemma FirstPatternOwns(e: Engine, docs: seq<Option<Json>>, target: string)
    ensures var owner := PatternOwner(LoadDocs(e, NO_DOCS, docs).matchers, e.isMatch, target);
      && (owner == None <==> forall i :: 0 <= i < |docs| ==> !PatternMatches(e, docs[i], target))
      && (forall i :: IsFirstPattern(e, docs, i, target) ==> owner == Text(docs[i].value, Name))
      && (owner.Some? ==> exists i :: IsFirstPattern(e, docs, i, target))
  {
    PatternsLoaded(e, docs, target);
    FirstPatternIsFirst(e, docs, target);
  }

  // The lookup over the loaded documents finds exactly the owner.
  lemma OwnerFound(e: Engine, docs: seq<Option<Json>>, target: string, name: string)
    ensures var d := LoadDocs(e, NO_DOCS, docs);
      Owns(e, docs, target, name) <==>
        Some(name) == if target in d.programs then Some(target) else PatternOwner(d.matchers, e.isMatch, target)
  {
    LastDefinitionWins(e, docs, target);
    FirstPatternOwns(e, docs, target);
  }

  // Whoever owns a target has a definition.
  lemma OwnerIsDefined(e: Engine, docs: seq<Option<Json>>, target: string, name: string)
    requires Owns(e, docs, target, name)
    ensures exists i :: IsLastDefinition(docs, i, name)
  {
    if !exists i :: IsLastDefinition(docs, i, target) {
      var i :| IsFirstPattern(e, docs, i, target) && Text(docs[i].value, Name) == Some(name);
      SomeLastDefinition(docs, i, name);
    }
  }

  lemma {:induction false} SomeLastDefinition(docs: seq<Option<Json>>, i: nat, name: string)
    requires i < |docs| && DefinesProgram(docs[i], name)
    ensures exists k :: IsLastDefinition(docs, k, name)
    decreases |docs| - i
  {
    if j :| i < j < |docs| && DefinesProgram(docs[j], name) {
      SomeLastDefinition(docs, j, name);
    } else {
      assert IsLastDefinition(docs, i, name);
    }
  }

  // ---- Directories ----

  datatype Flags = Flags(ruleLoad: bool, typeLoad: bool, cgroupLoad: bool)
  // A regular file under the directory; `lines` is None when it cannot be read.
  datatype File = File(name: string, lines: Option<seq<string>>)

  // `Path::extension`: what follows the last dot, unless the name begins with that dot.
  function Extension(name: string): string {
    var i := T.RFind(name, '.');
    if i == |name| || i == 0 then "" else name[i + 1..]
  }

  predicate KindWanted(f: Flags, ext: string) {
    (ext == "rules" && f.ruleLoad) || (ext == "types" && f.typeLoad) || (ext == "cgroups" && f.cgroupLoad)
  }

  predicate Wanted(f: Flags, file: File) { file.lines.Some? && KindWanted(f, Extension(file.name)) }

  lemma ExtensionOf(stem: string, ext: string)
    requires stem != "" && '.' !in ext
    ensures Extension(stem + "." + ext) == ext
    ensures Extension("." + ext) == ""
  {
    assert stem + "." + ext == stem + ['.'] + ext;
    T.RFindAt(stem, '.', ext);
    assert "." + ext == "" + ['.'] + ext;
    T.RFindAt("", '.', ext);
  }

  // Each kind of file is loaded exactly when its own flag is on, and no other kind is.
  lemma EachKindHasItsFlag(f: Flags, ext: string)
    ensures KindWanted(f, "rules") <==> f.ruleLoad
    ensures KindWanted(f, "types") <==> f.typeLoad
    ensures KindWanted(f, "cgroups") <==> f.cgroupLoad
    ensures KindWanted(f, ext) ==> ext == "rules" || ext == "types" || ext == "cgroups"
  {
    assert "rules"[0] == 'r' && "types"[0] == 't' && "cgroups"[0] == 'c';
  }

  // The kind of a file is what follows the last dot of its name; a name that begins
  // with its only dot has no kind and is not loaded.
  lemma WantedByExtension(f: Flags, stem: string, ext: string, lines: seq<string>)
    requires stem != "" && '.' !in ext
    ensures Wanted(f, File(stem + "." + ext, Some(lines))) <==> KindWanted(f, ext)
    ensures !Wanted(f, File("." + ext, Some(lines)))
    ensures !Wanted(f, File(stem + "." + ext, None))
  {
    ExtensionOf(stem, ext);
  }

  function ReadLines(e: Engine, lines: seq<string>): seq<Option<Json>> {
    if lines == [] then [] else [LineDoc(e, lines[0])] + ReadLines(e, lines[1..])
  }

  function FileDocs(e: Engine, f: Flags, file: File): seq<Option<Json>> {
    if Wanted(f, file) then ReadLines(e, file.lines.value) else []
  }

  // What every line of the wanted files reads as, in path order.
  function WantedDocs(e: Engine, f: Flags, files: seq<File>): seq<Option<Json>> {
    if files == [] then [] else FileDocs(e, f, files[0]) + WantedDocs(e, f, files[1..])
  }

  lemma {:induction false} LoadDocsConcat(e: Engine, d: Docs, a: seq<Option<Json>>, b: seq<Option<Json>>)
    ensures LoadDocs(e, LoadDocs(e, d, a), b) == LoadDocs(e, d, a + b)
  {
    if b == [] {
      assert a + b == a;
    } else {
      var n := |b| - 1;
      LoadDocsConcat(e, d, a, b[..n]);
      assert (a + b)[..|a + b| - 1] == a + b[..n];
    }
  }

  lemma WantedFirst(e: Engine, f: Flags, files: seq<File>, i: nat)
    requires i < |files|
    ensures WantedDocs(e, f, files[i..]) == FileDocs(e, f, files[i]) + WantedDocs(e, f, files[i + 1..])
  {
    assert files[i..][1..] == files[i + 1..];
  }

  lemma LoadFirst(e: Engine, d: Docs, lines: seq<string>)
    requires lines != []
    ensures LoadDocs(e, d, ReadLines(e, lines)) == LoadDocs(e, LoadDoc(e, d, LineDoc(e, lines[0])), ReadLines(e, lines[1..]))
  {
    var first := LineDoc(e, lines[0]);
    LoadDocsConcat(e, d, [first], ReadLines(e, lines[1..]));
    assert [first][..0] == [];
    assert LoadDocs(e, d, [first]) == LoadDoc(e, d, first);
  }

  lemma {:induction false} ReadLinesLength(e: Engine, lines: seq<string>)
    ensures |ReadLines(e, lines)| == |lines|
  {
    if lines != [] { ReadLinesLength(e, lines[1..]); }
  }

  // ---- The dump as a line ----

  // A dumped rule, read back as a definition, redefines exactly the rule it was dumped
  // under, and reports what that rule reported.
  lemma DumpRedefinesItsRule(e: Engine, d: Docs, values: seq<string>, r: Rule, name: string)
    requires NoDup(values) && |values| <= CAPACITY && Formed(values, r)
    ensures var d' := DefineDoc(e, d, ToJson(values, r, name));
      && d'.programs == d.programs[name := ToJson(values, r, name)]
      && d'.types == d.types && d'.cgroups == d.cgroups
      && ReadDoc(d'.programs[name]) == Report(ViewOf(values, r))
  {
    DumpedKey(values, r, name, Name);
    ReadDump(values, r, name);
  }

  // ---- What the programs of a set of documents read as ----

  function Unresolved(d: Docs): map<string, View> {
    map n | n in d.programs :: DocView(d.programs[n])
  }

  function Resolved(d: Docs): map<string, View> {
    map n | n in d.programs :: ResolvedView(d, d.programs[n])
  }

  function SeenAll(values: seq<string>, views: map<string, View>): map<string, View> {
    map n | n in views :: Seen(values, views[n])
  }

  // A rule as far as the table holds its names: one whose type found no room
  // inherits nothing.
  function ResolveIn(values: seq<string>, types: map<string, Json>, v: View): View {
    if v.typeName.Some? && v.typeName.value in types
    then InheritView(v, Seen(values, DocView(types[v.typeName.value])))
    else v
  }

  function ResolvedIn(values: seq<string>, d: Docs): map<string, View> {
    map n | n in d.programs :: ResolveIn(values, d.types, Seen(values, DocView(d.programs[n])))
  }
}
