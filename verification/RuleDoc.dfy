// A rule as a document, as the record the daemon keeps, and as the document it
// is dumped as.  Names inside a record are ids into the name table.
module RuleDoc {
  import opened Common
  import opened NameTable

  // ---- JSON ----

  // The eleven keys the daemon implements, and any other key.
  datatype Key =
    | Name | Type | Nice | LatNice | Ioclass | Ionice | Sched | Rtprio | OomScoreAdj | Cgroup | Cpuset
    | Other(text: string)

  datatype Num = Int(value: int) | Float(text: string)

  datatype Json =
    | Null
    | Bool(b: bool)
    | Number(num: Num)
    | String(text: string)
    | Array(items: seq<Json>)
    | Object(fields: map<Key, Json>)

  function Get(doc: Json, key: Key): Option<Json> {
    if doc.Object? && key in doc.fields then Some(doc.fields[key]) else None
  }

  function AsI64(n: Num): Option<int> {
    if n.Int? && -0x8000_0000_0000_0000 <= n.value < 0x8000_0000_0000_0000 then Some(n.value) else None
  }

  function AsU64(n: Num): Option<int> {
    if n.Int? && 0 <= n.value < 0x1_0000_0000_0000_0000 then Some(n.value) else None
  }

  // `as i32` and `as u32` keep the low 32 bits.
  function AsI32(n: int): int { (n + 0x8000_0000) % 0x1_0000_0000 - 0x8000_0000 }
  function AsU32(n: int): int { n % 0x1_0000_0000 }

  // A narrowed number is the one of its width with the same low 32 bits.
  lemma NarrowingKeepsLowBits(n: int)
    ensures -0x8000_0000 <= AsI32(n) < 0x8000_0000 && (AsI32(n) - n) % 0x1_0000_0000 == 0
    ensures 0 <= AsU32(n) < 0x1_0000_0000 && (AsU32(n) - n) % 0x1_0000_0000 == 0
  {
    var m := n + 0x8000_0000;
    assert m == 0x1_0000_0000 * (m / 0x1_0000_0000) + m % 0x1_0000_0000;
    assert n == 0x1_0000_0000 * (n / 0x1_0000_0000) + n % 0x1_0000_0000;
    MultipleHasNoRest(-(m / 0x1_0000_0000));
    MultipleHasNoRest(-(n / 0x1_0000_0000));
  }

  lemma MultipleHasNoRest(q: int)
    ensures (0x1_0000_0000 * q) % 0x1_0000_0000 == 0
  {
  }

  // JSON merge patch, section 2 of RFC 7396.
  function MergePatch(target: Json, patch: Json): Json
    decreases patch
  {
    if patch.Object? then
      var base := if target.Object? then target.fields else map[];
      Object(map k | k in base.Keys + patch.fields.Keys && !(k in patch.fields && patch.fields[k] == Null) ::
        if k in patch.fields then MergePatch(if k in base then base[k] else Null, patch.fields[k]) else base[k])
    else patch
  }

  // ---- The record ----

  // Absent, declared with nothing usable in it, or a value.
  datatype Attr<T> = Absent | Unusable | Value(value: T)

  datatype Rule = Rule(
    typeName: nat,
    nice: Attr<int>, latencyNice: Attr<int>, ioclass: nat, ionice: Attr<int>, sched: nat,
    rtprio: Attr<int>, oomScoreAdj: Attr<int>, cgroup: nat, cpuset: nat,
    extras: map<Key, Json>)

  function NumberAttr(doc: Json, key: Key): Attr<int> {
    match Get(doc, key)
    case None => Absent
    case Some(Number(n)) => (match AsI64(n) case Some(i) => Value(AsI32(i)) case None => Unusable)
    case Some(_) => Unusable
  }

  function UnsignedAttr(doc: Json, key: Key): Attr<int> {
    match Get(doc, key)
    case None => Absent
    case Some(Number(n)) => (match AsU64(n) case Some(i) => Value(AsU32(i)) case None => Unusable)
    case Some(_) => Unusable
  }

  // A number is read if it is an integer of 64 bits, signed or unsigned as the key is,
  // and then narrowed; anything else declared under the key is unusable.
  lemma NumbersAreRead(doc: Json, key: Key, n: int)
    requires Get(doc, key) == Some(Number(Int(n)))
    ensures NumberAttr(doc, key) == if -0x8000_0000_0000_0000 <= n < 0x8000_0000_0000_0000 then Value(AsI32(n)) else Unusable
    ensures UnsignedAttr(doc, key) == if 0 <= n < 0x1_0000_0000_0000_0000 then Value(AsU32(n)) else Unusable
  {
  }

  lemma OthersAreUnusable(doc: Json, key: Key)
    ensures Get(doc, key) == None ==> NumberAttr(doc, key) == UnsignedAttr(doc, key) == Absent
    ensures Get(doc, key).Some? && !(Get(doc, key).value.Number? && Get(doc, key).value.num.Int?) ==>
      NumberAttr(doc, key) == UnsignedAttr(doc, key) == Unusable
  {
  }

  // The string under a key, which is what gets interned.
  function Text(doc: Json, key: Key): Option<string> {
    match Get(doc, key)
    case Some(String(s)) => Some(s)
    case _ => None
  }

  function InternText(values: seq<string>, name: Option<string>): seq<string> {
    if name.Some? then InternedValues(values, name.value) else values
  }

  function InternTextId(values: seq<string>, name: Option<string>): nat {
    if name.Some? then InternedId(values, name.value) else UNUSABLE
  }

  // `NameAttribute`, given the id `intern` answered: 0 absent, 1 unusable, else that id.
  function NameAttr(doc: Json, key: Key, id: nat): nat {
    if Get(doc, key) == None then 0 else if Text(doc, key) == None then UNUSABLE else id
  }

  // `TypeNameId`: the table's id less one, so that 0 names no type.
  function TypeAttr(doc: Json, id: nat): nat {
    if Text(doc, Type) == None || id == 0 then 0 else id - 1
  }

  // Extras are the keys the daemon does not implement, kept as written.
  function Extras(doc: Json): map<Key, Json> {
    if doc.Object? then map k | k in doc.fields && k.Other? :: doc.fields[k] else map[]
  }

  // The table after each of the five names a document can carry, in field order.
  function After1(values: seq<string>, doc: Json): seq<string> { InternText(values, Text(doc, Type)) }
  function After2(values: seq<string>, doc: Json): seq<string> { InternText(After1(values, doc), Text(doc, Ioclass)) }
  function After3(values: seq<string>, doc: Json): seq<string> { InternText(After2(values, doc), Text(doc, Sched)) }
  function After4(values: seq<string>, doc: Json): seq<string> { InternText(After3(values, doc), Text(doc, Cgroup)) }
  function After5(values: seq<string>, doc: Json): seq<string> { InternText(After4(values, doc), Text(doc, Cpuset)) }

  // What `intern` answered for the five names.
  datatype Ids = Ids(typeName: nat, ioclass: nat, sched: nat, cgroup: nat, cpuset: nat)

  // The record of a document, given those answers.
  function RecordOf(doc: Json, ids: Ids): Rule {
    Rule(TypeAttr(doc, ids.typeName),
      NumberAttr(doc, Nice), NumberAttr(doc, LatNice),
      NameAttr(doc, Ioclass, ids.ioclass), NumberAttr(doc, Ionice), NameAttr(doc, Sched, ids.sched),
      UnsignedAttr(doc, Rtprio), NumberAttr(doc, OomScoreAdj),
      NameAttr(doc, Cgroup, ids.cgroup), NameAttr(doc, Cpuset, ids.cpuset),
      Extras(doc))
  }

  // The answers of a thread that is alone with the table.
  function SoloIds(values: seq<string>, doc: Json): Ids {
    Ids(InternTextId(values, Text(doc, Type)), InternTextId(After1(values, doc), Text(doc, Ioclass)),
      InternTextId(After2(values, doc), Text(doc, Sched)), InternTextId(After3(values, doc), Text(doc, Cgroup)),
      InternTextId(After4(values, doc), Text(doc, Cpuset)))
  }

  datatype Loaded = Loaded(rule: Rule, values: seq<string>)

  // Reads a document, interning its names in field order.
  function FromJson(values: seq<string>, doc: Json): Loaded {
    Loaded(RecordOf(doc, SoloIds(values, doc)), After5(values, doc))
  }

  function Over<T>(own: Attr<T>, base: Attr<T>): Attr<T> {
    if own.Absent? then base else own
  }

  function OverId(own: nat, base: nat): nat {
    if own == 0 then base else own
  }

  // Overlays the rule on its type: only what the rule said nothing about is taken.
  function Inherit(r: Rule, base: Rule): Rule {
    r.(nice := Over(r.nice, base.nice),
       latencyNice := Over(r.latencyNice, base.latencyNice),
       ionice := Over(r.ionice, base.ionice),
       rtprio := Over(r.rtprio, base.rtprio),
       oomScoreAdj := Over(r.oomScoreAdj, base.oomScoreAdj),
       ioclass := OverId(r.ioclass, base.ioclass),
       sched := OverId(r.sched, base.sched),
       cgroup := OverId(r.cgroup, base.cgroup),
       cpuset := OverId(r.cpuset, base.cpuset))
  }

  // ---- The record with its names spelled out ----

  datatype View = View(
    typeName: Option<string>,
    nice: Attr<int>, latencyNice: Attr<int>, ioclass: Attr<string>, ionice: Attr<int>, sched: Attr<string>,
    rtprio: Attr<int>, oomScoreAdj: Attr<int>, cgroup: Attr<string>, cpuset: Attr<string>,
    extras: map<Key, Json>)

  function NameView(values: seq<string>, id: nat): Attr<string> {
    if id == 0 then Absent
    else match NameOf(values, id)
      case Some(name) => Value(name)
      case None => Unusable
  }

  function TypeView(values: seq<string>, id: nat): Option<string> {
    if id == 0 then None else NameOf(values, id + 1)
  }

  function ViewOf(values: seq<string>, r: Rule): View {
    View(TypeView(values, r.typeName), r.nice, r.latencyNice,
      NameView(values, r.ioclass), r.ionice, NameView(values, r.sched), r.rtprio, r.oomScoreAdj,
      NameView(values, r.cgroup), NameView(values, r.cpuset), r.extras)
  }

  // What a document says, without any table.
  function DocName(doc: Json, key: Key): Attr<string> {
    match Get(doc, key)
    case None => Absent
    case Some(String(s)) => Value(s)
    case Some(_) => Unusable
  }

  function DocView(doc: Json): View {
    View(Text(doc, Type), NumberAttr(doc, Nice), NumberAttr(doc, LatNice),
      DocName(doc, Ioclass), NumberAttr(doc, Ionice), DocName(doc, Sched),
      UnsignedAttr(doc, Rtprio), NumberAttr(doc, OomScoreAdj),
      DocName(doc, Cgroup), DocName(doc, Cpuset), Extras(doc))
  }

  function InheritView(v: View, base: View): View {
    View(v.typeName, Over(v.nice, base.nice), Over(v.latencyNice, base.latencyNice),
      Over(v.ioclass, base.ioclass), Over(v.ionice, base.ionice), Over(v.sched, base.sched),
      Over(v.rtprio, base.rtprio), Over(v.oomScoreAdj, base.oomScoreAdj),
      Over(v.cgroup, base.cgroup), Over(v.cpuset, base.cpuset), v.extras)
  }

  // Every name of the document made it into the table.
  predicate Recorded(values: seq<string>, doc: Json) {
    && RecordedKey(values, doc, Type) && RecordedKey(values, doc, Ioclass) && RecordedKey(values, doc, Sched)
    && RecordedKey(values, doc, Cgroup) && RecordedKey(values, doc, Cpuset)
  }

  predicate RecordedKey(values: seq<string>, doc: Json, key: Key) {
    Text(doc, key).Some? ==> Text(doc, key).value in values
  }

  // ---- What a table with no room left makes of a document ----

  function SeenName(values: seq<string>, a: Attr<string>): Attr<string> {
    if a.Value? && a.value !in values then Unusable else a
  }

  // A view as far as the table holds its names: a name it does not hold is unusable,
  // and a type it does not hold is no type.
  function Seen(values: seq<string>, v: View): View {
    v.(typeName := if v.typeName.Some? && v.typeName.value !in values then None else v.typeName,
       ioclass := SeenName(values, v.ioclass), sched := SeenName(values, v.sched),
       cgroup := SeenName(values, v.cgroup), cpuset := SeenName(values, v.cpuset))
  }

  lemma SeenIsRecorded(values: seq<string>, doc: Json)
    ensures Recorded(values, doc) <==> Seen(values, DocView(doc)) == DocView(doc)
  {
  }

  lemma SeenGrows(values: seq<string>, later: seq<string>, v: View)
    requires values <= later && Seen(values, v) == v
    ensures Seen(later, v) == v
  {
  }

  // ---- Facts about the table ----

  lemma InternTextGrows(values: seq<string>, name: Option<string>)
    ensures values <= InternText(values, name)
    ensures |values| <= CAPACITY ==> |InternText(values, name)| <= CAPACITY
    ensures NoDup(values) ==> NoDup(InternText(values, name))
    ensures name.Some? && |InternText(values, name)| < CAPACITY ==> name.value in InternText(values, name)
  {
  }

  // The answer of one `intern`, in any table that came of it.
  ghost predicate Answered(values: seq<string>, name: Option<string>, id: nat) {
    name.Some? ==> AnswerRight(values, name.value, id)
  }

  ghost predicate AllAnswered(values: seq<string>, doc: Json, ids: Ids) {
    && Answered(values, Text(doc, Type), ids.typeName)
    && Answered(values, Text(doc, Ioclass), ids.ioclass)
    && Answered(values, Text(doc, Sched), ids.sched)
    && Answered(values, Text(doc, Cgroup), ids.cgroup)
    && Answered(values, Text(doc, Cpuset), ids.cpuset)
  }

  lemma SoloAnswer(values: seq<string>, name: Option<string>, later: seq<string>)
    requires |values| <= CAPACITY && InternText(values, name) <= later && |later| <= CAPACITY
    ensures Answered(later, name, InternTextId(values, name))
  {
    if name.Some? && (name.value in values || |values| < CAPACITY) {
      assert NameOf(InternedValues(values, name.value), InternedId(values, name.value)) == name;
    }
  }

  lemma TableGrows(values: seq<string>, doc: Json)
    requires NoDup(values) && |values| <= CAPACITY
    ensures values <= After1(values, doc) <= After2(values, doc) <= After3(values, doc) <= After4(values, doc) <= After5(values, doc)
    ensures NoDup(After5(values, doc)) && |After5(values, doc)| <= CAPACITY
    ensures |After5(values, doc)| < CAPACITY ==> Recorded(After5(values, doc), doc)
  {
    InternTextGrows(values, Text(doc, Type));
    InternTextGrows(After1(values, doc), Text(doc, Ioclass));
    InternTextGrows(After2(values, doc), Text(doc, Sched));
    InternTextGrows(After3(values, doc), Text(doc, Cgroup));
    InternTextGrows(After4(values, doc), Text(doc, Cpuset));
  }

  lemma SoloAnswers(values: seq<string>, doc: Json)
    requires NoDup(values) && |values| <= CAPACITY
    ensures AllAnswered(After5(values, doc), doc, SoloIds(values, doc))
  {
    TableGrows(values, doc);
    var later := After5(values, doc);
    SoloAnswer(values, Text(doc, Type), later);
    SoloAnswer(After1(values, doc), Text(doc, Ioclass), later);
    SoloAnswer(After2(values, doc), Text(doc, Sched), later);
    SoloAnswer(After3(values, doc), Text(doc, Cgroup), later);
    SoloAnswer(After4(values, doc), Text(doc, Cpuset), later);
  }

  lemma NameRight(values: seq<string>, doc: Json, key: Key, id: nat)
    requires Answered(values, Text(doc, key), id)
    ensures NameId(values, NameAttr(doc, key, id))
    ensures NameView(values, NameAttr(doc, key, id)) == SeenName(values, DocName(doc, key))
  {
  }

  lemma TypeRight(values: seq<string>, doc: Json, id: nat)
    requires Answered(values, Text(doc, Type), id)
    ensures TypeAttr(doc, id) == 0 || NameOf(values, TypeAttr(doc, id) + 1).Some?
    ensures TypeView(values, TypeAttr(doc, id)) == Seen(values, DocView(doc)).typeName
  {
  }

  // A record is well formed and reads as its document, as far as the table holds the
  // names, whenever each name got an answer that is right in that table: whoever
  // else was interning in between.
  lemma RecordRight(values: seq<string>, doc: Json, ids: Ids)
    requires AllAnswered(values, doc, ids)
    ensures Formed(values, RecordOf(doc, ids))
    ensures ViewOf(values, RecordOf(doc, ids)) == Seen(values, DocView(doc))
  {
    TypeRight(values, doc, ids.typeName);
    NameRight(values, doc, Ioclass, ids.ioclass);
    NameRight(values, doc, Sched, ids.sched);
    NameRight(values, doc, Cgroup, ids.cgroup);
    NameRight(values, doc, Cpuset, ids.cpuset);
    NumbersRight(doc);
  }

  // A record built from a document reads back as the document, with exactly the
  // names that found no room in the table reading as unusable.
  lemma FromJsonView(values: seq<string>, doc: Json)
    requires NoDup(values) && |values| <= CAPACITY
    ensures var r := FromJson(values, doc);
      && values <= r.values && NoDup(r.values) && |r.values| <= CAPACITY
      && Formed(r.values, r.rule)
      && ViewOf(r.values, r.rule) == Seen(r.values, DocView(doc))
      && (Recorded(r.values, doc) <==> ViewOf(r.values, r.rule) == DocView(doc))
      && (|r.values| < CAPACITY ==> Recorded(r.values, doc))
  {
    TableGrows(values, doc);
    SoloAnswers(values, doc);
    RecordRight(After5(values, doc), doc, SoloIds(values, doc));
    SeenIsRecorded(After5(values, doc), doc);
  }

  // ---- Well-formed records ----

  predicate NameId(values: seq<string>, id: nat) {
    id <= 1 || NameOf(values, id).Some?
  }

  predicate I32(a: Attr<int>) { a.Value? ==> -0x8000_0000 <= a.value < 0x8000_0000 }
  predicate U32(a: Attr<int>) { a.Value? ==> 0 <= a.value < 0x1_0000_0000 }

  predicate Formed(values: seq<string>, r: Rule) {
    && (r.typeName == 0 || NameOf(values, r.typeName + 1).Some?)
    && NameId(values, r.ioclass) && NameId(values, r.sched) && NameId(values, r.cgroup) && NameId(values, r.cpuset)
    && I32(r.nice) && I32(r.latencyNice) && I32(r.ionice) && I32(r.oomScoreAdj) && U32(r.rtprio)
    && (forall k :: k in r.extras ==> k.Other?)
  }

  lemma NumbersRight(doc: Json)
    ensures I32(NumberAttr(doc, Nice)) && I32(NumberAttr(doc, LatNice)) && I32(NumberAttr(doc, Ionice))
    ensures I32(NumberAttr(doc, OomScoreAdj)) && U32(UnsignedAttr(doc, Rtprio))
    ensures forall k :: k in Extras(doc) ==> k.Other?
  {
  }

  lemma InheritForms(values: seq<string>, r: Rule, base: Rule)
    requires Formed(values, r) && Formed(values, base)
    ensures Formed(values, Inherit(r, base))
    ensures ViewOf(values, Inherit(r, base)) == InheritView(ViewOf(values, r), ViewOf(values, base))
  {
  }

  // A longer table leaves the meaning of a record alone.
  lemma ViewGrows(values: seq<string>, later: seq<string>, r: Rule)
    requires Formed(values, r) && values <= later
    ensures Formed(later, r) && ViewOf(later, r) == ViewOf(values, r)
  {
  }

  // ---- Accessors, and reading a document directly ----

  datatype Settings = Settings(
    nice: Option<int>, latencyNice: Option<int>, ionice: Option<int>, oomScoreAdj: Option<int>, rtprio: Option<int>,
    ioclass: Option<string>, sched: Option<string>, cgroup: Option<string>, cpuset: Option<string>)

  function Flatten<T>(a: Attr<T>): Option<T> {
    if a.Value? then Some(a.value) else None
  }

  // What the accessors of a record report.
  function Report(v: View): Settings {
    Settings(Flatten(v.nice), Flatten(v.latencyNice), Flatten(v.ionice), Flatten(v.oomScoreAdj), Flatten(v.rtprio),
      Flatten(v.ioclass), Flatten(v.sched), Flatten(v.cgroup), Flatten(v.cpuset))
  }

  function ReadI32(doc: Json, key: Key): Option<int> {
    match Get(doc, key)
    case Some(Number(n)) => if AsI64(n).Some? then Some(AsI32(AsI64(n).value)) else None
    case _ => None
  }

  function ReadU32(doc: Json, key: Key): Option<int> {
    match Get(doc, key)
    case Some(Number(n)) => if AsU64(n).Some? then Some(AsU32(AsU64(n).value)) else None
    case _ => None
  }

  function ReadDoc(doc: Json): Settings {
    Settings(ReadI32(doc, Nice), ReadI32(doc, LatNice), ReadI32(doc, Ionice), ReadI32(doc, OomScoreAdj),
      ReadU32(doc, Rtprio), Text(doc, Ioclass), Text(doc, Sched), Text(doc, Cgroup), Text(doc, Cpuset))
  }

  function LatencyNice(s: Settings): Option<int> {
    if s.latencyNice.Some? then s.latencyNice else s.nice
  }

  // One key of a merged document: the patch's value unless it is absent, and a
  // patch that is null or of another shape leaves nothing of the target's value.
  lemma MergedKey(target: Json, patch: Json, key: Key)
    requires patch.Object?
    ensures Get(patch, key) == None ==> Get(MergePatch(target, patch), key) == Get(target, key)
    ensures Get(patch, key) == Some(Null) ==> Get(MergePatch(target, patch), key) == None
    ensures Get(patch, key).Some? && !Get(patch, key).value.Object? && !Get(patch, key).value.Null? ==>
      Get(MergePatch(target, patch), key) == Get(patch, key)
    ensures Get(patch, key).Some? && Get(patch, key).value.Object? ==>
      Get(MergePatch(target, patch), key).Some? && Get(MergePatch(target, patch), key).value.Object?
  {
    if Get(patch, key).Some? && !Get(patch, key).value.Null? {
      var base := if target.Object? then target.fields else map[];
      assert MergePatch(if key in base then base[key] else Null, patch.fields[key]).Object? == patch.fields[key].Object?;
    }
  }

  lemma NumberMerges(target: Json, patch: Json, key: Key)
    requires patch.Object?
    ensures Flatten(Over(NumberAttr(patch, key), NumberAttr(target, key))) == ReadI32(MergePatch(target, patch), key)
  {
    MergedKey(target, patch, key);
  }

  lemma UnsignedMerges(target: Json, patch: Json, key: Key)
    requires patch.Object?
    ensures Flatten(Over(UnsignedAttr(patch, key), UnsignedAttr(target, key))) == ReadU32(MergePatch(target, patch), key)
  {
    MergedKey(target, patch, key);
  }

  lemma NameMerges(target: Json, patch: Json, key: Key)
    requires patch.Object?
    ensures Flatten(Over(DocName(patch, key), DocName(target, key))) == Text(MergePatch(target, patch), key)
  {
    MergedKey(target, patch, key);
  }

  // Inheritance on records reports what the RFC 7396 merge of the documents says.
  lemma InheritanceIsMergePatch(typeDoc: Json, ruleDoc: Json)
    requires ruleDoc.Object?
    ensures Report(InheritView(DocView(ruleDoc), DocView(typeDoc))) == ReadDoc(MergePatch(typeDoc, ruleDoc))
  {
    NumberMerges(typeDoc, ruleDoc, Nice);
    NumberMerges(typeDoc, ruleDoc, LatNice);
    NumberMerges(typeDoc, ruleDoc, Ionice);
    NumberMerges(typeDoc, ruleDoc, OomScoreAdj);
    UnsignedMerges(typeDoc, ruleDoc, Rtprio);
    NameMerges(typeDoc, ruleDoc, Ioclass);
    NameMerges(typeDoc, ruleDoc, Sched);
    NameMerges(typeDoc, ruleDoc, Cgroup);
    NameMerges(typeDoc, ruleDoc, Cpuset);
  }

  // ---- The dump ----

  function JsonOfNumber(a: Attr<int>): Json {
    if a.Value? then Number(Int(a.value)) else Null
  }

  function JsonOfName(values: seq<string>, id: nat): Json {
    match NameOf(values, id)
    case Some(name) => String(name)
    case None => Null
  }

  function Declared(a: Attr<int>): Option<Json> {
    if a.Absent? then None else Some(JsonOfNumber(a))
  }

  function DeclaredName(values: seq<string>, id: nat): Option<Json> {
    if id == 0 then None else Some(JsonOfName(values, id))
  }

  // What the dump prints under a key: the value, null for one the rule gave
  // nothing usable, and nothing at all for one it did not mention.
  function Dumped(values: seq<string>, r: Rule, name: string, key: Key): Option<Json> {
    match key
    case Name => Some(String(name))
    case Type => (match TypeView(values, r.typeName) case Some(t) => Some(String(t)) case None => None)
    case Nice => Declared(r.nice)
    case LatNice => Declared(r.latencyNice)
    case Ioclass => DeclaredName(values, r.ioclass)
    case Ionice => Declared(r.ionice)
    case Sched => DeclaredName(values, r.sched)
    case Rtprio => Declared(r.rtprio)
    case OomScoreAdj => Declared(r.oomScoreAdj)
    case Cgroup => DeclaredName(values, r.cgroup)
    case Cpuset => DeclaredName(values, r.cpuset)
    case Other(_) => if key in r.extras then Some(r.extras[key]) else None
  }

  const IMPLEMENTED := {Name, Type, Nice, LatNice, Ioclass, Ionice, Sched, Rtprio, OomScoreAdj, Cgroup, Cpuset}

  function ToJson(values: seq<string>, r: Rule, name: string): Json {
    Object(map k | k in IMPLEMENTED + r.extras.Keys && Dumped(values, r, name, k).Some? ::
      Dumped(values, r, name, k).value)
  }

  lemma DumpedKey(values: seq<string>, r: Rule, name: string, key: Key)
    ensures Get(ToJson(values, r, name), key) == Dumped(values, r, name, key)
  {
    assert key.Other? || key in IMPLEMENTED;
  }

  lemma DumpedExtras(values: seq<string>, r: Rule, name: string)
    requires forall k :: k in r.extras ==> k.Other?
    ensures Extras(ToJson(values, r, name)) == r.extras
  {
    var d := ToJson(values, r, name);
    forall k: Key | k.Other? ensures k in d.fields <==> k in r.extras { DumpedKey(values, r, name, k); }
    assert Extras(d).Keys == r.extras.Keys;
  }

  lemma NumberBack(values: seq<string>, r: Rule, name: string, key: Key, a: Attr<int>)
    requires Dumped(values, r, name, key) == Declared(a)
    ensures I32(a) ==> NumberAttr(ToJson(values, r, name), key) == a
    ensures U32(a) ==> UnsignedAttr(ToJson(values, r, name), key) == a
  {
    DumpedKey(values, r, name, key);
  }

  lemma NameBack(values: seq<string>, r: Rule, name: string, key: Key, id: nat)
    requires NoDup(values) && NameId(values, id)
    requires Dumped(values, r, name, key) == DeclaredName(values, id)
    ensures InternText(values, Text(ToJson(values, r, name), key)) == values
    ensures NameAttr(ToJson(values, r, name), key, InternTextId(values, Text(ToJson(values, r, name), key))) == id
    ensures RecordedKey(values, ToJson(values, r, name), key)
  {
    DumpedKey(values, r, name, key);
  }

  lemma TypeBack(values: seq<string>, r: Rule, name: string)
    requires NoDup(values) && (r.typeName == 0 || NameOf(values, r.typeName + 1).Some?)
    ensures InternText(values, Text(ToJson(values, r, name), Type)) == values
    ensures TypeAttr(ToJson(values, r, name), InternTextId(values, Text(ToJson(values, r, name), Type))) == r.typeName
    ensures RecordedKey(values, ToJson(values, r, name), Type)
  {
    DumpedKey(values, r, name, Type);
  }

  lemma NamesBack(values: seq<string>, r: Rule, name: string)
    requires NoDup(values) && Formed(values, r)
    ensures var d := ToJson(values, r, name);
      && FromJson(values, d).values == values
      && FromJson(values, d).rule.ioclass == r.ioclass
      && FromJson(values, d).rule.sched == r.sched
      && FromJson(values, d).rule.cgroup == r.cgroup
      && FromJson(values, d).rule.cpuset == r.cpuset
      && FromJson(values, d).rule.typeName == r.typeName
      && Recorded(values, d)
  {
    TypeBack(values, r, name);
    NameBack(values, r, name, Ioclass, r.ioclass);
    NameBack(values, r, name, Sched, r.sched);
    NameBack(values, r, name, Cgroup, r.cgroup);
    NameBack(values, r, name, Cpuset, r.cpuset);
  }

  lemma NumbersBack(values: seq<string>, r: Rule, name: string)
    requires Formed(values, r)
    ensures var d := ToJson(values, r, name);
      && NumberAttr(d, Nice) == r.nice
      && NumberAttr(d, LatNice) == r.latencyNice
      && NumberAttr(d, Ionice) == r.ionice
      && NumberAttr(d, OomScoreAdj) == r.oomScoreAdj
      && UnsignedAttr(d, Rtprio) == r.rtprio
  {
    NumberBack(values, r, name, Nice, r.nice);
    NumberBack(values, r, name, LatNice, r.latencyNice);
    NumberBack(values, r, name, Ionice, r.ionice);
    NumberBack(values, r, name, Rtprio, r.rtprio);
    NumberBack(values, r, name, OomScoreAdj, r.oomScoreAdj);
  }

  // A document that agrees with a record field by field loads as that record.
  lemma FieldByField(values: seq<string>, d: Json, r: Rule)
    requires var l := FromJson(values, d);
      && l.values == values && l.rule.typeName == r.typeName
      && l.rule.ioclass == r.ioclass && l.rule.sched == r.sched && l.rule.cgroup == r.cgroup && l.rule.cpuset == r.cpuset
    requires NumberAttr(d, Nice) == r.nice && NumberAttr(d, LatNice) == r.latencyNice && NumberAttr(d, Ionice) == r.ionice
    requires NumberAttr(d, OomScoreAdj) == r.oomScoreAdj && UnsignedAttr(d, Rtprio) == r.rtprio && Extras(d) == r.extras
    ensures FromJson(values, d) == Loaded(r, values)
  {
  }

  // Loading a dumped record gives back exactly that record, ids and all, and
  // adds nothing to the name table: also when the table is full.
  lemma ReloadIsIdentity(values: seq<string>, r: Rule, name: string)
    requires NoDup(values) && Formed(values, r)
    ensures FromJson(values, ToJson(values, r, name)) == Loaded(r, values)
  {
    NamesBack(values, r, name);
    NumbersBack(values, r, name);
    DumpedExtras(values, r, name);
    FieldByField(values, ToJson(values, r, name), r);
  }

  lemma ReportOfDoc(doc: Json)
    ensures Report(DocView(doc)) == ReadDoc(doc)
  {
  }

  // A dump reads as the record it was made from.
  lemma ReadDump(values: seq<string>, r: Rule, name: string)
    requires NoDup(values) && |values| <= CAPACITY && Formed(values, r)
    ensures ReadDoc(ToJson(values, r, name)) == Report(ViewOf(values, r))
  {
    var d := ToJson(values, r, name);
    NamesBack(values, r, name);
    ReloadIsIdentity(values, r, name);
    FromJsonView(values, d);
    ReportOfDoc(d);
  }

  // Dump and reload is a fixpoint for every rule read from a document and then
  // inherited, and inheriting from the same type again changes nothing.
  lemma DumpReloadFixpoint(values: seq<string>, ruleDoc: Json, typeDoc: Json, name: string)
    requires NoDup(values) && |values| <= CAPACITY
    ensures var own := FromJson(values, ruleDoc);
      var base := FromJson(own.values, typeDoc);
      var r := Inherit(own.rule, base.rule);
      && FromJson(base.values, ToJson(base.values, r, name)) == Loaded(r, base.values)
      && Inherit(r, base.rule) == r
      && (Recorded(base.values, ruleDoc) && Recorded(base.values, typeDoc) && ruleDoc.Object? ==>
            ReadDoc(ToJson(base.values, r, name)) == ReadDoc(MergePatch(typeDoc, ruleDoc)))
  {
    var own := FromJson(values, ruleDoc);
    var base := FromJson(own.values, typeDoc);
    var r := Inherit(own.rule, base.rule);
    FromJsonView(values, ruleDoc);
    FromJsonView(own.values, typeDoc);
    ViewGrows(own.values, base.values, own.rule);
    InheritForms(base.values, own.rule, base.rule);
    ReloadIsIdentity(base.values, r, name);
    if Recorded(base.values, ruleDoc) && Recorded(base.values, typeDoc) && ruleDoc.Object? {
      assert Recorded(own.values, ruleDoc) by {
        if |own.values| >= CAPACITY { assert own.values == base.values; }
      }
      ReadDump(base.values, r, name);
      InheritanceIsMergePatch(typeDoc, ruleDoc);
    }
  }
}
