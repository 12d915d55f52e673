// The configuration file: a line parser and the printer of a fresh file.
module Config {
  import opened Common
  import opened Text

  datatype LogLevel = Trace | Debug | Info | Warn | Error | Critical

  // The fifteen options that are on or off.
  datatype Flag =
    | CheckDisksSchedulers | CgroupLoad | TypeLoad | RuleLoad | ApplyNice | ApplyLatnice | ApplyIoclass
    | ApplyIonice | ApplySched | ApplyOomScoreAdj | ApplyCgroup | ApplyCpuset | ApplyCpuWeight
    | CgroupRealtimeWorkaround | LogAppliedRule

  datatype Snapshot = Snapshot(checkFreq: nat, x3dMode: string, loglevel: LogLevel, flags: map<Flag, bool>)

  predicate Total(c: Snapshot) { forall f: Flag :: f in c.flags }

  const DEFAULT := Snapshot(60, "auto", Info, map f: Flag :: f != LogAppliedRule)

  datatype Diagnostic =
    | ZeroCheckFreq | InvalidCheckFreq(text: string) | UnknownLevel(text: string) | UnknownKey(text: string)

  // ---- Keys ----

  datatype Key = CheckFreq | X3dMode | Loglevel | Switch(flag: Flag)

  function KeyText(k: Key): string {
    match k
    case CheckFreq => "check_freq"
    case Switch(CheckDisksSchedulers) => "check_disks_schedulers"
    case Switch(CgroupLoad) => "cgroup_load"
    case Switch(TypeLoad) => "type_load"
    case Switch(RuleLoad) => "rule_load"
    case Switch(ApplyNice) => "apply_nice"
    case Switch(ApplyLatnice) => "apply_latnice"
    case Switch(ApplyIoclass) => "apply_ioclass"
    case Switch(ApplyIonice) => "apply_ionice"
    case Switch(ApplySched) => "apply_sched"
    case Switch(ApplyOomScoreAdj) => "apply_oom_score_adj"
    case Switch(ApplyCgroup) => "apply_cgroup"
    case Switch(ApplyCpuset) => "apply_cpuset"
    case Switch(ApplyCpuWeight) => "apply_cpu_weight"
    case Switch(CgroupRealtimeWorkaround) => "cgroup_realtime_workaround"
    case X3dMode => "x3d_mode"
    case Switch(LogAppliedRule) => "log_applied_rule"
    case Loglevel => "loglevel"
  }

  const KEYS: seq<Key> := [
    CheckFreq, Switch(CgroupLoad), Switch(CheckDisksSchedulers), Switch(TypeLoad), Switch(RuleLoad),
    Switch(ApplyNice), Switch(ApplyLatnice), Switch(ApplyIoclass), Switch(ApplyIonice), Switch(ApplySched),
    Switch(ApplyOomScoreAdj), Switch(ApplyCgroup), Switch(ApplyCpuset), Switch(ApplyCpuWeight),
    Switch(CgroupRealtimeWorkaround), X3dMode, Switch(LogAppliedRule), Loglevel]

  // The arms of the key match, tried in order.
  function FindKey(text: string, keys: seq<Key>): Option<Key> {
    if keys == [] then None
    else if KeyText(keys[0]) == text then Some(keys[0])
    else FindKey(text, keys[1..])
  }

  // ---- Levels ----

  function Lower(s: string): string {
    if s == "" then "" else [LowerChar(s[0])] + Lower(s[1..])
  }

  function LowerChar(c: char): char {
    if 'A' <= c <= 'Z' then (c as int + 32) as char else c
  }

  function ParseLevel(s: string): Option<LogLevel> {
    LevelOf(Lower(s))
  }

  function LevelOf(l: string): Option<LogLevel> {
    if l == "trace" then Some(Trace)
    else if l == "debug" then Some(Debug)
    else if l == "info" then Some(Info)
    else if l == "warn" then Some(Warn)
    else if l == "error" then Some(Error)
    else if l == "critical" || l == "fatal" then Some(Critical)
    else None
  }

  function LevelText(l: LogLevel): string {
    match l
    case Trace => "trace"
    case Debug => "debug"
    case Info => "info"
    case Warn => "warn"
    case Error => "error"
    case Critical => "critical"
  }

  // ---- Parsing ----

  datatype Parsed = Parsed(config: Snapshot, diagnostics: seq<Diagnostic>)

  function SetKey(c: Snapshot, k: Key, value: string): Parsed {
    match k
    case CheckFreq =>
      (match ParseU32(value)
       case Some(n) => if n == 0 then Parsed(c, [ZeroCheckFreq]) else Parsed(c.(checkFreq := n), [])
       case None => Parsed(c, [InvalidCheckFreq(value)]))
    case X3dMode => Parsed(c.(x3dMode := value), [])
    case Loglevel =>
      (match ParseLevel(value)
       case Some(l) => Parsed(c.(loglevel := l), [])
       case None => Parsed(c.(loglevel := Info), [UnknownLevel(value)]))
    case Switch(f) => Parsed(c.(flags := c.flags[f := value == "true"]), [])
  }

  function ParseLine(c: Snapshot, line: string): Parsed {
    var l := Trim(line);
    if l == "" || l[0] == '#' then Parsed(c, [])
    else match SplitOnce(l, '=')
      case None => Parsed(c, [])
      case Some((left, right)) =>
        (match FindKey(Trim(left), KEYS)
         case Some(k) => SetKey(c, k, Trim(right))
         case None => Parsed(c, [UnknownKey(Trim(left))]))
  }

  // `str::lines`, up to the carriage returns that trimming removes.
  function Lines(text: string): seq<string> {
    var pieces := Split(text, '\n');
    if pieces[|pieces| - 1] == "" then pieces[..|pieces| - 1] else pieces
  }

  function ParseLines(lines: seq<string>): Parsed {
    if lines == [] then Parsed(DEFAULT, [])
    else
      var p := ParseLines(lines[..|lines| - 1]);
      var q := ParseLine(p.config, lines[|lines| - 1]);
      Parsed(q.config, p.diagnostics + q.diagnostics)
  }

  method ParseText(text: string) returns (config: Snapshot, diagnostics: seq<Diagnostic>)
    ensures Parsed(config, diagnostics) == ParseLines(Lines(text))
  {
    config, diagnostics := DEFAULT, [];
    var lines := Lines(text);
    var i := 0;
    while i < |lines|
      invariant 0 <= i <= |lines|
      invariant Parsed(config, diagnostics) == ParseLines(lines[..i])
    {
      assert lines[..i + 1][..i] == lines[..i];
      var step := ParseLine(config, lines[i]);
      config := step.config;
      diagnostics := diagnostics + step.diagnostics;
      i := i + 1;
    }
    assert lines[..i] == lines;
  }

  // ---- Printing ----

  function BoolText(b: bool): string { if b then "true" else "false" }

  function FlagOf(c: Snapshot, f: Flag): bool { f in c.flags && c.flags[f] }

  function ValueText(c: Snapshot, k: Key): string {
    match k
    case CheckFreq => Decimal(c.checkFreq)
    case X3dMode => c.x3dMode
    case Loglevel => LevelText(c.loglevel)
    case Switch(f) => BoolText(FlagOf(c, f))
  }

  // The lines of a printed file; `apply_ioclass` has none.
  const PRINTED: seq<Key> := [
    Switch(ApplyNice), Switch(ApplySched), Switch(ApplyIonice), Switch(ApplyOomScoreAdj), Switch(ApplyLatnice),
    Switch(LogAppliedRule), Switch(CgroupLoad), Switch(TypeLoad), Switch(RuleLoad),
    Switch(CgroupRealtimeWorkaround), Switch(ApplyCgroup), Switch(ApplyCpuset), Switch(ApplyCpuWeight),
    X3dMode, Loglevel, CheckFreq, Switch(CheckDisksSchedulers)]

  const HEADER := "# Generated by ananicy-rs"

  function LineFor(c: Snapshot, k: Key): string {
    KeyText(k) + ['='] + ValueText(c, k)
  }

  function LinesFor(c: Snapshot, keys: seq<Key>): seq<string> {
    if keys == [] then [] else LinesFor(c, keys[..|keys| - 1]) + [LineFor(c, keys[|keys| - 1])]
  }

  // Each line with the newline that ends it.
  function Terminated(lines: seq<string>): string {
    if lines == [] then "" else lines[0] + ['\n'] + Terminated(lines[1..])
  }

  function ToConfigString(c: Snapshot): string {
    Terminated([HEADER] + LinesFor(c, PRINTED))
  }

  // ---- Reading back ----

  function KeyMark(s: string): (int, char, char) {
    if |s| >= 8 then (|s|, s[0], s[7]) else (|s|, ' ', ' ')
  }

  lemma KeyMarks(k: Key)
    ensures KeyMark(KeyText(k)) ==
      match k
      case CheckFreq => (10, 'c', 'r')
      case Switch(CheckDisksSchedulers) => (22, 'c', 'i')
      case Switch(CgroupLoad) => (11, 'c', 'l')
      case Switch(TypeLoad) => (9, 't', 'a')
      case Switch(RuleLoad) => (9, 'r', 'a')
      case Switch(ApplyNice) => (10, 'a', 'i')
      case Switch(ApplyLatnice) => (13, 'a', 'a')
      case Switch(ApplyIoclass) => (13, 'a', 'o')
      case Switch(ApplyIonice) => (12, 'a', 'o')
      case Switch(ApplySched) => (11, 'a', 'c')
      case Switch(ApplyOomScoreAdj) => (19, 'a', 'o')
      case Switch(ApplyCgroup) => (12, 'a', 'g')
      case Switch(ApplyCpuset) => (12, 'a', 'p')
      case Switch(ApplyCpuWeight) => (16, 'a', 'p')
      case Switch(CgroupRealtimeWorkaround) => (26, 'c', 'r')
      case X3dMode => (8, 'x', 'e')
      case Switch(LogAppliedRule) => (16, 'l', 'l')
      case Loglevel => (8, 'l', 'l')
  {
  }

  // No two keys are spelled alike.
  lemma KeyTextInjective(a: Key, b: Key)
    requires KeyText(a) == KeyText(b)
    ensures a == b
  {
    KeyMarks(a);
    KeyMarks(b);
  }

  predicate Word(c: char) { 'a' <= c <= 'z' || c == '_' || c == '3' }

  predicate AllWord(s: string) { forall c :: c in s ==> Word(c) }

  lemma LongKeysAreWords()
    ensures AllWord("cgroup_realtime_workaround")
    ensures AllWord("check_disks_schedulers")
    ensures AllWord("apply_oom_score_adj")
  {
  }

  lemma KeysAreWords(k: Key)
    ensures AllWord(KeyText(k))
  {
    LongKeysAreWords();
  }

  lemma FirstKeyChar(k: Key)
    ensures KeyText(k) != "" && Word(KeyText(k)[0]) && Word(KeyText(k)[|KeyText(k)| - 1])
  {
    KeysAreWords(k);
    KeyMarks(k);
    assert KeyText(k)[0] in KeyText(k) && KeyText(k)[|KeyText(k)| - 1] in KeyText(k);
  }

  lemma FindsKey(k: Key, keys: seq<Key>)
    requires k in keys
    ensures FindKey(KeyText(k), keys) == Some(k)
  {
    if KeyText(keys[0]) == KeyText(k) {
      KeyTextInjective(keys[0], k);
    } else {
      FindsKey(k, keys[1..]);
    }
  }

  lemma AllKeys(k: Key)
    ensures k in KEYS
    ensures k == Switch(ApplyIoclass) || k in PRINTED
  {
    match k
    case CheckFreq => assert KEYS[0] == k && PRINTED[15] == k;
    case Switch(CgroupLoad) => assert KEYS[1] == k && PRINTED[6] == k;
    case Switch(CheckDisksSchedulers) => assert KEYS[2] == k && PRINTED[16] == k;
    case Switch(TypeLoad) => assert KEYS[3] == k && PRINTED[7] == k;
    case Switch(RuleLoad) => assert KEYS[4] == k && PRINTED[8] == k;
    case Switch(ApplyNice) => assert KEYS[5] == k && PRINTED[0] == k;
    case Switch(ApplyLatnice) => assert KEYS[6] == k && PRINTED[4] == k;
    case Switch(ApplyIoclass) => assert KEYS[7] == k;
    case Switch(ApplyIonice) => assert KEYS[8] == k && PRINTED[2] == k;
    case Switch(ApplySched) => assert KEYS[9] == k && PRINTED[1] == k;
    case Switch(ApplyOomScoreAdj) => assert KEYS[10] == k && PRINTED[3] == k;
    case Switch(ApplyCgroup) => assert KEYS[11] == k && PRINTED[10] == k;
    case Switch(ApplyCpuset) => assert KEYS[12] == k && PRINTED[11] == k;
    case Switch(ApplyCpuWeight) => assert KEYS[13] == k && PRINTED[12] == k;
    case Switch(CgroupRealtimeWorkaround) => assert KEYS[14] == k && PRINTED[9] == k;
    case X3dMode => assert KEYS[15] == k && PRINTED[13] == k;
    case Switch(LogAppliedRule) => assert KEYS[16] == k && PRINTED[5] == k;
    case Loglevel => assert KEYS[17] == k && PRINTED[14] == k;
  }

  // ---- One field at a time ----

  datatype Value = OnOff(on: bool) | Count(n: nat) | Mode(text: string) | Level(level: LogLevel)

  function Field(c: Snapshot, k: Key): Value {
    match k
    case CheckFreq => Count(c.checkFreq)
    case X3dMode => Mode(c.x3dMode)
    case Loglevel => Level(c.loglevel)
    case Switch(f) => OnOff(FlagOf(c, f))
  }

  lemma SameFields(a: Snapshot, b: Snapshot)
    requires Total(a) && Total(b) && forall k :: Field(a, k) == Field(b, k)
    ensures a == b
  {
    assert Field(a, CheckFreq) == Field(b, CheckFreq) && Field(a, X3dMode) == Field(b, X3dMode);
    assert Field(a, Loglevel) == Field(b, Loglevel);
    forall f: Flag ensures a.flags[f] == b.flags[f] { assert Field(a, Switch(f)) == Field(b, Switch(f)); }
    assert a.flags == b.flags;
  }

  // A positive interval and a mode that is one trimmed line.
  predicate Printable(c: Snapshot) {
    1 <= c.checkFreq <= U32_MAX && Trimmed(c.x3dMode) && '\n' !in c.x3dMode
  }

  lemma LevelWords(l: LogLevel)
    ensures AllWord(LevelText(l)) && LevelText(l) != ""
  {
  }

  lemma LevelOfText(l: LogLevel)
    ensures LevelOf(LevelText(l)) == Some(l)
  {
  }

  lemma WordShape(s: string)
    requires AllWord(s)
    ensures Trimmed(s) && '\n' !in s && '=' !in s
  {
    if s != "" { assert s[0] in s && s[|s| - 1] in s; }
  }

  lemma LevelBack(l: LogLevel)
    ensures ParseLevel(LevelText(l)) == Some(l)
    ensures Trimmed(LevelText(l)) && '\n' !in LevelText(l)
  {
    LevelWords(l);
    LowerWord(LevelText(l));
    LevelOfText(l);
    WordShape(LevelText(l));
  }

  lemma {:induction false} LowerWord(s: string)
    requires AllWord(s)
    ensures Lower(s) == s
  {
    if s != "" {
      assert s[0] in s;
      assert forall c :: c in s[1..] ==> c in s;
      LowerWord(s[1..]);
    }
  }

  lemma ValueShape(c: Snapshot, k: Key)
    requires Printable(c)
    ensures Trimmed(ValueText(c, k)) && '\n' !in ValueText(c, k)
  {
    if k == CheckFreq {
      DecimalDigits(c.checkFreq);
      var d := Decimal(c.checkFreq);
      assert d[0] in d && d[|d| - 1] in d;
    } else if k == Loglevel {
      LevelBack(c.loglevel);
    }
  }

  // `cfg` with one field taken from `c`.
  function CopyField(cfg: Snapshot, c: Snapshot, k: Key): Snapshot {
    match k
    case CheckFreq => cfg.(checkFreq := c.checkFreq)
    case X3dMode => cfg.(x3dMode := c.x3dMode)
    case Loglevel => cfg.(loglevel := c.loglevel)
    case Switch(f) => cfg.(flags := cfg.flags[f := FlagOf(c, f)])
  }

  lemma CopiedField(cfg: Snapshot, c: Snapshot, k: Key, j: Key)
    ensures Field(CopyField(cfg, c, k), j) == if j == k then Field(c, k) else Field(cfg, j)
  {
  }

  lemma FlagBack(b: bool)
    ensures BoolText(b) == "true" <==> b
  {
  }

  // Setting a key from its printed value copies that one field, with no complaint.
  lemma SetFromPrinted(cfg: Snapshot, c: Snapshot, k: Key)
    requires Printable(c)
    ensures SetKey(cfg, k, ValueText(c, k)) == Parsed(CopyField(cfg, c, k), [])
  {
    if k == CheckFreq {
      ParseDecimal(c.checkFreq);
    } else if k == Loglevel {
      LevelBack(c.loglevel);
    } else if k.Switch? {
      FlagBack(FlagOf(c, k.flag));
    }
  }

  lemma KeyValueLine(key: string, value: string)
    requires key != "" && AllWord(key) && Trimmed(value) && '\n' !in value
    ensures var line := key + ['='] + value;
      && Trim(line) == line && line != "" && line[0] != '#' && '\n' !in line
      && SplitOnce(line, '=') == Some((key, value))
      && Trim(key) == key && Trim(value) == value
  {
    var line := key + ['='] + value;
    WordShape(key);
    assert key[0] in key && line[0] == key[0];
    assert line[|line| - 1] == if value == "" then '=' else value[|value| - 1];
    TrimOfTrimmed(line);
    SplitOnceAt(key, '=', value);
    TrimOfTrimmed(key);
    TrimOfTrimmed(value);
  }

  // A printed line sets exactly the field it was printed from.
  lemma PrintedLine(cfg: Snapshot, c: Snapshot, k: Key)
    requires Printable(c)
    ensures ParseLine(cfg, LineFor(c, k)) == Parsed(CopyField(cfg, c, k), [])
    ensures '\n' !in LineFor(c, k) && LineFor(c, k) != ""
  {
    FirstKeyChar(k);
    KeysAreWords(k);
    ValueShape(c, k);
    KeyValueLine(KeyText(k), ValueText(c, k));
    AllKeys(k);
    FindsKey(k, KEYS);
    SetFromPrinted(cfg, c, k);
  }

  // ---- The whole file ----

  lemma {:induction false} SplitTerminated(lines: seq<string>)
    requires forall i :: 0 <= i < |lines| ==> '\n' !in lines[i]
    ensures Split(Terminated(lines), '\n') == lines + [""]
  {
    if lines != [] {
      SplitTerminated(lines[1..]);
      SplitFirst(lines[0], '\n', Terminated(lines[1..]));
    }
  }

  lemma LinesOfTerminated(lines: seq<string>)
    requires forall i :: 0 <= i < |lines| ==> '\n' !in lines[i]
    ensures Lines(Terminated(lines)) == lines
  {
    SplitTerminated(lines);
  }

  lemma {:induction false} LinesForShape(c: Snapshot, keys: seq<Key>)
    requires Printable(c)
    ensures forall i :: 0 <= i < |LinesFor(c, keys)| ==> '\n' !in LinesFor(c, keys)[i]
  {
    if keys != [] {
      LinesForShape(c, keys[..|keys| - 1]);
      PrintedLine(DEFAULT, c, keys[|keys| - 1]);
    }
  }

  lemma PrintedLines(c: Snapshot)
    requires Printable(c)
    ensures Lines(ToConfigString(c)) == [HEADER] + LinesFor(c, PRINTED)
  {
    LinesForShape(c, PRINTED);
    HeaderShape();
    LinesOfTerminated([HEADER] + LinesFor(c, PRINTED));
  }

  lemma HeaderShape()
    ensures '\n' !in HEADER && Trim(HEADER) == HEADER && HEADER[0] == '#'
  {
  }

  // The defaults with the fields of `keys` taken from `c`, one after the other.
  function Copied(c: Snapshot, keys: seq<Key>): Snapshot {
    if keys == [] then DEFAULT else CopyField(Copied(c, keys[..|keys| - 1]), c, keys[|keys| - 1])
  }

  lemma CommentLine(c: Snapshot, line: string)
    requires Trim(line) == line && line != "" && line[0] == '#'
    ensures ParseLine(c, line) == Parsed(c, [])
  {
  }

  lemma ParseFirst(line: string)
    ensures ParseLines([line]) == Parsed(ParseLine(DEFAULT, line).config, ParseLine(DEFAULT, line).diagnostics)
  {
    assert [line][..0] == [];
    assert ParseLines([]) == Parsed(DEFAULT, []);
    assert [] + ParseLine(DEFAULT, line).diagnostics == ParseLine(DEFAULT, line).diagnostics;
  }

  lemma PrintedSnoc(c: Snapshot, head: string, keys: seq<Key>)
    requires keys != []
    ensures [head] + LinesFor(c, keys) == ([head] + LinesFor(c, keys[..|keys| - 1])) + [LineFor(c, keys[|keys| - 1])]
  {
  }

  lemma {:induction false} ParsePrinted(c: Snapshot, head: string, keys: seq<Key>)
    requires Printable(c) && ParseLines([head]) == Parsed(DEFAULT, [])
    ensures ParseLines([head] + LinesFor(c, keys)) == Parsed(Copied(c, keys), [])
  {
    if keys == [] {
      assert [head] + LinesFor(c, keys) == [head];
    } else {
      var n := |keys| - 1;
      ParsePrinted(c, head, keys[..n]);
      PrintedSnoc(c, head, keys);
      ParseOneMore(c, [head] + LinesFor(c, keys[..n]), keys[n]);
    }
  }

  lemma {:induction false} CopiedFields(c: Snapshot, keys: seq<Key>, k: Key)
    ensures Field(Copied(c, keys), k) == if k in keys then Field(c, k) else Field(DEFAULT, k)
  {
    if keys != [] {
      var n := |keys| - 1;
      CopiedFields(c, keys[..n], k);
      CopiedField(Copied(c, keys[..n]), c, keys[n], k);
      InSnoc(keys, k);
    }
  }

  lemma InSnoc(keys: seq<Key>, k: Key)
    requires keys != []
    ensures k in keys <==> k in keys[..|keys| - 1] || k == keys[|keys| - 1]
  {
    assert keys == keys[..|keys| - 1] + [keys[|keys| - 1]];
  }

  lemma {:induction false} CopiedTotal(c: Snapshot, keys: seq<Key>)
    ensures Total(Copied(c, keys))
  {
    if keys != [] { CopiedTotal(c, keys[..|keys| - 1]); }
  }

  lemma ParseOneMore(c: Snapshot, before: seq<string>, k: Key)
    requires Printable(c)
    ensures ParseLines(before + [LineFor(c, k)]) ==
      Parsed(CopyField(ParseLines(before).config, c, k), ParseLines(before).diagnostics)
  {
    var lines := before + [LineFor(c, k)];
    assert lines[..|lines| - 1] == before;
    PrintedLine(ParseLines(before).config, c, k);
  }

  // `c` with `apply_ioclass` at its default.
  function WithIoclass(c: Snapshot): Snapshot { c.(flags := c.flags[ApplyIoclass := true]) }

  // A printable configuration reads back as itself, with `apply_ioclass` at its default.
  lemma ReadBack(c: Snapshot)
    requires Printable(c) && Total(c)
    ensures ParseLines(Lines(ToConfigString(c))) == Parsed(WithIoclass(c), [])
  {
    PrintedLines(c);
    ParseFirst(HEADER);
    HeaderShape();
    CommentLine(DEFAULT, HEADER);
    ParsePrinted(c, HEADER, PRINTED);
    NoIoclassLine();
    forall k ensures k == Switch(ApplyIoclass) || k in PRINTED { AllKeys(k); }
    CopiedIsSelf(c, PRINTED);
  }

  lemma CopiedIsSelf(c: Snapshot, keys: seq<Key>)
    requires Total(c) && Switch(ApplyIoclass) !in keys
    requires forall k :: k == Switch(ApplyIoclass) || k in keys
    ensures Copied(c, keys) == WithIoclass(c)
  {
    CopiedTotal(c, keys);
    forall k ensures Field(Copied(c, keys), k) == Field(WithIoclass(c), k) {
      CopiedFields(c, keys, k);
    }
    SameFields(Copied(c, keys), WithIoclass(c));
  }

  lemma NoIoclassLine()
    ensures Switch(ApplyIoclass) !in PRINTED
  {
  }

  // ---- What any line means ----

  // The keys as they are spelled in a file.
  const SPELLED: seq<(string, Key)> := [
    ("check_freq", CheckFreq), ("x3d_mode", X3dMode), ("loglevel", Loglevel),
    ("check_disks_schedulers", Switch(CheckDisksSchedulers)), ("cgroup_load", Switch(CgroupLoad)),
    ("type_load", Switch(TypeLoad)), ("rule_load", Switch(RuleLoad)), ("apply_nice", Switch(ApplyNice)),
    ("apply_latnice", Switch(ApplyLatnice)), ("apply_ioclass", Switch(ApplyIoclass)), ("apply_ionice", Switch(ApplyIonice)),
    ("apply_sched", Switch(ApplySched)), ("apply_oom_score_adj", Switch(ApplyOomScoreAdj)),
    ("apply_cgroup", Switch(ApplyCgroup)), ("apply_cpuset", Switch(ApplyCpuset)),
    ("apply_cpu_weight", Switch(ApplyCpuWeight)), ("cgroup_realtime_workaround", Switch(CgroupRealtimeWorkaround)),
    ("log_applied_rule", Switch(LogAppliedRule))]

  lemma SpelledAt(i: nat)
    requires i < |SPELLED|
    ensures KeyText(SPELLED[i].1) == SPELLED[i].0
  {
  }

  lemma SpelledKeysAreFound(i: nat)
    requires i < |SPELLED|
    ensures FindKey(SPELLED[i].0, KEYS) == Some(SPELLED[i].1)
  {
    SpelledAt(i);
    AllKeys(SPELLED[i].1);
    FindsKey(SPELLED[i].1, KEYS);
  }

  // A line with a known key: a positive number is the interval, and nothing else is; a
  // mode is taken as it stands; an unknown level is the default one, and said; and a
  // switch is on for "true" alone.
  lemma LineMeans(c: Snapshot, k: Key, value: string)
    requires Trimmed(value) && '\n' !in value
    ensures var p := ParseLine(c, KeyText(k) + ['='] + value);
      match k
      case CheckFreq =>
        (match ParseU32(value)
         case Some(n) => p == if n > 0 then Parsed(c.(checkFreq := n), []) else Parsed(c, [ZeroCheckFreq])
         case None => p == Parsed(c, [InvalidCheckFreq(value)]))
      case X3dMode => p == Parsed(c.(x3dMode := value), [])
      case Loglevel =>
        if ParseLevel(value).Some? then p == Parsed(c.(loglevel := ParseLevel(value).value), [])
        else p == Parsed(c.(loglevel := Info), [UnknownLevel(value)])
      case Switch(f) => p.diagnostics == [] && p.config == c.(flags := c.flags[f := value == "true"])
  {
    FirstKeyChar(k);
    KeysAreWords(k);
    KeyValueLine(KeyText(k), value);
    AllKeys(k);
    FindsKey(k, KEYS);
  }

  // A comment, and a line without an equals sign, says and changes nothing.
  lemma OtherLinesAreIgnored(c: Snapshot, line: string, w: string, rest: string)
    requires '=' !in line && forall x :: x in w ==> IsSpace(x)
    ensures ParseLine(c, line) == Parsed(c, [])
    ensures ParseLine(c, w + "#" + rest) == Parsed(c, [])
  {
    TrimIsTrimmed(line);
    assert w + "#" + rest == w + ("#" + rest) && "#" + rest == "" + ['#'] + rest;
    TrimStartOfSpace(w, "#" + rest);
    TrimEndStops("", '#', rest);
  }

  lemma {:induction false} NoSuchKey(text: string, keys: seq<Key>)
    requires forall k :: KeyText(k) != text
    ensures FindKey(text, keys) == None
  {
    if keys != [] { NoSuchKey(text, keys[1..]); }
  }

  // A line with an unknown key is said and changes nothing.
  lemma UnknownKeyIsSaid(c: Snapshot, key: string, value: string)
    requires key != "" && AllWord(key) && Trimmed(value) && '\n' !in value && forall k :: KeyText(k) != key
    ensures ParseLine(c, key + ['='] + value) == Parsed(c, [UnknownKey(key)])
  {
    KeyValueLine(key, value);
    NoSuchKey(key, KEYS);
  }

  // Levels are read in any case, and "fatal" is another name for the highest.
  lemma LevelSpellings()
    ensures ParseLevel("fatal") == ParseLevel("FATAL") == Some(Critical)
    ensures ParseLevel("WARN") == Some(Warn) && ParseLevel("") == None
  {
    LowerFive("fatal");
    LowerFive("FATAL");
    assert Lower("WARN") == "warn" by { LowerFour("WARN"); }
  }

  lemma LowerFour(s: string)
    requires |s| == 4
    ensures Lower(s) == [LowerChar(s[0]), LowerChar(s[1]), LowerChar(s[2]), LowerChar(s[3])]
  {
    LowerAt(s);
  }

  lemma LowerFive(s: string)
    requires |s| == 5
    ensures Lower(s) == [LowerChar(s[0]), LowerChar(s[1]), LowerChar(s[2]), LowerChar(s[3]), LowerChar(s[4])]
  {
    LowerAt(s);
  }

  lemma {:induction false} LowerAt(s: string)
    ensures |Lower(s)| == |s| && forall i :: 0 <= i < |s| ==> Lower(s)[i] == LowerChar(s[i])
  {
    if s != "" { LowerAt(s[1..]); }
  }

  // An empty file leaves the defaults: everything on but the log of applied rules.
  lemma EmptyFileIsDefault(f: Flag)
    ensures var p := ParseLines(Lines(""));
      && p.diagnostics == [] && p.config.checkFreq == 60 && p.config.x3dMode == "auto" && p.config.loglevel == Info
      && f in p.config.flags && (p.config.flags[f] <==> f != LogAppliedRule)
  {
    assert Split("", '\n') == [""];
    assert Lines("") == [];
  }

  // ---- What any file can produce ----

  lemma {:induction false} SplitHasNoSeparator(s: string, sep: char, i: nat)
    requires i < |Split(s, sep)|
    ensures sep !in Split(s, sep)[i]
  {
    if s != "" {
      var rest := Split(s[1..], sep);
      if s[0] == sep {
        if i > 0 { SplitHasNoSeparator(s[1..], sep, i - 1); }
      } else {
        SplitHasNoSeparator(s[1..], sep, i);
      }
    }
  }

  lemma SetKeyPrintable(c: Snapshot, k: Key, value: string)
    requires Printable(c) && Trimmed(value) && '\n' !in value
    ensures Printable(SetKey(c, k, value).config)
  {
    if k == CheckFreq { ParseU32Bound(value); }
  }

  lemma ParseLinePrintable(c: Snapshot, line: string)
    requires Printable(c) && '\n' !in line
    ensures Printable(ParseLine(c, line).config)
  {
    var l := Trim(line);
    TrimIsTrimmed(line);
    match SplitOnce(l, '=')
    case None =>
    case Some((left, right)) =>
      TrimIsTrimmed(right);
      assert forall ch :: ch in right ==> ch in l;
      match FindKey(Trim(left), KEYS)
      case None =>
      case Some(k) => SetKeyPrintable(c, k, Trim(right));
  }

  lemma DefaultPrintable()
    ensures Printable(DEFAULT)
  {
  }

  // Whatever the file says, the interval is never zero and the mode is one trimmed line.
  lemma {:induction false} ParsedIsPrintable(lines: seq<string>)
    requires forall i :: 0 <= i < |lines| ==> '\n' !in lines[i]
    ensures Printable(ParseLines(lines).config)
  {
    DefaultPrintable();
    if lines != [] {
      var n := |lines| - 1;
      ParsedIsPrintable(lines[..n]);
      ParseLinePrintable(ParseLines(lines[..n]).config, lines[n]);
    }
  }

  // Printing and parsing is the identity, up to `apply_ioclass`, exactly for a
  // positive interval and a trimmed one-line mode.
  lemma RoundTrip(c: Snapshot)
    requires Total(c) && c.checkFreq <= U32_MAX
    ensures ParseLines(Lines(ToConfigString(c))) == Parsed(WithIoclass(c), []) <==>
      c.checkFreq >= 1 && Trimmed(c.x3dMode) && '\n' !in c.x3dMode
  {
    if Printable(c) {
      ReadBack(c);
    } else {
      var lines := Lines(ToConfigString(c));
      forall i | 0 <= i < |lines| ensures '\n' !in lines[i] {
        SplitHasNoSeparator(ToConfigString(c), '\n', i);
      }
      ParsedIsPrintable(lines);
    }
  }
}
