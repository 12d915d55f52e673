// Which files the cgroup manager may touch, over any run of its operations.
module CgroupManager {
  import opened Common
  import opened Text
  import opened CgroupFs

  // ---- Names ----

  // `Path::components`: empty and "." components vanish.
  function Meaningful(pieces: seq<string>): Path {
    if pieces == [] then []
    else (if pieces[0] == "" || pieces[0] == "." then [] else [pieces[0]]) + Meaningful(pieces[1..])
  }

  function Components(text: string): Path { Meaningful(Split(text, '/')) }

  // `PathBuf::push`: an absolute segment replaces what is there.
  function Push(base: Path, segment: string): Path {
    if segment != "" && segment[0] == '/' then Components(segment) else base + Components(segment)
  }

  function Joined(base: Path, segments: seq<string>): Path
    decreases |segments|
  {
    if segments == [] then base
    else Joined(if segments[0] == "" then base else Push(base, segments[0]), segments[1..])
  }

  // `name.contains("..")`.
  predicate HasDotDot(s: string) {
    exists i :: 0 <= i < |s| - 1 && s[i] == '.' && s[i + 1] == '.'
  }

  datatype Version = NoCgroups | V1 | V2

  datatype Manager = Manager(version: Version, mountPoint: Path, delegatedRoot: Option<Path>)

  function ResolveTargetDir(m: Manager, name: string): Option<Path> {
    if HasDotDot(name) then None
    else
      var absolute := name != "" && name[0] == '/';
      var relative := if absolute then name[1..] else name;
      match m.version
      case NoCgroups => None
      case V1 => Some(Joined(m.mountPoint, ["cpu", relative]))
      case V2 =>
        var base := if !absolute && m.delegatedRoot.Some? then m.delegatedRoot.value else m.mountPoint;
        Some(Joined(base, [relative]))
  }

  datatype Ownership = Legacy | Owned | Foreign

  // Owned means spelled as the delegated root and then something, component by
  // component: it does not look at where the path leads.
  function Classify(m: Manager, target: Path): Ownership {
    if m.version != V2 then Legacy
    else if m.delegatedRoot.Some? && m.delegatedRoot.value <= target then Owned
    else Foreign
  }

  lemma DotDotInside(s: string, i: nat)
    requires i <= |s| && HasDotDot(s[i..])
    ensures HasDotDot(s)
  {
    var k :| 0 <= k < |s[i..]| - 1 && s[i..][k] == '.' && s[i..][k + 1] == '.';
    assert s[i + k] == '.' && s[i + k + 1] == '.';
  }

  lemma {:induction false} PieceHasDotDot(s: string, k: nat)
    requires k < |Split(s, '/')| && HasDotDot(Split(s, '/')[k])
    ensures HasDotDot(s)
  {
    if s != "" {
      var rest := Split(s[1..], '/');
      if s[0] == '/' || k > 0 {
        if k > 0 {
          PieceHasDotDot(s[1..], if s[0] == '/' then k - 1 else k);
          DotDotInside(s, 1);
        }
      } else {
        FirstPiecePrefix(s);
        var p := Split(s, '/')[0];
        var i :| 0 <= i < |p| - 1 && p[i] == '.' && p[i + 1] == '.';
        assert s[i] == p[i] && s[i + 1] == p[i + 1];
      }
    }
  }

  lemma {:induction false} FirstPiecePrefix(s: string)
    ensures Split(s, '/')[0] <= s
  {
    if s != "" && s[0] != '/' {
      FirstPiecePrefix(s[1..]);
      assert s == [s[0]] + s[1..];
    }
  }

  lemma {:induction false} MeaningfulFrom(pieces: seq<string>, c: string)
    requires c in Meaningful(pieces)
    ensures c in pieces
  {
    if c != pieces[0] { MeaningfulFrom(pieces[1..], c); }
  }

  lemma ComponentsClean(s: string)
    requires !HasDotDot(s)
    ensures Clean(Components(s))
  {
    if ".." in Components(s) {
      MeaningfulFrom(Split(s, '/'), "..");
      var k :| 0 <= k < |Split(s, '/')| && Split(s, '/')[k] == "..";
      assert ".."[0] == '.' && ".."[1] == '.';
      PieceHasDotDot(s, k);
    }
  }

  lemma PushClean(base: Path, segment: string)
    requires Clean(base) && !HasDotDot(segment)
    ensures Clean(Joined(base, [segment]))
  {
    ComponentsClean(segment);
    assert [segment][1..] == [];
    var next := if segment == "" then base else Push(base, segment);
    assert Joined(base, [segment]) == next;
  }

  lemma RelativeClean(name: string)
    requires !HasDotDot(name)
    ensures name != "" ==> !HasDotDot(name[1..])
  {
    if name != "" {
      assert forall k :: 0 <= k < |name[1..]| ==> name[1..][k] == name[k + 1];
    }
  }

  // A target resolved from a name never climbs: it has no ".." component.
  lemma TargetIsClean(m: Manager, name: string)
    requires Clean(m.mountPoint) && (m.delegatedRoot.Some? ==> Clean(m.delegatedRoot.value))
    ensures ResolveTargetDir(m, name).Some? ==> Clean(ResolveTargetDir(m, name).value)
  {
    if !HasDotDot(name) {
      RelativeClean(name);
      var relative := if name != "" && name[0] == '/' then name[1..] else name;
      PushClean(m.mountPoint, "cpu");
      PushClean(Joined(m.mountPoint, ["cpu"]), relative);
      assert ["cpu", relative][1..] == [relative] && ["cpu"][1..] == [];
      PushClean(m.mountPoint, relative);
      if m.delegatedRoot.Some? { PushClean(m.delegatedRoot.value, relative); }
    }
  }

  lemma SuffixClean(p: Path, i: nat)
    requires Clean(p) && i <= |p|
    ensures Clean(p[i..])
  {
    assert forall c :: c in p[i..] ==> c in p;
  }

  lemma JoinedOne(base: Path, segment: string)
    ensures Joined(base, [segment]) == if segment == "" then base else Push(base, segment)
  {
    var segments := [segment];
    assert segments[1..] == [];
  }

  lemma SuffixOfJoin(base: Path, more: Path)
    ensures (base + more)[|base|..] == more
  {
  }

  // An owned target that came from a name goes on from the root without "..": the
  // refusal of ".." in names is what makes it so.
  lemma ResolvedGoesIn(m: Manager, name: string)
    requires m.version == V2 && Clean(m.mountPoint) && m.delegatedRoot.Some?
    requires ResolveTargetDir(m, name).Some? && m.delegatedRoot.value <= ResolveTargetDir(m, name).value
    ensures Clean(ResolveTargetDir(m, name).value[|m.delegatedRoot.value|..])
  {
    var root, target := m.delegatedRoot.value, ResolveTargetDir(m, name).value;
    var absolute := name != "" && name[0] == '/';
    var relative := if absolute then name[1..] else name;
    RelativeClean(name);
    ComponentsClean(relative);
    JoinedOne(root, relative);
    JoinedOne(m.mountPoint, relative);
    if absolute {
      PushClean(m.mountPoint, relative);
      SuffixClean(target, |root|);
    } else if relative != "" {
      assert target == root + Components(relative);
      SuffixOfJoin(root, Components(relative));
    } else {
      assert target == root;
    }
  }

  // ---- What a name resolves to ----

  // A component that names something.
  predicate Plain(c: string) { c != "" && c != "." && '/' !in c }

  predicate AllPlain(cs: Path) { forall i :: 0 <= i < |cs| ==> Plain(cs[i]) }

  lemma {:induction false} MeaningfulPlain(cs: Path)
    requires AllPlain(cs)
    ensures Meaningful(cs) == cs
  {
    if cs != [] {
      assert AllPlain(cs[1..]);
      MeaningfulPlain(cs[1..]);
      assert cs == [cs[0]] + cs[1..];
    }
  }

  lemma ComponentsOfJoin(cs: Path)
    requires AllPlain(cs)
    ensures Components(Join(cs, '/')) == cs
    ensures Components("/" + Join(cs, '/')) == cs
    ensures Join(cs, '/') == "" || Join(cs, '/')[0] != '/'
    ensures Join(cs, '/') == "" <==> cs == []
  {
    var text := Join(cs, '/');
    if cs != [] {
      SplitJoin(cs, '/');
      assert Plain(cs[0]) && text[0] == cs[0][0] && cs[0][0] in cs[0];
    }
    MeaningfulPlain(cs);
    assert ("/" + text)[1..] == text;
    assert Split("/" + text, '/') == [""] + Split(text, '/');
    assert ([""] + Split(text, '/'))[1..] == Split(text, '/');
  }

  lemma SlashAddsNoDotDot(text: string)
    requires !HasDotDot(text)
    ensures !HasDotDot("/" + text) && !HasDotDot("//" + text)
  {
    assert forall i :: 1 <= i < |"/" + text| ==> ("/" + text)[i] == text[i - 1];
    assert forall i :: 2 <= i < |"//" + text| ==> ("//" + text)[i] == text[i - 2];
  }

  lemma JoinedCpu(base: Path, relative: string)
    ensures Joined(base, ["cpu", relative]) == Joined(base + ["cpu"], [relative])
  {
    var segments := ["cpu", relative];
    assert segments[1..] == [relative];
    SplitPiece("cpu", '/');
    MeaningfulPlain(["cpu"]);
    assert Push(base, "cpu") == base + ["cpu"];
  }

  // A relative name goes on from the delegated root, or from the mount point when there
  // is none; one that starts with a slash goes on from the mount point; and on cgroup v1
  // both go on from the cpu controller.
  lemma NamesResolve(m: Manager, cs: Path)
    requires AllPlain(cs) && !HasDotDot(Join(cs, '/'))
    ensures m.version == V2 ==>
      && ResolveTargetDir(m, Join(cs, '/')) == Some((if m.delegatedRoot.Some? then m.delegatedRoot.value else m.mountPoint) + cs)
      && ResolveTargetDir(m, "/" + Join(cs, '/')) == Some(m.mountPoint + cs)
    ensures m.version == V1 ==>
      && ResolveTargetDir(m, Join(cs, '/')) == Some(m.mountPoint + ["cpu"] + cs)
      && ResolveTargetDir(m, "/" + Join(cs, '/')) == Some(m.mountPoint + ["cpu"] + cs)
    ensures m.version == NoCgroups ==> ResolveTargetDir(m, Join(cs, '/')) == ResolveTargetDir(m, "/" + Join(cs, '/')) == None
  {
    var text := Join(cs, '/');
    ComponentsOfJoin(cs);
    SlashAddsNoDotDot(text);
    assert ("/" + text)[0] == '/' && ("/" + text)[1..] == text;
    JoinedPlain(m.mountPoint, cs);
    JoinedPlain(m.mountPoint + ["cpu"], cs);
    if m.delegatedRoot.Some? { JoinedPlain(m.delegatedRoot.value, cs); }
    JoinedCpu(m.mountPoint, text);
  }

  lemma JoinedPlain(base: Path, cs: Path)
    requires AllPlain(cs)
    ensures Joined(base, [Join(cs, '/')]) == base + cs
  {
    ComponentsOfJoin(cs);
    JoinedOne(base, Join(cs, '/'));
  }

  // A name that holds ".." resolves to nothing.
  lemma DotDotIsRefused(m: Manager, a: string, b: string)
    ensures ResolveTargetDir(m, a + ".." + b) == None
  {
    var name := a + ".." + b;
    assert name[|a|] == '.' && name[|a| + 1] == '.';
  }

  // Only one leading slash is taken off, so a name with two leaves the mount point.
  lemma TwoSlashesLeaveTheMount(m: Manager, cs: Path)
    requires m.version == V2 && AllPlain(cs) && !HasDotDot(Join(cs, '/'))
    ensures ResolveTargetDir(m, "//" + Join(cs, '/')) == Some(cs)
  {
    var text := Join(cs, '/');
    ComponentsOfJoin(cs);
    SlashAddsNoDotDot(text);
    assert ("//" + text)[0] == '/' && ("//" + text)[1..] == "/" + text;
    JoinedOne(m.mountPoint, "/" + text);
  }

  // ---- Where an operation may reach ----

  const SUBTREE_CONTROL := "cgroup.subtree_control"
  const CPU_MAX := "cpu.max"
  const PROCS := "cgroup.procs"

  // Where the delegated root is.
  function Region(m: Manager): Option<Path> {
    match m.delegatedRoot
    case None => None
    case Some(root) => Some(Walk(root))
  }

  // The root exists and stays a directory, so a run can go on.
  ghost predicate Stands(m: Manager, nodes: Nodes) {
    && Rooted(nodes) && Clean(m.mountPoint)
    && (m.delegatedRoot.Some? ==> Found(nodes, m.delegatedRoot.value) && IsDir(nodes, Walk(m.delegatedRoot.value)))
  }

  lemma StillStands(m: Manager, before: Nodes, after: Nodes)
    requires Stands(m, before) && Rooted(after) && Grown(before, after)
    ensures Stands(m, after)
  {
    if m.delegatedRoot.Some? { FoundGrows(before, after, m.delegatedRoot.value); }
  }

  // A target that counts as owned and leads out of the root.
  predicate Strays(m: Manager, target: Path) {
    Classify(m, target) == Owned && !(Walk(m.delegatedRoot.value) <= Walk(target))
  }

  function StrayFile(m: Manager, target: Path, file: string): set<Path> {
    if Strays(m, target) then {Walk(target) + [file]} else {}
  }

  lemma ResolvedNeverStrays(m: Manager, name: string)
    requires m.version == V2 && Clean(m.mountPoint) && ResolveTargetDir(m, name).Some?
    ensures !Strays(m, ResolveTargetDir(m, name).value)
  {
    var target := ResolveTargetDir(m, name).value;
    if Classify(m, target) == Owned {
      var root := m.delegatedRoot.value;
      ResolvedGoesIn(m, name);
      assert target == root + target[|root|..];
      WalkClean(root, target[|root|..]);
    }
  }

  lemma FileOf(target: Path, file: string)
    requires file != ".."
    ensures Walk(target + [file]) == Walk(target) + [file]
  {
    WalkSnoc(target, file);
  }

  // ---- The operations, on cgroup v2 ----

  function ControlFile(target: Path): Path
    requires target != []
  {
    target[..|target| - 1] + [SUBTREE_CONTROL]
  }

  // The control file of the parent, when the target is the root itself.
  function ParentFile(m: Manager, target: Path): set<Path> {
    if m.delegatedRoot == Some(target) && target != [] then {Walk(ControlFile(target))} else {}
  }

  function EnableAttempts(nodes: Nodes, target: Path): seq<Attempt> {
    if target == [] then [] else WriteIfThere(nodes, ControlFile(target), "+cpu\n")
  }

  // What creating a cgroup asks for: the controller on the parent, then the directory.
  function EnsureAttempts(m: Manager, nodes: Nodes, name: string): seq<Attempt> {
    match ResolveTargetDir(m, name)
    case None => []
    case Some(target) =>
      if Classify(m, target) != Owned then []
      else EnableAttempts(nodes, target) + if Found(nodes, target) then [] else [Made(Walk(target))]
  }

  lemma ControlInside(root: Path, target: Path)
    requires root <= target && root != target && Clean(target[|root|..])
    ensures Walk(root) <= Walk(ControlFile(target))
  {
    var rest := target[|root|..|target| - 1];
    assert target[..|target| - 1] == root + rest;
    assert Clean(rest) by { assert forall c :: c in rest ==> c in target[|root|..]; }
    WalkClean(root, rest);
    FileOf(root + rest, SUBTREE_CONTROL);
    LongerPrefix(Walk(root), rest, SUBTREE_CONTROL);
  }

  lemma LongerPrefix(p: Path, q: Path, c: string)
    ensures p <= p + q + [c]
  {
  }

  method EnableCpu(fs: FileSystem, m: Manager, target: Path)
    requires m.version == V2 && Stands(m, fs.nodes) && Classify(m, target) == Owned
    requires Clean(target[|m.delegatedRoot.value|..])
    modifies fs
    ensures Stands(m, fs.nodes) && SameShape(old(fs.nodes), fs.nodes)
    ensures Framed(Region(m), old(fs.nodes), fs.nodes, ParentFile(m, target))
    ensures fs.attempts == old(fs.attempts) + EnableAttempts(old(fs.nodes), target)
  {
    if target != [] {
      var control := ControlFile(target);
      if Found(fs.nodes, control) {
        ghost var before := fs.nodes;
        var _ := fs.WriteExisting(control, "+cpu\n");
        StillStands(m, before, fs.nodes);
        if Opens(before, control) {
          if target != m.delegatedRoot.value { ControlInside(m.delegatedRoot.value, target); }
          WriteFramed(Region(m), before, fs.nodes, Walk(control), ParentFile(m, target));
        }
      }
    }
  }

  // Creates a cgroup, but only inside the delegated root.
  method EnsureChild(fs: FileSystem, m: Manager, name: string) returns (r: Option<Path>)
    requires m.version == V2 && Stands(m, fs.nodes)
    modifies fs
    ensures Stands(m, fs.nodes)
    ensures Framed(Region(m), old(fs.nodes), fs.nodes, EnsureFile(m, name))
    ensures r.Some? ==> r == ResolveTargetDir(m, name) && Classify(m, r.value) == Owned && Found(fs.nodes, r.value)
    ensures m.delegatedRoot == None ==> r == None && fs.nodes == old(fs.nodes)
    ensures fs.attempts == old(fs.attempts) + EnsureAttempts(m, old(fs.nodes), name)
  {
    var resolved := ResolveTargetDir(m, name);
    if resolved == None {
      return None;
    }
    var target := resolved.value;
    if Classify(m, target) != Owned {
      return None;
    }
    ResolvedGoesIn(m, name);
    var ok := EnsureTarget(fs, m, target);
    return if ok then Some(target) else None;
  }

  // The controller on the parent, and then the target if it is missing.
  method EnsureTarget(fs: FileSystem, m: Manager, target: Path) returns (ok: bool)
    requires m.version == V2 && Stands(m, fs.nodes) && Classify(m, target) == Owned
    requires Clean(target[|m.delegatedRoot.value|..])
    modifies fs
    ensures Stands(m, fs.nodes) && Framed(Region(m), old(fs.nodes), fs.nodes, ParentFile(m, target))
    ensures fs.attempts ==
      old(fs.attempts) + (EnableAttempts(old(fs.nodes), target) + if Found(old(fs.nodes), target) then [] else [Made(Walk(target))])
    ensures ok ==> Found(fs.nodes, target)
  {
    EnableCpu(fs, m, target);
    ghost var between := fs.nodes;
    SameOpens(old(fs.nodes), between, target);
    if Found(fs.nodes, target) {
      return true;
    }
    ok := MakeTarget(fs, m, target);
    FramedThen(Region(m), old(fs.nodes), between, fs.nodes, ParentFile(m, target));
  }

  // Makes a missing target that goes on from the root without "..".
  method MakeTarget(fs: FileSystem, m: Manager, target: Path) returns (ok: bool)
    requires m.version == V2 && Stands(m, fs.nodes) && Classify(m, target) == Owned
    requires Clean(target[|m.delegatedRoot.value|..])
    modifies fs
    ensures Stands(m, fs.nodes) && Framed(Region(m), old(fs.nodes), fs.nodes, {})
    ensures fs.attempts == old(fs.attempts) + [Made(Walk(target))]
    ensures ok ==> Found(fs.nodes, target)
  {
    ok := fs.CreateDirAll(target);
    StillStands(m, old(fs.nodes), fs.nodes);
    CreatedInside(m.delegatedRoot.value, old(fs.nodes), fs.nodes, target);
  }

  lemma FramedThen(region: Option<Path>, a: Nodes, b: Nodes, c: Nodes, extra: set<Path>)
    requires Framed(region, a, b, extra) && Framed(region, b, c, {})
    ensures Framed(region, a, c, extra)
  {
    FramedTransitive(region, a, b, c, extra, {});
    assert extra + {} == extra;
  }

  function EnsureFile(m: Manager, name: string): set<Path> {
    match ResolveTargetDir(m, name)
    case None => {}
    case Some(target) => ParentFile(m, target)
  }

  function OwnedAttempts(m: Manager, nodes: Nodes, target: Path, file: string, text: string): seq<Attempt> {
    if Classify(m, target) == Owned then WriteIfThere(nodes, target + [file], text) else []
  }

  // Writes one control file of a target that counts as owned.
  method WriteOwned(fs: FileSystem, m: Manager, target: Path, file: string, text: string) returns (ok: bool)
    requires m.version == V2 && Stands(m, fs.nodes) && file != ".."
    modifies fs
    ensures Stands(m, fs.nodes) && SameShape(old(fs.nodes), fs.nodes)
    ensures Framed(Region(m), old(fs.nodes), fs.nodes, StrayFile(m, target, file))
    ensures ok ==> Classify(m, target) == Owned && Found(fs.nodes, target + [file])
    ensures ok ==> Walk(target) + [file] in fs.nodes && fs.nodes[Walk(target) + [file]] == File(text)
    ensures fs.attempts == old(fs.attempts) + OwnedAttempts(m, old(fs.nodes), target, file, text)
    ensures OwnedAttempts(m, old(fs.nodes), target, file, text) == [] ==> fs.nodes == old(fs.nodes)
  {
    if Classify(m, target) == Foreign {
      return false;
    }
    ghost var before := fs.nodes;
    FileOf(target, file);
    ok := fs.WriteExisting(target + [file], text);
    StillStands(m, before, fs.nodes);
    SameOpens(before, fs.nodes, target + [file]);
    if Opens(before, target + [file]) {
      WriteFramed(Region(m), before, fs.nodes, Walk(target) + [file], StrayFile(m, target, file));
    }
  }

  function MoveAttempts(m: Manager, nodes: Nodes, target: Path, tgid: Option<nat>, before: Option<nat>): seq<Attempt> {
    if !Found(nodes, target) || tgid == None || before == None then []
    else OwnedAttempts(m, nodes, target, PROCS, Decimal(tgid.value) + "\n")
  }

  // Moves a process; `tgid` and the start times are what procfs answered.
  method MovePid(fs: FileSystem, m: Manager, target: Path, tgid: Option<nat>, before: Option<nat>, after: Option<nat>)
    returns (ok: bool)
    requires m.version == V2 && Stands(m, fs.nodes)
    modifies fs
    ensures Stands(m, fs.nodes) && Framed(Region(m), old(fs.nodes), fs.nodes, StrayFile(m, target, PROCS))
    ensures ok ==> tgid.Some? && before.Some? && before == after && Classify(m, target) == Owned
    ensures ok ==> Walk(target) + [PROCS] in fs.nodes && fs.nodes[Walk(target) + [PROCS]] == File(Decimal(tgid.value) + "\n")
    ensures fs.attempts == old(fs.attempts) + MoveAttempts(m, old(fs.nodes), target, tgid, before)
    ensures MoveAttempts(m, old(fs.nodes), target, tgid, before) == [] ==> fs.nodes == old(fs.nodes)
  {
    if Classify(m, target) == Foreign || !Found(fs.nodes, target) || tgid == None || before == None {
      return false;
    }
    ok := WriteOwned(fs, m, target, PROCS, Decimal(tgid.value) + "\n");
    ok := ok && before == after;
  }

  const U64_MAX: nat := 0xFFFF_FFFF_FFFF_FFFF
  const V2_PERIOD_US: nat := 100_000

  function SaturatingMul(a: nat, b: nat): nat { if a * b > U64_MAX then U64_MAX else a * b }

  // `period * cores * quota / 100` with a quota of at most one hundred per cent.
  function BandwidthUs(cores: nat, quota: nat, period: nat): nat {
    SaturatingMul(SaturatingMul(period, cores), if quota < 100 then quota else 100) / 100
  }

  lemma MulMonotone(x: nat, y: nat, z: nat)
    requires x <= y
    ensures x * z <= y * z
  {
  }

  // On any machine whose product fits 64 bits the bandwidth is exact: a quota of
  // one hundred per cent is the whole machine.
  lemma BandwidthExact(cores: nat, quota: nat, period: nat)
    requires quota <= 100 && period * cores * 100 <= U64_MAX
    ensures BandwidthUs(cores, quota, period) == period * cores * quota / 100
    ensures quota == 100 ==> BandwidthUs(cores, quota, period) == period * cores
  {
    var p := period * cores;
    MulMonotone(quota, 100, p);
    assert quota * p == p * quota;
    assert p <= U64_MAX;
  }

  // A quota past one hundred per cent is one hundred, and the product never wraps.
  lemma BandwidthIsCapped(cores: nat, quota: nat, period: nat)
    ensures quota >= 100 ==> BandwidthUs(cores, quota, period) == BandwidthUs(cores, 100, period)
    ensures BandwidthUs(cores, quota, period) <= U64_MAX / 100
  {
  }

  method SetCpuMax(fs: FileSystem, m: Manager, target: Path, cores: nat, quota: nat) returns (ok: bool)
    requires m.version == V2 && Stands(m, fs.nodes)
    modifies fs
    ensures Stands(m, fs.nodes) && SameShape(old(fs.nodes), fs.nodes)
    ensures Framed(Region(m), old(fs.nodes), fs.nodes, StrayFile(m, target, CPU_MAX))
    ensures ok ==> Classify(m, target) == Owned && Walk(target) + [CPU_MAX] in fs.nodes
    ensures ok ==> fs.nodes[Walk(target) + [CPU_MAX]] == File(MaxText(cores, quota))
    ensures fs.attempts == old(fs.attempts) + OwnedAttempts(m, old(fs.nodes), target, CPU_MAX, MaxText(cores, quota))
  {
    ok := WriteOwned(fs, m, target, CPU_MAX, MaxText(cores, quota));
  }

  function MaxText(cores: nat, quota: nat): string {
    Decimal(BandwidthUs(cores, quota, V2_PERIOD_US)) + " " + Decimal(V2_PERIOD_US) + "\n"
  }

  function ClampWeight(weight: nat): nat { if weight < 1 then 1 else if weight > 10000 then 10000 else weight }

  function WeightText(weight: nat): string { Decimal(ClampWeight(weight)) + "\n" }

  // Writes the weight wherever the file exists, owned or not.
  method SetCpuWeight(fs: FileSystem, m: Manager, target: Path, weight: nat) returns (ok: bool)
    requires m.version == V2 && Stands(m, fs.nodes)
    modifies fs
    ensures Stands(m, fs.nodes) && Framed(Region(m), old(fs.nodes), fs.nodes, {})
    ensures ok ==> Walk(target) + [CPU_WEIGHT] in fs.nodes && fs.nodes[Walk(target) + [CPU_WEIGHT]] == File(WeightText(weight))
    ensures fs.attempts == old(fs.attempts) + WriteIfThere(old(fs.nodes), target + [CPU_WEIGHT], WeightText(weight))
  {
    ghost var before := fs.nodes;
    var file := target + [CPU_WEIGHT];
    FileOf(target, CPU_WEIGHT);
    ok := fs.WriteExisting(file, WeightText(weight));
    StillStands(m, before, fs.nodes);
    if Opens(before, file) {
      WriteFramed(Region(m), before, fs.nodes, Walk(file), {});
    }
  }

  // What is written: the microseconds of each hundred milliseconds, and a legal weight.
  lemma QuotaText(cores: nat, quota: nat)
    requires quota <= 100 && V2_PERIOD_US * cores * 100 <= U64_MAX
    ensures MaxText(cores, quota) == Decimal(1000 * (cores * quota)) + " " + Decimal(100_000) + "\n"
  {
    BandwidthExact(cores, quota, V2_PERIOD_US);
    var n := cores * quota;
    assert V2_PERIOD_US * cores * quota == 100 * (1000 * n);
  }

  lemma WeightTextIsClamped(weight: nat)
    ensures WeightText(weight) == Decimal(if weight == 0 then 1 else if weight <= 10000 then weight else 10000) + "\n"
  {
  }

  // ---- Any run ----

  // The manager's own operations, on any name and any target, and what the daemon
  // makes of them: a `.cgroups` rule, a rule's `cgroup`, and the weight a nice value
  // implies for the cgroup a process is in.
  datatype Op =
    | Ensure(name: string)
    | MoveTo(target: Path, tgid: Option<nat>, before: Option<nat>, after: Option<nat>)
    | MaxAt(target: Path, cores: nat, percent: nat)
    | WeightAt(target: Path, value: nat)
    | CreateCgroup(name: string, cores: nat, quota: Option<nat>, weight: Option<nat>)
    | AddPid(name: string, tgid: Option<nat>, before: Option<nat>, after: Option<nat>)
    | WeightFor(name: string, value: nat)

  // The files outside the root, other than `cpu.weight`, that an operation may change:
  // the parent's control file for one that ensures the root itself, and the file of a
  // target that strays.
  function OpFiles(m: Manager, op: Op): set<Path> {
    match op
    case Ensure(name) => EnsureFile(m, name)
    case MoveTo(target, _, _, _) => StrayFile(m, target, PROCS)
    case MaxAt(target, _, _) => StrayFile(m, target, CPU_MAX)
    case _ => {}
  }

  // The quota and then the weight of a `.cgroups` rule.
  function SettingAttempts(m: Manager, nodes: Nodes, target: Path, op: Op): seq<Attempt>
    requires op.CreateCgroup?
  {
    (if op.quota.Some? then OwnedAttempts(m, nodes, target, CPU_MAX, MaxText(op.cores, op.quota.value)) else []) +
    if op.weight.Some? then WriteIfThere(nodes, target + [CPU_WEIGHT], WeightText(op.weight.value)) else []
  }

  // Everything one operation asks of the file system, up to the settings of a
  // cgroup that it creates.
  function OpAttempts(m: Manager, nodes: Nodes, op: Op): seq<Attempt> {
    match op
    case Ensure(name) => EnsureAttempts(m, nodes, name)
    case MoveTo(target, tgid, before, _) => MoveAttempts(m, nodes, target, tgid, before)
    case MaxAt(target, cores, percent) => OwnedAttempts(m, nodes, target, CPU_MAX, MaxText(cores, percent))
    case WeightAt(target, value) => WriteIfThere(nodes, target + [CPU_WEIGHT], WeightText(value))
    case CreateCgroup(name, _, _, _) =>
      (match ResolveTargetDir(m, name)
       case None => []
       case Some(target) =>
         if Found(nodes, target) then SettingAttempts(m, nodes, target, op) else EnsureAttempts(m, nodes, name))
    case AddPid(name, tgid, before, _) =>
      (match ResolveTargetDir(m, name)
       case None => []
       case Some(target) => MoveAttempts(m, nodes, target, tgid, before))
    case WeightFor(name, value) =>
      (match ResolveTargetDir(m, name)
       case None => []
       case Some(target) => WriteIfThere(nodes, target + [CPU_WEIGHT], WeightText(value)))
  }

  // The settings that follow a creation, on the file system it left.
  function AfterCreation(m: Manager, op: Op, created: Option<Nodes>): seq<Attempt> {
    if op.CreateCgroup? && created.Some? && ResolveTargetDir(m, op.name).Some?
    then SettingAttempts(m, created.value, ResolveTargetDir(m, op.name).value, op)
    else []
  }

  method ApplySettings(fs: FileSystem, m: Manager, target: Path, op: Op)
    requires m.version == V2 && Stands(m, fs.nodes) && op.CreateCgroup? && !Strays(m, target)
    modifies fs
    ensures Stands(m, fs.nodes) && Framed(Region(m), old(fs.nodes), fs.nodes, {})
    ensures fs.attempts == old(fs.attempts) + SettingAttempts(m, old(fs.nodes), target, op)
  {
    if op.quota.Some? {
      var _ := SetCpuMax(fs, m, target, op.cores, op.quota.value);
      SameOpens(old(fs.nodes), fs.nodes, target + [CPU_WEIGHT]);
    }
    ghost var between := fs.nodes;
    if op.weight.Some? {
      var _ := SetCpuWeight(fs, m, target, op.weight.value);
      FramedThen(Region(m), old(fs.nodes), between, fs.nodes, {});
    }
  }

  // A `.cgroups` rule; `created` is the file system right after a creation.
  method PerformCreate(fs: FileSystem, m: Manager, op: Op) returns (ghost created: Option<Nodes>)
    requires m.version == V2 && Stands(m, fs.nodes) && op.CreateCgroup?
    modifies fs
    ensures Stands(m, fs.nodes) && Framed(Region(m), old(fs.nodes), fs.nodes, {})
    ensures fs.attempts == old(fs.attempts) + OpAttempts(m, old(fs.nodes), op) + AfterCreation(m, op, created)
    ensures created.Some? ==>
      && ResolveTargetDir(m, op.name).Some?
      && Found(created.value, ResolveTargetDir(m, op.name).value)
      && !Found(old(fs.nodes), ResolveTargetDir(m, op.name).value)
  {
    created := None;
    var target := ResolveTargetDir(m, op.name);
    if target.Some? { ResolvedNeverStrays(m, op.name); }
    if target == None || !Found(fs.nodes, target.value) {
      assert EnsureFile(m, op.name) == {};
      target := EnsureChild(fs, m, op.name);
      if target == None {
        return;
      }
      created := Some(fs.nodes);
    }
    ghost var between := fs.nodes;
    ApplySettings(fs, m, target.value, op);
    FramedThen(Region(m), old(fs.nodes), between, fs.nodes, {});
  }

  method Perform(fs: FileSystem, m: Manager, op: Op) returns (ghost created: Option<Nodes>)
    requires m.version == V2 && Stands(m, fs.nodes)
    modifies fs
    ensures Stands(m, fs.nodes) && Framed(Region(m), old(fs.nodes), fs.nodes, OpFiles(m, op))
    ensures fs.attempts == old(fs.attempts) + OpAttempts(m, old(fs.nodes), op) + AfterCreation(m, op, created)
    ensures created.Some? ==> op.CreateCgroup?
  {
    created := None;
    match op {
      case Ensure(name) =>
        var _ := EnsureChild(fs, m, name);
      case MoveTo(target, tgid, before, after) =>
        var _ := MovePid(fs, m, target, tgid, before, after);
      case MaxAt(target, cores, percent) =>
        var _ := SetCpuMax(fs, m, target, cores, percent);
      case WeightAt(target, value) =>
        var _ := SetCpuWeight(fs, m, target, value);
      case CreateCgroup(_, _, _, _) =>
        created := PerformCreate(fs, m, op);
      case AddPid(name, tgid, before, after) =>
        var target := ResolveTargetDir(m, name);
        if target.Some? && Found(fs.nodes, target.value) {
          ResolvedNeverStrays(m, name);
          var _ := MovePid(fs, m, target.value, tgid, before, after);
        }
      case WeightFor(name, value) =>
        var target := ResolveTargetDir(m, name);
        if target.Some? {
          var _ := SetCpuWeight(fs, m, target.value, value);
        }
    }
  }

  // The files any of the operations may change outside the root.
  function RunFiles(m: Manager, ops: seq<Op>): set<Path> {
    if ops == [] then {} else RunFiles(m, ops[..|ops| - 1]) + OpFiles(m, ops[|ops| - 1])
  }

  lemma OneMore(m: Manager, ops: seq<Op>, i: nat)
    requires i < |ops|
    ensures RunFiles(m, ops[..i + 1]) == RunFiles(m, ops[..i]) + OpFiles(m, ops[i])
  {
    assert ops[..i + 1][..i] == ops[..i];
  }

  // Over any run on cgroup v2, on any names and any targets: outside the place of the
  // delegated root nothing changes but the contents of files that were already there,
  // and of those only `cpu.weight` files, the control file of the root's parent if an
  // operation ensures the root itself, and the file of a target that strays.  With no
  // delegated root, only existing `cpu.weight` files can change.
  method RunAll(fs: FileSystem, m: Manager, ops: seq<Op>)
    requires m.version == V2 && Stands(m, fs.nodes)
    modifies fs
    ensures Stands(m, fs.nodes) && Framed(Region(m), old(fs.nodes), fs.nodes, RunFiles(m, ops))
    ensures m.delegatedRoot == None ==> Framed(None, old(fs.nodes), fs.nodes, {})
  {
    var i := 0;
    while i < |ops|
      invariant 0 <= i <= |ops| && Stands(m, fs.nodes)
      invariant Framed(Region(m), old(fs.nodes), fs.nodes, RunFiles(m, ops[..i]))
    {
      ghost var between := fs.nodes;
      ghost var _ := Perform(fs, m, ops[i]);
      FramedTransitive(Region(m), old(fs.nodes), between, fs.nodes, RunFiles(m, ops[..i]), OpFiles(m, ops[i]));
      OneMore(m, ops, i);
      i := i + 1;
    }
    assert ops[..i] == ops;
    if m.delegatedRoot == None { NoRootNoFiles(m, ops); }
  }

  lemma {:induction false} NoRootNoFiles(m: Manager, ops: seq<Op>)
    requires m.delegatedRoot == None
    ensures RunFiles(m, ops) == {}
  {
    if ops != [] {
      NoRootNoFiles(m, ops[..|ops| - 1]);
      var op := ops[|ops| - 1];
      if op.Ensure? && ResolveTargetDir(m, op.name).Some? { assert ParentFile(m, ResolveTargetDir(m, op.name).value) == {}; }
    }
  }

  // An operation whose targets go on from the root, if they are spelled with it,
  // without "..".
  predicate Tame(m: Manager, op: Op) {
    op.MoveTo? || op.MaxAt? ==> Classify(m, op.target) == Owned ==> Clean(op.target[|m.delegatedRoot.value|..])
  }

  // A run of tame operations that never ensures the root changes nothing outside it
  // but `cpu.weight` files.
  lemma {:induction false} TameRunsStayInside(m: Manager, ops: seq<Op>)
    requires forall i :: 0 <= i < |ops| ==> Tame(m, ops[i]) && !(ops[i].Ensure? && ResolveTargetDir(m, ops[i].name) == m.delegatedRoot)
    ensures RunFiles(m, ops) == {}
  {
    if ops != [] {
      var n := |ops| - 1;
      TameRunsStayInside(m, ops[..n]);
      TameOp(m, ops[n]);
    }
  }

  // Such is every run of the daemon, which names its cgroups and never ensures one
  // that exists.
  lemma DaemonSparesTheParent(m: Manager, ops: seq<Op>)
    requires forall i :: 0 <= i < |ops| ==> ops[i].CreateCgroup? || ops[i].AddPid? || ops[i].WeightFor?
    ensures RunFiles(m, ops) == {}
  {
    TameRunsStayInside(m, ops);
  }

  lemma TameOp(m: Manager, op: Op)
    requires Tame(m, op) && !(op.Ensure? && ResolveTargetDir(m, op.name) == m.delegatedRoot)
    ensures OpFiles(m, op) == {}
  {
    if op.MoveTo? || op.MaxAt? { CleanNeverStrays(m, op.target); }
  }

  lemma CleanNeverStrays(m: Manager, target: Path)
    requires Classify(m, target) == Owned ==> Clean(target[|m.delegatedRoot.value|..])
    ensures !Strays(m, target)
  {
    if Classify(m, target) == Owned {
      var root := m.delegatedRoot.value;
      assert target == root + target[|root|..];
      WalkClean(root, target[|root|..]);
    }
  }

  // With a delegated root every relative name is owned, and moving a process to one that
  // exists asks for exactly the write to its `cgroup.procs` below the root.
  lemma RelativeNamesAreMovedTo(m: Manager, nodes: Nodes, cs: Path, tgid: nat, start: nat, after: Option<nat>)
    requires m.version == V2 && m.delegatedRoot.Some? && Stands(m, nodes)
    requires AllPlain(cs) && !HasDotDot(Join(cs, '/'))
    requires Found(nodes, m.delegatedRoot.value + cs) && Opens(nodes, m.delegatedRoot.value + cs + [PROCS])
    ensures Classify(m, m.delegatedRoot.value + cs) == Owned
    ensures OpAttempts(m, nodes, AddPid(Join(cs, '/'), Some(tgid), Some(start), after)) ==
      [Wrote(Walk(m.delegatedRoot.value) + cs + [PROCS], Decimal(tgid) + "\n")]
  {
    var root := m.delegatedRoot.value;
    NamesResolve(m, cs);
    ResolvedGoesIn(m, Join(cs, '/'));
    SuffixOfJoin(root, cs);
    WalkClean(root, cs);
    FileOf(root + cs, PROCS);
  }

  // The condition is exact.  A write to a target that counts as owned is asked for
  // wherever the path leads, and lands inside the root if and only if that is at or
  // below where the root is.
  lemma WriteLandsWhereTheTargetLeads(m: Manager, nodes: Nodes, target: Path, file: string, text: string)
    requires m.version == V2 && Stands(m, nodes) && Classify(m, target) == Owned && file != ".."
    requires Opens(nodes, target + [file])
    ensures OwnedAttempts(m, nodes, target, file, text) == [Wrote(Walk(target) + [file], text)]
    ensures Mine(Region(m), Walk(target) + [file]) <==> Walk(m.delegatedRoot.value) <= Walk(target)
  {
    FileOf(target, file);
    PrefixSnoc(Walk(m.delegatedRoot.value), Walk(target), file);
  }

  lemma PrefixSnoc(p: Path, q: Path, c: string)
    ensures p <= q + [c] <==> p <= q || p == q + [c]
  {
    assert (q + [c])[..|q| + 1] == q + [c];
    assert |p| <= |q| ==> (q + [c])[..|p|] == q[..|p|];
  }

  // And it fails: a target spelled below the root that leads beside it.
  const ROOT_A: Path := ["sys", "a"]
  const BESIDE: Path := ["sys", "a", "..", "b"]
  const BESIDE_PROCS: Path := ["sys", "b", PROCS]

  lemma BesideLeadsOut()
    ensures Walk(ROOT_A) == ROOT_A && Walk(ROOT_A + [".."]) == ["sys"] && Walk(BESIDE) == ["sys", "b"]
  {
    WalkClean([], ROOT_A);
    assert [] + ROOT_A == ROOT_A && Walk([]) + ROOT_A == ROOT_A;
    WalkSnoc(ROOT_A, "..");
    WalkSnoc(ROOT_A + [".."], "b");
    assert BESIDE == (ROOT_A + [".."]) + ["b"];
  }

  lemma OwnedTargetCanStray(m: Manager, nodes: Nodes, tgid: nat, start: nat)
    requires m == Manager(V2, ["sys"], Some(ROOT_A)) && Rooted(nodes)
    requires IsDir(nodes, ROOT_A) && IsFile(nodes, BESIDE_PROCS)
    ensures Classify(m, BESIDE) == Owned
    ensures OpAttempts(m, nodes, MoveTo(BESIDE, Some(tgid), Some(start), Some(start))) == [Wrote(BESIDE_PROCS, Decimal(tgid) + "\n")]
    ensures !Mine(Region(m), BESIDE_PROCS)
  {
    BesideLeadsOut();
    BesideIsFound(nodes);
    assert BESIDE[..2] == ROOT_A;
    FileOf(BESIDE, PROCS);
    assert Walk(BESIDE) + [PROCS] == BESIDE_PROCS;
    FoundSnoc(nodes, BESIDE, PROCS);
    assert BESIDE_PROCS[1] != ROOT_A[1];
  }

  lemma BesideIsFound(nodes: Nodes)
    requires Rooted(nodes) && IsDir(nodes, ROOT_A) && IsFile(nodes, BESIDE_PROCS)
    ensures Found(nodes, BESIDE) && IsDir(nodes, Walk(BESIDE))
  {
    BesideLeadsOut();
    var sys: Path := ["sys"];
    ParentIsDir(nodes, BESIDE_PROCS);
    assert Up(BESIDE_PROCS) == sys + ["b"] == ["sys", "b"];
    ParentIsDir(nodes, ROOT_A);
    assert Up(ROOT_A) == sys;
    FoundSnoc(nodes, [], "sys");
    FoundSnoc(nodes, sys, "a");
    assert [] + ["sys"] == sys && sys + ["a"] == ROOT_A;
    WalkClean([], sys);
    assert Walk([]) + sys == sys;
    FoundSnoc(nodes, ROOT_A, "..");
    FoundSnoc(nodes, ROOT_A + [".."], "b");
    assert BESIDE == (ROOT_A + [".."]) + ["b"];
  }

  // The other exception is real too: ensuring an existing root asks for exactly one
  // write, to its parent's control file.
  lemma EnsuringTheRootAsksItsParent(m: Manager, nodes: Nodes, name: string)
    requires m.version == V2 && m.delegatedRoot.Some? && ResolveTargetDir(m, name) == m.delegatedRoot
    requires Stands(m, nodes) && m.delegatedRoot.value != [] && Clean(m.delegatedRoot.value)
    requires Opens(nodes, ControlFile(m.delegatedRoot.value))
    ensures var control := ControlFile(m.delegatedRoot.value);
      && OpAttempts(m, nodes, Ensure(name)) == [Wrote(Walk(control), "+cpu\n")]
      && OpFiles(m, Ensure(name)) == {Walk(control)}
      && !Mine(Region(m), Walk(control))
  {
    var root := m.delegatedRoot.value;
    assert root <= root;
    ControlBesideRoot(root);
  }

  lemma ControlBesideRoot(root: Path)
    requires root != [] && Clean(root)
    ensures Walk(root) <= Walk(ControlFile(root)) <==> Walk(root) == Walk(ControlFile(root))
  {
    var up, last := root[..|root| - 1], root[|root| - 1];
    assert root == up + [last] && last in root;
    WalkSnoc(up, last);
    FileOf(up, SUBTREE_CONTROL);
    SameLengthPrefix(Walk(root), Walk(ControlFile(root)));
  }

  lemma SameLengthPrefix(p: Path, q: Path)
    requires |p| == |q|
    ensures p <= q <==> p == q
  {
    assert q[..|p|] == q;
  }

  // And the empty name does so, whatever the root.
  lemma EmptyNameIsTheRoot(m: Manager)
    requires m.version == V2 && m.delegatedRoot.Some?
    ensures ResolveTargetDir(m, "") == m.delegatedRoot
  {
    JoinedOne(m.delegatedRoot.value, "");
  }
}
