// Paths, how the kernel walks them, and a file system that may fail half way.
module CgroupFs {
  import opened Common

  // ---- Paths ----

  // The components of an absolute path, as it is spelled: ".." may be among them.
  type Path = seq<string>

  predicate Clean(p: Path) { ".." !in p }

  function Up(at: Path): Path { if at == [] then [] else at[..|at| - 1] }

  function StepTo(at: Path, c: string): Path { if c == ".." then Up(at) else at + [c] }

  // The place the first `n` components lead to, and the place a path leads to.
  function WalkTo(p: Path, n: nat): Path
    requires n <= |p|
  {
    if n == 0 then [] else StepTo(WalkTo(p, n - 1), p[n - 1])
  }

  function Walk(p: Path): Path { WalkTo(p, |p|) }

  lemma {:induction false} WalkSame(p: Path, q: Path, n: nat)
    requires n <= |p| && n <= |q| && forall i :: 0 <= i < n ==> p[i] == q[i]
    ensures WalkTo(p, n) == WalkTo(q, n)
  {
    if n > 0 { WalkSame(p, q, n - 1); }
  }

  lemma WalkSnoc(p: Path, c: string)
    ensures Walk(p + [c]) == StepTo(Walk(p), c)
  {
    WalkSame(p + [c], p, |p|);
  }

  // Components other than ".." only lead further in.
  lemma {:induction false} WalkClean(a: Path, b: Path)
    requires Clean(b)
    ensures Walk(a + b) == Walk(a) + b
  {
    if b == [] {
      assert a + b == a;
    } else {
      var n := |b| - 1;
      var init, c := b[..n], b[n];
      WalkClean(a, init);
      assert c in b && a + b == (a + init) + [c];
      WalkSnoc(a + init, c);
    }
  }

  // ---- The file system ----

  datatype Node = Dir | File(contents: string)

  // What there is, by place.
  type Nodes = map<Path, Node>

  predicate IsDir(nodes: Nodes, p: Path) { p in nodes && nodes[p] == Dir }
  predicate IsFile(nodes: Nodes, p: Path) { p in nodes && nodes[p].File? }

  // Every entry sits in a directory, and no entry is called "..".
  ghost predicate Rooted(nodes: Nodes) {
    && IsDir(nodes, [])
    && (forall p: Path, name :: p + [name] in nodes ==> p in nodes && nodes[p] == Dir)
    && (forall p :: p in nodes ==> Clean(p))
  }

  // `Path::exists`: every component but the last leads to a directory, and the last
  // to something.
  predicate FoundTo(nodes: Nodes, p: Path, n: nat)
    requires n <= |p|
  {
    n == 0 || (FoundTo(nodes, p, n - 1) && IsDir(nodes, WalkTo(p, n - 1)) && WalkTo(p, n) in nodes)
  }

  predicate Found(nodes: Nodes, p: Path) { FoundTo(nodes, p, |p|) }

  lemma {:induction false} FoundSame(nodes: Nodes, p: Path, q: Path, n: nat)
    requires n <= |p| && n <= |q| && forall i :: 0 <= i < n ==> p[i] == q[i]
    ensures FoundTo(nodes, p, n) == FoundTo(nodes, q, n)
  {
    WalkSame(p, q, n);
    if n > 0 {
      WalkSame(p, q, n - 1);
      FoundSame(nodes, p, q, n - 1);
    }
  }

  lemma FoundSnoc(nodes: Nodes, p: Path, c: string)
    ensures Found(nodes, p + [c]) <==> Found(nodes, p) && IsDir(nodes, Walk(p)) && StepTo(Walk(p), c) in nodes
  {
    WalkSnoc(p, c);
    WalkSame(p + [c], p, |p|);
    FoundSame(nodes, p + [c], p, |p|);
  }

  lemma {:induction false} FoundPart(nodes: Nodes, p: Path, n: nat, k: nat)
    requires Rooted(nodes) && k <= n <= |p| && FoundTo(nodes, p, n)
    ensures FoundTo(nodes, p, k) && WalkTo(p, k) in nodes
  {
    if k < n { FoundPart(nodes, p, n - 1, k); }
  }

  // Nothing vanished or changed its kind.
  ghost predicate Grown(before: Nodes, after: Nodes) {
    forall p :: p in before ==> p in after && (before[p] == Dir <==> after[p] == Dir)
  }

  lemma {:induction false} FoundToGrows(before: Nodes, after: Nodes, p: Path, n: nat)
    requires Grown(before, after) && n <= |p| && FoundTo(before, p, n)
    ensures FoundTo(after, p, n)
  {
    if n > 0 { FoundToGrows(before, after, p, n - 1); }
  }

  lemma FoundGrows(before: Nodes, after: Nodes, p: Path)
    requires Grown(before, after) && Found(before, p)
    ensures Found(after, p)
  {
    FoundToGrows(before, after, p, |p|);
  }

  // A place entered by a plain name: its parent was there.
  lemma ParentIsDir(nodes: Nodes, p: Path)
    requires Rooted(nodes) && p in nodes
    ensures IsDir(nodes, Up(p))
  {
    if p != [] { assert p == Up(p) + [p[|p| - 1]]; }
  }

  const CPU_WEIGHT := "cpu.weight"

  // What was asked of the file system, by place: a write to an existing file, or the
  // creation of a directory and its missing ancestors.
  datatype Attempt = Wrote(at: Path, text: string) | Made(at: Path)

  // An open for writing that does not create: nothing happens unless the path leads
  // to a file.
  predicate Opens(nodes: Nodes, path: Path) { Found(nodes, path) && IsFile(nodes, Walk(path)) }

  function WriteIfThere(nodes: Nodes, path: Path, text: string): seq<Attempt> {
    if Opens(nodes, path) then [Wrote(Walk(path), text)] else []
  }

  ghost predicate Kept(before: Nodes, after: Nodes) {
    forall p :: p in before ==> p in after && after[p] == before[p]
  }

  // Writes change contents, never which places exist or which are files.
  ghost predicate SameShape(before: Nodes, after: Nodes) {
    Grown(before, after) && Grown(after, before)
  }

  lemma SameOpens(before: Nodes, after: Nodes, path: Path)
    requires SameShape(before, after)
    ensures Found(before, path) <==> Found(after, path)
    ensures Opens(before, path) <==> Opens(after, path)
  {
    if Found(before, path) { FoundGrows(before, after, path); }
    if Found(after, path) { FoundGrows(after, before, path); }
  }

  // `p` was made by creating `path`: it is at or below a part of it that was missing.
  ghost predicate NewUnder(before: Nodes, path: Path, p: Path) {
    exists n :: 0 < n <= |path| && WalkTo(path, n) !in before && WalkTo(path, n) <= p
  }

  ghost predicate NewInside(before: Nodes, after: Nodes, path: Path) {
    forall p :: p in after && p !in before ==> NewUnder(before, path, p)
  }

  // A file system on which any write and any creation may fail half way, and on
  // which the kernel fills a new directory with whatever files it likes.
  class FileSystem {
    var nodes: Nodes
    var attempts: seq<Attempt>

    // Writes to a file that exists; a failed write may leave anything in it.
    method WriteExisting(path: Path, text: string) returns (ok: bool)
      requires Rooted(nodes)
      modifies this
      ensures Rooted(nodes) && SameShape(old(nodes), nodes)
      ensures attempts == old(attempts) + WriteIfThere(old(nodes), path, text)
      ensures Opens(old(nodes), path) ==>
        IsFile(nodes, Walk(path)) && nodes == old(nodes)[Walk(path) := nodes[Walk(path)]] && (ok ==> nodes[Walk(path)] == File(text))
      ensures !Opens(old(nodes), path) ==> !ok && nodes == old(nodes)
    {
      if !Opens(nodes, path) {
        return false;
      }
      attempts := attempts + [Wrote(Walk(path), text)];
      ok := *;
      var left: string := *;
      var file := File(if ok then text else left);
      WrittenRooted(nodes, Walk(path), file);
      nodes := nodes[Walk(path) := file];
    }

    // `mkdir`, which may fail.
    method CreateDir(parent: Path, name: string) returns (ok: bool)
      requires Rooted(nodes) && IsDir(nodes, parent) && name != ".." && parent + [name] !in nodes
      modifies this`nodes
      ensures Rooted(nodes) && Kept(old(nodes), nodes)
      ensures forall p :: p in nodes && p !in old(nodes) ==> parent + [name] <= p
      ensures ok ==> IsDir(nodes, parent + [name])
    {
      ok := *;
      if ok {
        var files: map<string, string> := *;
        files := files - {".."};
        MadeDir(nodes, parent, name, files);
        nodes := WithDir(nodes, parent + [name], files);
      }
    }

    // One component further, making it if it is not there.
    method Enter(at: Path, c: string) returns (ok: bool)
      requires Rooted(nodes) && IsDir(nodes, at)
      modifies this`nodes
      ensures Rooted(nodes) && Kept(old(nodes), nodes)
      ensures forall p :: p in nodes && p !in old(nodes) ==> StepTo(at, c) !in old(nodes) && StepTo(at, c) <= p
      ensures ok ==> IsDir(nodes, StepTo(at, c))
    {
      var next := StepTo(at, c);
      if next in nodes {
        return nodes[next] == Dir;
      }
      if c == ".." { ParentIsDir(nodes, at); }
      ok := CreateDir(at, c);
    }

    // `create_dir_all`: missing ancestors are made one by one, until one fails.
    method CreateDirAll(path: Path) returns (ok: bool)
      requires Rooted(nodes)
      modifies this
      ensures attempts == old(attempts) + [Made(Walk(path))]
      ensures Rooted(nodes) && Kept(old(nodes), nodes)
      ensures NewInside(old(nodes), nodes, path)
      ensures ok ==> Found(nodes, path) && IsDir(nodes, Walk(path))
    {
      attempts := attempts + [Made(Walk(path))];
      var i, at := 0, [];
      while i < |path|
        invariant 0 <= i <= |path| && Rooted(nodes) && at == WalkTo(path, i)
        invariant attempts == old(attempts) + [Made(Walk(path))]
        invariant FoundTo(nodes, path, i) && IsDir(nodes, at)
        invariant Kept(old(nodes), nodes) && NewInside(old(nodes), nodes, path)
      {
        ghost var between := nodes;
        ok := Enter(at, path[i]);
        NewStep(old(nodes), between, nodes, path, i);
        if !ok {
          return;
        }
        assert Grown(between, nodes);
        FoundToGrows(between, nodes, path, i);
        i, at := i + 1, StepTo(at, path[i]);
      }
      return true;
    }
  }

  lemma NewStep(start: Nodes, between: Nodes, after: Nodes, path: Path, i: nat)
    requires i < |path| && Kept(start, between) && NewInside(start, between, path)
    requires forall p :: p in after && p !in between ==> WalkTo(path, i + 1) !in between && WalkTo(path, i + 1) <= p
    ensures NewInside(start, after, path)
  {
    forall p | p in after && p !in start ensures NewUnder(start, path, p) {
      if p !in between { assert WalkTo(path, i + 1) !in start; }
    }
  }

  lemma WrittenRooted(nodes: Nodes, at: Path, file: Node)
    requires Rooted(nodes) && IsFile(nodes, at) && file.File?
    ensures Rooted(nodes[at := file]) && SameShape(nodes, nodes[at := file])
  {
    forall p: Path, name | p + [name] in nodes[at := file] ensures p in nodes && nodes[at := file][p] == Dir {
      assert p + [name] in nodes;
    }
  }

  // A new directory, and the files that appear in it.
  function WithDir(nodes: Nodes, dir: Path, files: map<string, string>): Nodes {
    var added := set f | f in files :: dir + [f];
    nodes[dir := Dir] + map p | p in added :: File(files[p[|p| - 1]])
  }

  lemma SameParent(p: Path, x: string, q: Path, y: string)
    requires p + [x] == q + [y]
    ensures p == q && x == y
  {
    assert p == (p + [x])[..|p|] && q == (q + [y])[..|q|];
    assert (p + [x])[|p|] == x && (q + [y])[|q|] == y;
  }

  lemma MadeDir(nodes: Nodes, parent: Path, name: string, files: map<string, string>)
    requires Rooted(nodes) && IsDir(nodes, parent) && parent + [name] !in nodes && name != ".." && ".." !in files
    ensures var dir := parent + [name]; var after := WithDir(nodes, dir, files);
      && Rooted(after) && Kept(nodes, after)
      && (forall p :: p in after && p !in nodes ==> dir <= p)
      && IsDir(after, dir)
  {
    var dir := parent + [name];
    var after := WithDir(nodes, dir, files);
    forall f | f in files ensures dir + [f] !in nodes && dir + [f] != dir {}
    forall p: Path, x | p + [x] in after ensures p in after && after[p] == Dir {
      MadeParent(nodes, parent, name, files, p, x);
    }
  }

  lemma MadeParent(nodes: Nodes, parent: Path, name: string, files: map<string, string>, p: Path, x: string)
    requires Rooted(nodes) && IsDir(nodes, parent) && parent + [name] !in nodes
    requires p + [x] in WithDir(nodes, parent + [name], files)
    ensures IsDir(WithDir(nodes, parent + [name], files), p)
  {
    var dir := parent + [name];
    if p + [x] in nodes {
      assert p in nodes && nodes[p] == Dir && p != dir;
      assert forall f :: f in files ==> dir + [f] !in nodes;
    } else if p + [x] == dir {
      SameParent(p, x, parent, name);
    } else {
      var f :| f in files && p + [x] == dir + [f];
      SameParent(p, x, dir, f);
    }
  }

  // ---- The frame ----

  // Below the region, if there is one.
  ghost predicate Mine(region: Option<Path>, p: Path) {
    region.Some? && region.value <= p
  }

  predicate WeightName(p: Path) { p != [] && p[|p| - 1] == CPU_WEIGHT }

  // Outside the region nothing appears, disappears or changes, but for the contents of
  // `cpu.weight` files and of the files listed in `extra`.
  ghost predicate Framed(region: Option<Path>, before: Nodes, after: Nodes, extra: set<Path>) {
    forall p: Path :: !Mine(region, p) ==>
      && (p in before <==> p in after)
      && (p in before ==>
            || after[p] == before[p]
            || (before[p].File? && after[p].File? && (WeightName(p) || p in extra)))
  }

  lemma FramedTransitive(region: Option<Path>, a: Nodes, b: Nodes, c: Nodes, one: set<Path>, two: set<Path>)
    requires Framed(region, a, b, one) && Framed(region, b, c, two)
    ensures Framed(region, a, c, one + two)
  {
    forall p: Path | !Mine(region, p)
      ensures p in a <==> p in c
      ensures p in a ==>
        || c[p] == a[p]
        || (a[p].File? && c[p].File? && (WeightName(p) || p in one + two))
    {
      assert (p in a <==> p in b) && (p in b <==> p in c);
    }
  }

  lemma WriteFramed(region: Option<Path>, before: Nodes, after: Nodes, p: Path, extra: set<Path>)
    requires IsFile(before, p) && IsFile(after, p) && after == before[p := after[p]]
    requires Mine(region, p) || WeightName(p) || p in extra
    ensures Framed(region, before, after, extra)
  {
  }

  // What the frame says of one place.
  lemma OutsideIsUntouched(region: Option<Path>, before: Nodes, after: Nodes, extra: set<Path>, p: Path)
    requires Framed(region, before, after, extra) && !Mine(region, p) && p !in extra && !(IsFile(before, p) && WeightName(p))
    ensures (p in before <==> p in after) && (p in before ==> after[p] == before[p])
  {
  }

  // Creating a path that goes on from an existing root without "..": all that appears
  // is below where the root is.
  lemma CreatedInside(root: Path, before: Nodes, after: Nodes, target: Path)
    requires Rooted(before) && Found(before, root) && root <= target && Clean(target[|root|..]) && Kept(before, after)
    requires NewInside(before, after, target)
    ensures Framed(Some(Walk(root)), before, after, {})
  {
    forall p | p in after && p !in before ensures Walk(root) <= p {
      var n :| 0 < n <= |target| && WalkTo(target, n) !in before && WalkTo(target, n) <= p;
      WalkSame(target, root, if n <= |root| then n else |root|);
      if n <= |root| {
        FoundPart(before, root, |root|, n);
      } else {
        var rest := target[|root|..n];
        assert root + rest == target[..n] && Clean(rest);
        WalkSame(target, root + rest, n);
        WalkClean(root, rest);
      }
    }
  }
}
