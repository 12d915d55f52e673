// The netlink event filter: FNV-1a identities and the bounded memory of them.
module Netlink {
  import opened Common
  import opened Lru

  type Byte = bv8

  // ---- FNV-1a, 64 bits ----

  const OFFSET_BASIS: bv64 := 0xcbf2_9ce4_8422_2325

  // Multiplication by the FNV prime, and by its inverse modulo 2^64.
  function Mul(x: bv64): bv64 { x * 0x0000_0100_0000_01b3 }
  function Div(x: bv64): bv64 { x * 0xce96_5057_aff6_957b }
  function Xor(x: bv64, byte: Byte): bv64 { x ^ (byte as bv64) }

  function Step(digest: bv64, byte: Byte): bv64 { Mul(Xor(digest, byte)) }
  function Unstep(digest: bv64, byte: Byte): bv64 { Xor(Div(digest), byte) }

  function Fold(digest: bv64, bytes: seq<Byte>): bv64 {
    if bytes == [] then digest else Step(Fold(digest, bytes[..|bytes| - 1]), bytes[|bytes| - 1])
  }

  // A name, as its length and its digest.
  datatype Identity = Identity(len: nat, digest: bv64)

  function IdentityOf(name: seq<Byte>): Identity {
    Identity(|name| % 0x1_0000_0000, Fold(OFFSET_BASIS, name))
  }

  method ComputeIdentity(name: seq<Byte>) returns (id: Identity)
    ensures id == IdentityOf(name)
  {
    var digest := OFFSET_BASIS;
    var i := 0;
    while i < |name|
      invariant 0 <= i <= |name| && digest == Fold(OFFSET_BASIS, name[..i])
    {
      assert name[..i + 1][..i] == name[..i];
      digest := Xor(digest, name[i]);
      digest := Mul(digest);
      i := i + 1;
    }
    assert name[..i] == name;
    id := Identity(|name| % 0x1_0000_0000, digest);
  }

  lemma InverseModulo(x: bv64)
    ensures (x * 0x0000_0100_0000_01b3) * 0xce96_5057_aff6_957b == x
    ensures (x * 0xce96_5057_aff6_957b) * 0x0000_0100_0000_01b3 == x
  {
  }

  lemma DivUndoesMul(x: bv64)
    ensures Div(Mul(x)) == x
  {
    calc {
      Div(Mul(x));
      { assert Mul(x) == x * 0x0000_0100_0000_01b3; }
      Div(x * 0x0000_0100_0000_01b3);
      (x * 0x0000_0100_0000_01b3) * 0xce96_5057_aff6_957b;
      { InverseModulo(x); }
      x;
    }
  }

  lemma MulUndoesDiv(x: bv64)
    ensures Mul(Div(x)) == x
  {
    calc {
      Mul(Div(x));
      { assert Div(x) == x * 0xce96_5057_aff6_957b; }
      Mul(x * 0xce96_5057_aff6_957b);
      (x * 0xce96_5057_aff6_957b) * 0x0000_0100_0000_01b3;
      { InverseModulo(x); }
      x;
    }
  }

  lemma XorTwice(x: bv64, byte: Byte)
    ensures Xor(Xor(x, byte), byte) == x
  {
  }

  lemma XorTellsBytesApart(x: bv64, a: Byte, b: Byte)
    requires a != b
    ensures Xor(x, a) != Xor(x, b)
  {
  }

  // For one byte, the step is a bijection on 64-bit states.
  lemma StepBijective(digest: bv64, byte: Byte)
    ensures Unstep(Step(digest, byte), byte) == digest
    ensures Step(Unstep(digest, byte), byte) == digest
  {
    DivUndoesMul(Xor(digest, byte));
    XorTwice(digest, byte);
    XorTwice(Div(digest), byte);
    MulUndoesDiv(digest);
  }

  // For one state, the step tells any two bytes apart.
  lemma StepTellsBytesApart(digest: bv64, a: Byte, b: Byte)
    requires a != b
    ensures Step(digest, a) != Step(digest, b)
  {
    XorTellsBytesApart(digest, a, b);
    DivUndoesMul(Xor(digest, a));
    DivUndoesMul(Xor(digest, b));
  }

  // A common suffix keeps two digests apart, and keeps equal ones equal.
  lemma {:induction false} FoldInjective(x: bv64, y: bv64, bytes: seq<Byte>)
    ensures Fold(x, bytes) == Fold(y, bytes) <==> x == y
  {
    if bytes != [] {
      var init, last := bytes[..|bytes| - 1], bytes[|bytes| - 1];
      FoldInjective(x, y, init);
      StepBijective(Fold(x, init), last);
      StepBijective(Fold(y, init), last);
    }
  }

  lemma {:induction false} FoldConcat(digest: bv64, a: seq<Byte>, b: seq<Byte>)
    ensures Fold(digest, a + b) == Fold(Fold(digest, a), b)
  {
    if b == [] {
      assert a + b == a;
    } else {
      var n := |b| - 1;
      FoldConcat(digest, a, b[..n]);
      assert (a + b)[..|a + b| - 1] == a + b[..n];
    }
  }

  lemma FoldOne(digest: bv64, byte: Byte)
    ensures Fold(digest, [byte]) == Step(digest, byte)
  {
    assert [byte][..0] == [];
  }

  // The published digest of the one-letter name "a".
  lemma DigestOfOneLetter()
    ensures IdentityOf([0x61]) == Identity(1, 0xaf63_dc4c_8601_ec8c)
  {
    FoldOne(OFFSET_BASIS, 0x61);
    StepOnConstants();
  }

  lemma StepOnConstants()
    ensures Step(0xcbf2_9ce4_8422_2325, 0x61) == 0xaf63_dc4c_8601_ec8c
  {
  }

  // Two names that share a prefix and a suffix collide only if what lies between
  // already collides; in particular they never do when that is one byte.
  lemma NoSingleByteCollision(prefix: seq<Byte>, a: Byte, b: Byte, suffix: seq<Byte>)
    requires a != b
    ensures IdentityOf(prefix + [a] + suffix) != IdentityOf(prefix + [b] + suffix)
  {
    var d := Fold(OFFSET_BASIS, prefix);
    FoldConcat(OFFSET_BASIS, prefix + [a], suffix);
    FoldConcat(OFFSET_BASIS, prefix + [b], suffix);
    FoldConcat(OFFSET_BASIS, prefix, [a]);
    FoldConcat(OFFSET_BASIS, prefix, [b]);
    FoldOne(d, a);
    FoldOne(d, b);
    StepTellsBytesApart(d, a, b);
    FoldInjective(Step(d, a), Step(d, b), suffix);
  }

  // Stated on any two names of equal length that differ at exactly one place.
  lemma EqualLengthOneByteApart(s: seq<Byte>, t: seq<Byte>, i: nat)
    requires |s| == |t| && i < |s| && s[i] != t[i]
    requires forall k :: 0 <= k < |s| && k != i ==> s[k] == t[k]
    ensures IdentityOf(s) != IdentityOf(t)
  {
    var prefix, suffix := s[..i], s[i + 1..];
    assert s == prefix + [s[i]] + suffix;
    assert t == prefix + [t[i]] + suffix;
    NoSingleByteCollision(prefix, s[i], t[i], suffix);
  }

  // ---- The filter ----

  const CAPACITY: nat := 8192

  datatype Event = Event(pid: int, identity: Identity)

  class ReportedNames {
    var seen: Cache<int, Identity>

    ghost predicate Valid()
      reads this
    {
      seen.Valid() && seen.capacity == CAPACITY
    }

    constructor ()
      ensures Valid() && seen == Lru.Empty(CAPACITY)
    {
      seen := Lru.Empty(CAPACITY);
    }

    method ShouldReport(pid: int, name: seq<Byte>) returns (report: bool)
      requires Valid()
      modifies this
      ensures Valid()
      ensures report == Reports(old(seen), Event(pid, IdentityOf(name)))
      ensures seen == After(old(seen), Event(pid, IdentityOf(name)))
    {
      var identity := ComputeIdentity(name);
      TouchKeeps(seen, pid);
      var previous := seen.Lookup(pid);
      seen := seen.Touch(pid);
      if previous == Some(identity) {
        return false;
      }
      PutKeeps(seen, pid, identity);
      seen := seen.Put(pid, identity);
      return true;
    }
  }

  // One event on the bounded memory: whether it is reported, and what is kept.
  function Reports(seen: Cache<int, Identity>, e: Event): bool {
    seen.Lookup(e.pid) != Some(e.identity)
  }

  function After(seen: Cache<int, Identity>, e: Event): Cache<int, Identity> {
    if Reports(seen, e) then seen.Touch(e.pid).Put(e.pid, e.identity) else seen.Touch(e.pid)
  }

  function SeenAfter(trace: seq<Event>): Cache<int, Identity> {
    if trace == [] then Lru.Empty(CAPACITY) else After(SeenAfter(trace[..|trace| - 1]), trace[|trace| - 1])
  }

  // The filter with unbounded memory: the identity of each pid's last event.
  function LastIdentity(trace: seq<Event>, pid: int): Option<Identity> {
    if trace == [] then None
    else if trace[|trace| - 1].pid == pid then Some(trace[|trace| - 1].identity)
    else LastIdentity(trace[..|trace| - 1], pid)
  }

  function UnboundedReports(trace: seq<Event>, e: Event): bool {
    LastIdentity(trace, e.pid) != Some(e.identity)
  }

  function Pids(trace: seq<Event>): set<int> {
    set i | 0 <= i < |trace| :: trace[i].pid
  }

  lemma AfterKeeps(seen: Cache<int, Identity>, e: Event)
    requires seen.Valid()
    ensures After(seen, e).Valid() && After(seen, e).capacity == seen.capacity
    ensures forall p :: p in After(seen, e).table ==>
      if p == e.pid then After(seen, e).table[p] == e.identity
      else p in seen.table && After(seen, e).table[p] == seen.table[p]
  {
    TouchKeeps(seen, e.pid);
    PutKeeps(seen.Touch(e.pid), e.pid, e.identity);
  }

  // Whatever the memory holds for a pid is the identity of its last event.
  lemma {:induction false} MemoryIsLast(trace: seq<Event>)
    ensures SeenAfter(trace).Valid() && SeenAfter(trace).capacity == CAPACITY
    ensures forall p :: p in SeenAfter(trace).table ==> LastIdentity(trace, p) == Some(SeenAfter(trace).table[p])
  {
    if trace != [] {
      var n := |trace| - 1;
      MemoryIsLast(trace[..n]);
      AfterKeeps(SeenAfter(trace[..n]), trace[n]);
    }
  }

  // Over every trace: an event is suppressed only if the previous event of the
  // same pid carried the same identity, so everything the unbounded filter
  // reports is reported.
  lemma SuppressedMeansRepeated(trace: seq<Event>, e: Event)
    ensures UnboundedReports(trace, e) ==> Reports(SeenAfter(trace), e)
    ensures !Reports(SeenAfter(trace), e) ==> LastIdentity(trace, e.pid) == Some(e.identity)
  {
    MemoryIsLast(trace);
  }

  // ---- Exactly which events are suppressed ----

  // The pids of a trace, the one heard of last first.
  function Recent(trace: seq<Event>): seq<int> {
    if trace == [] then []
    else
      var pid := trace[|trace| - 1].pid;
      [pid] + Without(Recent(trace[..|trace| - 1]), pid)
  }

  // The pids heard of since the last event of `pid`.
  function PidsSince(trace: seq<Event>, pid: int): set<int> {
    if trace == [] || trace[|trace| - 1].pid == pid then {}
    else PidsSince(trace[..|trace| - 1], pid) + {trace[|trace| - 1].pid}
  }

  function Take(s: seq<int>, n: nat): seq<int> {
    if |s| <= n then s else s[..n]
  }

  lemma {:induction false} WithoutAt(s: seq<int>, j: nat)
    requires NoDup(s) && j < |s|
    ensures Without(s, s[j]) == s[..j] + s[j + 1..]
  {
    if j == 0 {
      WithoutElems(s[1..], s[0]);
    } else {
      WithoutAt(s[1..], j - 1);
      assert s[1..][j - 1] == s[j];
    }
  }

  lemma {:induction false} RecentUnique(trace: seq<Event>)
    ensures NoDup(Recent(trace))
  {
    if trace != [] {
      var n := |trace| - 1;
      RecentUnique(trace[..n]);
      WithoutElems(Recent(trace[..n]), trace[n].pid);
      ConsElems(trace[n].pid, Without(Recent(trace[..n]), trace[n].pid));
    }
  }

  // Moving a key to the front of the whole order is, on its first `n` keys, what
  // the cache does: move it if it is there, else drop the last when full.
  lemma TakeFront(r: seq<int>, k: int, n: nat)
    requires NoDup(r) && n >= 1
    ensures Take([k] + Without(r, k), n) ==
      if k in Take(r, n) then [k] + Without(Take(r, n), k)
      else if |Take(r, n)| < n then [k] + Take(r, n)
      else [k] + Take(r, n)[..n - 1]
  {
    var t := Take(r, n);
    if k in r {
      var j :| 0 <= j < |r| && r[j] == k;
      WithoutAt(r, j);
      if j < |t| {
        assert t[j] == k;
        WithoutAt(t, j);
      } else {
        assert k !in t;
        assert ([k] + (r[..j] + r[j + 1..]))[..n] == [k] + t[..n - 1];
      }
    } else {
      WithoutElems(r, k);
    }
  }

  lemma AfterOrder(seen: Cache<int, Identity>, e: Event)
    requires seen.Valid()
    ensures After(seen, e).order ==
      if e.pid in seen.order then [e.pid] + Without(seen.order, e.pid)
      else if |seen.order| < seen.capacity then [e.pid] + seen.order
      else [e.pid] + seen.order[..seen.capacity - 1]
  {
    assert e.pid in seen.order <==> e.pid in Elems(seen.order);
    if e.pid in seen.table {
      var w := Without(seen.order, e.pid);
      WithoutElems(seen.order, e.pid);
      assert e.pid !in w by { assert e.pid !in Elems(w); }
      WithoutElems(w, e.pid);
      assert ([e.pid] + w)[1..] == w;
      assert Without([e.pid] + w, e.pid) == w;
    }
  }

  // The memory is the most recent pids, as many as fit.
  lemma {:induction false} OrderIsRecent(trace: seq<Event>)
    ensures SeenAfter(trace).order == Take(Recent(trace), CAPACITY)
  {
    if trace != [] {
      var n := |trace| - 1;
      OrderIsRecent(trace[..n]);
      RecentUnique(trace[..n]);
      MemoryIsLast(trace[..n]);
      TakeFront(Recent(trace[..n]), trace[n].pid, CAPACITY);
      AfterOrder(SeenAfter(trace[..n]), trace[n]);
    }
  }

  // A pid stands behind exactly the pids heard of since.
  lemma {:induction false} RankOf(trace: seq<Event>, pid: int) returns (j: nat)
    requires LastIdentity(trace, pid).Some?
    ensures j < |Recent(trace)| && Recent(trace)[j] == pid
    ensures Elems(Recent(trace)[..j]) == PidsSince(trace, pid)
  {
    var n := |trace| - 1;
    var init, last := trace[..n], trace[n].pid;
    if last == pid {
      j := 0;
    } else {
      var i := RankOf(init, pid);
      RecentUnique(init);
      j := MoveFront(Recent(init), i, last);
    }
  }

  lemma MoveFront(r: seq<int>, i: nat, k: int) returns (j: nat)
    requires NoDup(r) && i < |r| && r[i] != k
    ensures var r' := [k] + Without(r, k);
      j < |r'| && r'[j] == r[i] && Elems(r'[..j]) == Elems(r[..i]) + {k}
  {
    var r' := [k] + Without(r, k);
    if k in r {
      var m :| 0 <= m < |r| && r[m] == k;
      WithoutAt(r, m);
      if m < i {
        j := i;
        assert r'[..j] == [k] + (r[..m] + r[m + 1..i]);
        assert r[..i] == r[..m] + [k] + r[m + 1..i];
      } else {
        j := i + 1;
        assert r'[..j] == [k] + r[..i];
      }
    } else {
      WithoutElems(r, k);
      j := i + 1;
      assert r'[..j] == [k] + r[..i];
    }
  }

  lemma RememberedExactly(trace: seq<Event>, pid: int)
    requires LastIdentity(trace, pid).Some?
    ensures pid in SeenAfter(trace).table <==> |PidsSince(trace, pid)| < CAPACITY
  {
    var r := Recent(trace);
    var j := RankOf(trace, pid);
    RecentUnique(trace);
    NoDupSize(r[..j]);
    OrderIsRecent(trace);
    MemoryIsLast(trace);
    assert pid in SeenAfter(trace).table <==> pid in Elems(Take(r, CAPACITY));
    if j < CAPACITY { assert Take(r, CAPACITY)[j] == pid; }
  }

  // The whole filter in one line: an event is suppressed exactly when its pid's
  // previous event carried the same identity and fewer than 8192 other pids have
  // been heard of since.
  lemma SuppressionExact(trace: seq<Event>, e: Event)
    ensures !Reports(SeenAfter(trace), e) <==>
      LastIdentity(trace, e.pid) == Some(e.identity) && |PidsSince(trace, e.pid)| < 8192
  {
    MemoryIsLast(trace);
    if LastIdentity(trace, e.pid).Some? { RememberedExactly(trace, e.pid); }
  }

  lemma {:induction false} SinceInside(trace: seq<Event>, pid: int)
    ensures pid !in PidsSince(trace, pid) && PidsSince(trace, pid) <= Pids(trace)
    ensures LastIdentity(trace, pid).Some? ==> pid in Pids(trace)
  {
    if trace != [] {
      var n := |trace| - 1;
      SinceInside(trace[..n], pid);
      assert trace[n].pid in Pids(trace);
      assert forall i :: 0 <= i < n ==> trace[..n][i].pid == trace[i].pid && trace[i].pid in Pids(trace);
    }
  }

  // So the two filters agree on every event while the pids seen before fit the memory.
  lemma FiltersAgreeWithinCapacity(trace: seq<Event>, e: Event)
    requires |Pids(trace)| <= CAPACITY
    ensures Reports(SeenAfter(trace), e) <==> UnboundedReports(trace, e)
  {
    SuppressionExact(trace, e);
    if LastIdentity(trace, e.pid).Some? {
      SinceInside(trace, e.pid);
      SubsetSize(PidsSince(trace, e.pid), Pids(trace) - {e.pid});
    }
  }
}
