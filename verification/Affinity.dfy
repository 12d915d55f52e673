// Byte masks for `sched_setaffinity(2)`, and the one-retry protocol around it.
module Affinity {
  import opened Common
  import opened Text
  import opened CpuSets

  // ---- Masks ----

  type Mask = seq<bv8>

  // `1 << i` on a byte.
  function BitOf(i: nat): bv8
    requires i < 8
  {
    if i == 0 then 1 else if i == 1 then 2 else if i == 2 then 4 else if i == 3 then 8
    else if i == 4 then 16 else if i == 5 then 32 else if i == 6 then 64 else 128
  }

  predicate Has(mask: Mask, c: nat) {
    c / 8 < |mask| && mask[c / 8] & BitOf(c % 8) != 0
  }

  function CpusOf(mask: Mask): set<nat> {
    set c | 0 <= c < 8 * |mask| && Has(mask, c)
  }

  function BitIf(b: bool, i: nat): bv8
    requires i < 8
  {
    if b then BitOf(i) else 0
  }

  function ByteOf(cpus: set<nat>, i: nat): bv8 {
    BitIf(8 * i in cpus, 0) | BitIf(8 * i + 1 in cpus, 1) | BitIf(8 * i + 2 in cpus, 2) | BitIf(8 * i + 3 in cpus, 3)
    | BitIf(8 * i + 4 in cpus, 4) | BitIf(8 * i + 5 in cpus, 5) | BitIf(8 * i + 6 in cpus, 6) | BitIf(8 * i + 7 in cpus, 7)
  }

  // The mask of a set: bit `c % 8` of byte `c / 8` for each CPU `c` that fits.
  function MaskOf(cpus: set<nat>, numBytes: nat): Mask {
    seq(numBytes, i requires 0 <= i => ByteOf(cpus, i))
  }

  lemma ByteOfBits(cpus: set<nat>, i: nat, j: nat)
    requires j < 8
    ensures ByteOf(cpus, i) & BitOf(j) != 0 <==> 8 * i + j in cpus
  {
    var b0, b1, b2, b3 := 8 * i in cpus, 8 * i + 1 in cpus, 8 * i + 2 in cpus, 8 * i + 3 in cpus;
    var b4, b5, b6, b7 := 8 * i + 4 in cpus, 8 * i + 5 in cpus, 8 * i + 6 in cpus, 8 * i + 7 in cpus;
    EightBits(b0, b1, b2, b3, b4, b5, b6, b7, j);
  }

  lemma EightBits(b0: bool, b1: bool, b2: bool, b3: bool, b4: bool, b5: bool, b6: bool, b7: bool, j: nat)
    requires j < 8
    ensures
      ((BitIf(b0, 0) | BitIf(b1, 1) | BitIf(b2, 2) | BitIf(b3, 3) | BitIf(b4, 4) | BitIf(b5, 5) | BitIf(b6, 6) | BitIf(b7, 7))
        & BitOf(j) != 0) ==
      if j == 0 then b0 else if j == 1 then b1 else if j == 2 then b2 else if j == 3 then b3
      else if j == 4 then b4 else if j == 5 then b5 else if j == 6 then b6 else b7
  {
  }

  lemma OrBit(b: bv8, i: nat, j: nat)
    requires i < 8 && j < 8
    ensures (b | BitOf(i)) & BitOf(j) != 0 <==> i == j || b & BitOf(j) != 0
  {
  }

  lemma AndBit(a: bv8, b: bv8, j: nat)
    requires j < 8
    ensures (a & b) & BitOf(j) != 0 <==> a & BitOf(j) != 0 && b & BitOf(j) != 0
  {
  }

  lemma SameBits(a: bv8, b: bv8)
    requires forall j: nat :: j < 8 ==> (Bit(a, j) <==> Bit(b, j))
    ensures a == b
  {
    assert Bit(a, 0) == Bit(b, 0) && Bit(a, 1) == Bit(b, 1) && Bit(a, 2) == Bit(b, 2) && Bit(a, 3) == Bit(b, 3);
    assert Bit(a, 4) == Bit(b, 4) && Bit(a, 5) == Bit(b, 5) && Bit(a, 6) == Bit(b, 6) && Bit(a, 7) == Bit(b, 7);
  }

  lemma DivMod8(i: nat, j: nat)
    requires j < 8
    ensures (8 * i + j) / 8 == i && (8 * i + j) % 8 == j
  {
  }

  // A mask is determined by the CPUs in it.
  lemma MaskUnique(a: Mask, b: Mask)
    requires |a| == |b| && CpusOf(a) == CpusOf(b)
    ensures a == b
  {
    forall i | 0 <= i < |a| ensures a[i] == b[i] {
      SameByte(a, b, i);
    }
  }

  predicate Bit(byte: bv8, j: nat)
    requires j < 8
  {
    byte & BitOf(j) != 0
  }

  lemma HasBit(mask: Mask, i: nat, j: nat)
    requires i < |mask| && j < 8
    ensures 8 * i + j in CpusOf(mask) <==> Bit(mask[i], j)
  {
    DivMod8(i, j);
  }

  lemma SameByte(a: Mask, b: Mask, i: nat)
    requires i < |a| == |b| && CpusOf(a) == CpusOf(b)
    ensures a[i] == b[i]
  {
    forall j: nat | j < 8 ensures Bit(a[i], j) <==> Bit(b[i], j) {
      HasBit(a, i, j);
      HasBit(b, i, j);
    }
    SameBits(a[i], b[i]);
  }

  lemma MaskOfCpus(cpus: set<nat>, numBytes: nat)
    ensures |MaskOf(cpus, numBytes)| == numBytes
    ensures CpusOf(MaskOf(cpus, numBytes)) == set c | c in cpus && c < 8 * numBytes
  {
    forall c: nat | c < 8 * numBytes ensures Has(MaskOf(cpus, numBytes), c) <==> c in cpus {
      ByteOfBits(cpus, c / 8, c % 8);
      assert 8 * (c / 8) + c % 8 == c;
    }
  }

  function MaskAnd(a: Mask, b: Mask): Mask
    requires |a| == |b|
  {
    seq(|a|, i requires 0 <= i < |a| => a[i] & b[i])
  }

  // Bitwise AND of masks is intersection of the sets.
  lemma MaskAndIsIntersection(a: Mask, b: Mask)
    requires |a| == |b|
    ensures CpusOf(MaskAnd(a, b)) == CpusOf(a) * CpusOf(b)
  {
    forall c: nat ensures c in CpusOf(MaskAnd(a, b)) <==> c in CpusOf(a) * CpusOf(b) {
      HasAnd(a, b, c);
    }
  }

  lemma AndAt(a: Mask, b: Mask, i: nat, j: nat)
    requires i < |a| == |b| && j < 8
    ensures MaskAnd(a, b)[i] & BitOf(j) != 0 <==> a[i] & BitOf(j) != 0 && b[i] & BitOf(j) != 0
  {
    AndBit(a[i], b[i], j);
  }

  lemma HasAnd(a: Mask, b: Mask, c: nat)
    requires |a| == |b|
    ensures Has(MaskAnd(a, b), c) <==> Has(a, c) && Has(b, c)
  {
    if c / 8 < |a| { AndAt(a, b, c / 8, c % 8); }
  }

  // `any_set`: some byte is non-zero exactly when the set is not empty.
  predicate AnySet(mask: Mask) {
    exists i :: 0 <= i < |mask| && mask[i] != 0
  }

  lemma AnySetIsNonEmpty(mask: Mask)
    ensures AnySet(mask) <==> CpusOf(mask) != {}
  {
    if AnySet(mask) {
      var i :| 0 <= i < |mask| && mask[i] != 0;
      if forall j: nat :: j < 8 ==> !Bit(mask[i], j) { SameBits(mask[i], 0); }
      var j: nat :| j < 8 && Bit(mask[i], j);
      HasBit(mask, i, j);
    }
    if c :| c in CpusOf(mask) {
      assert mask[c / 8] != 0;
    }
  }

  lemma SetBit(mask: Mask, c: nat)
    requires c / 8 < |mask|
    ensures CpusOf(mask[c / 8 := mask[c / 8] | BitOf(c % 8)]) == CpusOf(mask) + {c}
  {
    var mask' := mask[c / 8 := mask[c / 8] | BitOf(c % 8)];
    forall d: nat | d < 8 * |mask| ensures Has(mask', d) <==> Has(mask, d) || d == c {
      OrBit(mask[c / 8], c % 8, d % 8);
    }
  }

  method EmptyMask(numBytes: nat) returns (mask: Mask)
    ensures |mask| == numBytes && CpusOf(mask) == {}
  {
    mask := seq(numBytes, _ => 0);
  }

  // Fills a buffer of `numCpus / 8` bytes.  When `numCpus` is no multiple of
  // eight the last few CPUs have no byte and the indexing aborts, which is None.
  method MaskFrom(cpuset: CpuSet, numCpus: nat) returns (r: Option<Mask>)
    requires cpuset.Valid()
    ensures r == None <==> PastTheBytes(cpuset.Cpus(), numCpus)
    ensures r.Some? ==> r.value == MaskOf(cpuset.Cpus(), numCpus / 8)
  {
    var mask := EmptyMask(numCpus / 8);
    var i := 0;
    while i < |cpuset.cores|
      invariant 0 <= i <= |cpuset.cores|
      invariant |mask| == numCpus / 8
      invariant CpusOf(mask) == set c | c in cpuset.Cpus() && c < i && c < numCpus
      invariant forall c :: c in cpuset.Cpus() && c < i && c < numCpus ==> c < numCpus / 8 * 8
    {
      if cpuset.cores[i] {
        if i < numCpus {
          if i / 8 >= |mask| {
            assert i in cpuset.Cpus();
            return None;
          }
          SetBit(mask, i);
          mask := mask[i / 8 := mask[i / 8] | BitOf(i % 8)];
        }
      }
      i := i + 1;
    }
    MaskOfCpus(cpuset.Cpus(), numCpus / 8);
    MaskUnique(mask, MaskOf(cpuset.Cpus(), numCpus / 8));
    return Some(mask);
  }

  // ---- The kernel's CPU lists ----

  // The lenient reading: empty tokens are skipped, CPUs past the bound dropped,
  // a token that is not a range refuses the list.
  function ListCpus(tokens: seq<string>, bound: nat): Option<set<nat>> {
    if tokens == [] then Some({})
    else if tokens[0] == "" then ListCpus(tokens[1..], bound)
    else
      match TokenRange(tokens[0])
      case None => None
      case Some(r) =>
        Plus(Span(r.lo, Min(r.hi + 1, bound)), ListCpus(tokens[1..], bound))
  }

  function Min(a: nat, b: nat): nat { if a < b then a else b }

  // `(num_bytes * 8) as u32`.
  function ListBound(numBytes: nat): nat { numBytes * 8 % 0x1_0000_0000 }

  function ListMask(list: string, numBytes: nat): (r: Option<Mask>)
    ensures r.Some? ==> |r.value| == numBytes
  {
    match ListCpus(Tokens(list), ListBound(numBytes))
    case None => None
    case Some(cpus) => if cpus == {} then None else Some(MaskOf(cpus, numBytes))
  }

  // The bound is cut to 32 bits, so a buffer of 2^29 bytes can take no CPU at all.
  lemma BoundIsCut(numBytes: nat)
    ensures 8 * numBytes <= U32_MAX ==> ListBound(numBytes) == 8 * numBytes
    ensures ListBound(0x2000_0000) == 0
  {
  }

  lemma SpanSnoc(lo: nat, end: nat)
    requires lo <= end
    ensures Span(lo, end + 1) == Span(lo, end) + {end}
  {
  }

  method AddRange(mask0: Mask, r: Range, bound: nat) returns (mask: Mask, any: bool)
    requires bound <= 8 * |mask0|
    ensures |mask| == |mask0|
    ensures CpusOf(mask) == CpusOf(mask0) + Span(r.lo, Min(r.hi + 1, bound))
    ensures any <==> Span(r.lo, Min(r.hi + 1, bound)) != {}
  {
    mask, any := mask0, false;
    var cpu := r.lo;
    while cpu <= r.hi
      invariant r.lo <= cpu && (cpu <= r.hi + 1 || cpu == r.lo)
      invariant |mask| == |mask0|
      invariant CpusOf(mask) == CpusOf(mask0) + Span(r.lo, Min(cpu, bound))
      invariant any <==> r.lo < Min(cpu, bound)
    {
      if cpu < bound {
        SetBit(mask, cpu);
        SpanSnoc(r.lo, cpu);
        mask := mask[cpu / 8 := mask[cpu / 8] | BitOf(cpu % 8)];
        any := true;
      }
      cpu := cpu + 1;
    }
    assert any ==> r.lo in Span(r.lo, Min(r.hi + 1, bound));
  }

  lemma ListAt(tokens: seq<string>, i: nat, bound: nat)
    requires i < |tokens|
    ensures ListCpus(tokens[i..], bound) ==
      if tokens[i] == "" then ListCpus(tokens[i + 1..], bound)
      else if TokenRange(tokens[i]) == None then None
      else
        var r := TokenRange(tokens[i]).value;
        Plus(Span(r.lo, Min(r.hi + 1, bound)), ListCpus(tokens[i + 1..], bound))
  {
    assert tokens[i..][1..] == tokens[i + 1..];
  }

  lemma BuiltMask(mask: Mask, numBytes: nat)
    requires |mask| == numBytes
    ensures mask == MaskOf(CpusOf(mask), numBytes)
  {
    MaskOfCpus(CpusOf(mask), numBytes);
    MaskUnique(mask, MaskOf(CpusOf(mask), numBytes));
  }

  function Plus(got: set<nat>, rest: Option<set<nat>>): Option<set<nat>> {
    if rest == None then None else Some(got + rest.value)
  }

  lemma PlusMore(a: set<nat>, b: set<nat>, rest: Option<set<nat>>)
    ensures Plus(a, Plus(b, rest)) == Plus(a + b, rest)
    ensures Plus({}, rest) == rest
  {
    if rest.Some? {
      assert a + (b + rest.value) == a + b + rest.value;
      assert {} + rest.value == rest.value;
    }
  }

  // The mask so far, whether it holds a CPU, and the set it stands for.
  ghost predicate Building(mask: Mask, any: bool, got: set<nat>) {
    got == CpusOf(mask) && (any <==> got != {})
  }

  // One token of a list; not `ok` is a refusal of the whole list.
  method ReadToken(tokens: seq<string>, i: nat, bound: nat, mask0: Mask, any0: bool, ghost got0: set<nat>)
    returns (ok: bool, mask: Mask, any: bool, ghost got: set<nat>)
    requires i < |tokens| && bound <= 8 * |mask0| && Building(mask0, any0, got0)
    ensures |mask| == |mask0| && Building(mask, any, got)
    ensures ok ==> Plus(got, ListCpus(tokens[i + 1..], bound)) == Plus(got0, ListCpus(tokens[i..], bound))
    ensures !ok ==> ListCpus(tokens[i..], bound) == None
  {
    ok, mask, any, got := true, mask0, any0, got0;
    ListAt(tokens, i, bound);
    if tokens[i] != "" {
      match TokenRange(tokens[i]) {
        case None => ok := false;
        case Some(r) =>
          var some;
          mask, some := AddRange(mask0, r, bound);
          any := any0 || some;
          got := got0 + Span(r.lo, Min(r.hi + 1, bound));
          PlusMore(got0, Span(r.lo, Min(r.hi + 1, bound)), ListCpus(tokens[i + 1..], bound));
      }
    }
  }

  method MaskFromTokens(tokens: seq<string>, bound: nat, numBytes: nat) returns (r: Option<Mask>)
    requires bound <= 8 * numBytes
    ensures r.Some? <==> ListCpus(tokens, bound).Some? && ListCpus(tokens, bound).value != {}
    ensures r.Some? ==> |r.value| == numBytes && CpusOf(r.value) == ListCpus(tokens, bound).value
  {
    var mask := EmptyMask(numBytes);
    var any := false;
    ghost var all, got: set<nat> := ListCpus(tokens, bound), {};
    var i := 0;
    assert tokens[0..] == tokens;
    PlusMore({}, {}, all);
    while i < |tokens|
      invariant 0 <= i <= |tokens|
      invariant |mask| == numBytes && Building(mask, any, got)
      invariant all == Plus(got, ListCpus(tokens[i..], bound))
    {
      var ok;
      ok, mask, any, got := ReadToken(tokens, i, bound, mask, any, got);
      if !ok {
        return None;
      }
      i := i + 1;
    }
    return if any then Some(mask) else None;
  }

  method MaskFromCpuList(list: string, numBytes: nat) returns (r: Option<Mask>)
    ensures r == ListMask(list, numBytes)
  {
    r := MaskFromTokens(Tokens(list), ListBound(numBytes), numBytes);
    if r.Some? { BuiltMask(r.value, numBytes); }
  }

  lemma {:induction false} LenientMeaning(tokens: seq<string>, bound: nat)
    requires Meaning(tokens, bound).Some?
    ensures ListCpus(tokens, bound) == Meaning(tokens, bound)
  {
    if tokens != [] {
      if tokens[0] == "" {
        assert ListCpus(tokens[1..], bound) == Some({});
      } else {
        LenientMeaning(tokens[1..], bound);
      }
    }
  }

  // Whatever the rule parser accepts, the kernel-list parser reads as the same
  // CPUs, and produces byte for byte the mask built from the parsed set.
  lemma ParsersAgree(s: string, numBytes: nat)
    requires 8 * numBytes <= U32_MAX
    requires Denoted(s, 8 * numBytes).Some?
    ensures ListMask(s, numBytes) == Some(MaskOf(Denoted(s, 8 * numBytes).value, numBytes))
  {
    var bound := 8 * numBytes;
    assert ListBound(numBytes) == bound;
    TokensTrim(s);
    assert Denoted(s, bound) == Meaning(Tokens(s), bound);
    LenientMeaning(Tokens(s), bound);
    AcceptedIsNonEmpty(s, bound);
  }

  // ---- The kernel ----

  datatype Errno = ESRCH | EINVAL | EACCES | EPERM | Other(code: int)
  datatype Answer = Accepted | Refused(errno: Errno)
  datatype Call = Call(tid: int, mask: Mask, answer: Answer)

  datatype Failure = NotFound | PermissionDenied | Skipped | InvalidCpuset | Io(errno: Errno)
  datatype Verdict = Ok | Err(failure: Failure) | Aborted

  // What was read from the kernel: the allowed list of a thread, the list of
  // possible CPUs, and the CPUs that are online.
  datatype Query = Status(tid: int, list: Option<string>) | Possible(list: Option<string>) | Online(mask: Option<Mask>)

  // A kernel that may answer anything at any time.  `calls` records what it was
  // asked to do, `queries` what it said about itself.
  class Kernel {
    var calls: seq<Call>
    var queries: seq<Query>

    method SetAffinityFor(tid: int, mask: Mask) returns (answer: Answer)
      modifies this`calls
      ensures calls == old(calls) + [Call(tid, mask, answer)]
    {
      answer := *;
      calls := calls + [Call(tid, mask, answer)];
    }

    method AllowedList(tid: int) returns (list: Option<string>)
      modifies this`queries
      ensures queries == old(queries) + [Status(tid, list)]
    {
      list := *;
      queries := queries + [Status(tid, list)];
    }

    method PossibleList() returns (list: Option<string>)
      modifies this`queries
      ensures queries == old(queries) + [Possible(list)]
    {
      list := *;
      queries := queries + [Possible(list)];
    }

    method OnlineCpus(numBytes: nat) returns (mask: Option<Mask>)
      modifies this`queries
      ensures queries == old(queries) + [Online(mask)]
      ensures mask.Some? ==> |mask.value| == numBytes
    {
      mask := *;
      if mask.Some? && |mask.value| != numBytes {
        mask := None;
      }
      queries := queries + [Online(mask)];
    }
  }

  function Classify(errno: Errno): (f: Failure)
    ensures f == NotFound <==> errno == ESRCH
    ensures f == PermissionDenied <==> errno == EACCES || errno == EPERM
    ensures f != NotFound && f != PermissionDenied ==> f == Io(errno)
  {
    match errno
    case ESRCH => NotFound
    case EACCES => PermissionDenied
    case EPERM => PermissionDenied
    case _ => Io(errno)
  }

  // ---- One pass over the threads ----

  predicate SomeAccepted(calls: seq<Call>) {
    exists i :: 0 <= i < |calls| && calls[i].answer == Accepted
  }

  // The first refusal that is not "that thread is gone".
  function FirstHard(calls: seq<Call>): Option<Errno> {
    if calls == [] then None
    else if calls[0].answer.Refused? && calls[0].answer.errno != ESRCH then Some(calls[0].answer.errno)
    else FirstHard(calls[1..])
  }

  lemma {:induction false} FirstHardSnoc(calls: seq<Call>, c: Call)
    ensures FirstHard(calls + [c]) ==
      if FirstHard(calls).Some? then FirstHard(calls)
      else if c.answer.Refused? && c.answer.errno != ESRCH then Some(c.answer.errno) else None
  {
    var all := calls + [c];
    if calls == [] {
      assert all == [c] && [c][1..] == [];
    } else {
      FirstHardSnoc(calls[1..], c);
      assert all[0] == calls[0] && all[1..] == calls[1..] + [c];
    }
  }

  datatype Outcome = Applied | RetryNarrower | Settled(failure: Failure)

  function PassOutcome(calls: seq<Call>): Outcome {
    if SomeAccepted(calls) then Applied
    else match FirstHard(calls)
      case Some(e) => if e == EINVAL then RetryNarrower else Settled(Classify(e))
      case None => if calls == [] then Applied else Settled(NotFound)
  }

  // The first refusal that says more than that a thread is gone.
  predicate HardAt(calls: seq<Call>, i: nat) {
    && i < |calls| && calls[i].answer.Refused? && calls[i].answer.errno != ESRCH
    && forall k :: 0 <= k < i ==> calls[k].answer == Refused(ESRCH)
  }

  // What a pass comes to, by its answers.  One acceptance is enough; else the first
  // refusal other than ESRCH decides; and threads that are all gone are not found.
  lemma PassMeaning(calls: seq<Call>, i: nat)
    requires !SomeAccepted(calls)
    ensures calls == [] ==> PassOutcome(calls) == Applied
    ensures calls != [] && (forall k :: 0 <= k < |calls| ==> calls[k].answer == Refused(ESRCH)) ==>
      PassOutcome(calls) == Settled(NotFound)
    ensures HardAt(calls, i) ==> PassOutcome(calls) == if calls[i].answer.errno == EINVAL then RetryNarrower else Settled(Classify(calls[i].answer.errno))
  {
    AllGone(calls);
    FirstHardIsFirst(calls, i);
  }

  lemma {:induction false} AllGone(calls: seq<Call>)
    ensures (forall k :: 0 <= k < |calls| ==> calls[k].answer == Refused(ESRCH)) ==> FirstHard(calls) == None
  {
    if calls != [] {
      AllGone(calls[1..]);
      assert forall k :: 0 <= k < |calls| - 1 ==> calls[1..][k] == calls[k + 1];
    }
  }

  lemma {:induction false} FirstHardIsFirst(calls: seq<Call>, i: nat)
    ensures HardAt(calls, i) ==> FirstHard(calls) == Some(calls[i].answer.errno)
  {
    if calls != [] && i > 0 {
      FirstHardIsFirst(calls[1..], i - 1);
      assert forall k :: 0 <= k < |calls| - 1 ==> calls[1..][k] == calls[k + 1];
    }
  }

  predicate IsPass(calls: seq<Call>, tids: seq<int>, mask: Mask) {
    |calls| == |tids| && forall i :: 0 <= i < |calls| ==> calls[i].tid == tids[i] && calls[i].mask == mask
  }

  method ApplyToTids(kernel: Kernel, tids: seq<int>, mask: Mask) returns (outcome: Outcome, ghost pass: seq<Call>)
    modifies kernel`calls
    ensures kernel.calls == old(kernel.calls) + pass
    ensures IsPass(pass, tids, mask) && outcome == PassOutcome(pass)
  {
    var firstErr: Option<Errno> := None;
    var applied, notFound := false, false;
    pass := [];
    var i := 0;
    while i < |tids|
      invariant 0 <= i <= |tids| && IsPass(pass, tids[..i], mask)
      invariant kernel.calls == old(kernel.calls) + pass
      invariant applied == SomeAccepted(pass) && firstErr == FirstHard(pass)
      invariant notFound ==> pass != []
      invariant !applied && firstErr == None && pass != [] ==> notFound
    {
      var answer := kernel.SetAffinityFor(tids[i], mask);
      ghost var c := Call(tids[i], mask, answer);
      FirstHardSnoc(pass, c);
      if SomeAccepted(pass) {
        var k :| 0 <= k < |pass| && pass[k].answer == Accepted;
        assert (pass + [c])[k].answer == Accepted;
      }
      if answer == Accepted { assert (pass + [c])[|pass|].answer == Accepted; }
      pass := pass + [c];
      match answer {
        case Accepted => applied := true;
        case Refused(e) =>
          if e == ESRCH {
            notFound := true;
          } else if firstErr == None {
            firstErr := Some(e);
          }
      }
      i := i + 1;
    }
    assert tids[..i] == tids;
    if applied {
      return Applied, pass;
    }
    match firstErr {
      case Some(e) =>
        if e == EINVAL { return RetryNarrower, pass; }
        return Settled(Classify(e)), pass;
      case None =>
    }
    if notFound {
      return Settled(NotFound), pass;
    }
    return Applied, pass;
  }

  // ---- The whole attribute ----

  function ListIfRead(list: Option<string>, numBytes: nat): (r: Option<Mask>)
    ensures r.Some? ==> |r.value| == numBytes
  {
    match list
    case None => None
    case Some(text) => ListMask(text, numBytes)
  }

  // `asked` says which CPUs the machine has: the possible ones, or failing that the online ones.
  ghost predicate MachineLearned(asked: seq<Query>, numBytes: nat, machine: Option<Mask>) {
    && asked != [] && asked[0].Possible?
    && var possible := ListIfRead(asked[0].list, numBytes);
       if possible.Some? then |asked| == 1 && machine == possible else asked[1..] == [Online(machine)]
  }

  // `asked` says which CPUs the first thread is allowed on, and then which the machine has.
  ghost predicate Learned(asked: seq<Query>, tids: seq<int>, numBytes: nat, allowed: Option<Mask>, machine: Option<Mask>) {
    if tids == [] then asked == [] && allowed == None && machine == None
    else
      && asked != [] && asked[0].Status? && asked[0].tid == tids[0]
      && allowed == ListIfRead(asked[0].list, numBytes)
      && if allowed == None then |asked| == 1 && machine == None else MachineLearned(asked[1..], numBytes, machine)
  }

  // The white space around a list changes nothing.
  lemma ListTrim(text: string, numBytes: nat)
    ensures ListMask(Trim(text), numBytes) == ListMask(text, numBytes)
  {
    TokensTrim(text);
  }

  method ReadMachine(kernel: Kernel, numBytes: nat) returns (machine: Option<Mask>, ghost asked: seq<Query>)
    modifies kernel`queries
    ensures kernel.queries == old(kernel.queries) + asked
    ensures MachineLearned(asked, numBytes, machine)
    ensures machine.Some? ==> |machine.value| == numBytes
  {
    var raw := kernel.PossibleList();
    asked := [Possible(raw)];
    if raw.Some? {
      ListTrim(raw.value, numBytes);
      machine := MaskFromCpuList(Trim(raw.value), numBytes);
      if machine.Some? {
        return;
      }
    }
    machine := kernel.OnlineCpus(numBytes);
    asked := asked + [Online(machine)];
  }

  method CurrentAffinity(kernel: Kernel, tid: int, numBytes: nat) returns (allowed: Option<Mask>, ghost list: Option<string>)
    modifies kernel`queries
    ensures kernel.queries == old(kernel.queries) + [Status(tid, list)]
    ensures allowed == ListIfRead(list, numBytes)
  {
    var line := kernel.AllowedList(tid);
    list := line;
    if line == None {
      return None, list;
    }
    allowed := MaskFromCpuList(line.value, numBytes);
  }

  function SetIn(mask: Option<Mask>): Option<set<nat>> {
    match mask
    case None => None
    case Some(m) => Some(CpusOf(m))
  }

  // Why a refused request is not tried again, on sets of CPUs; None means that a
  // smaller request is left to try.
  function Refusal(requested: set<nat>, allowed: Option<set<nat>>, machine: Option<set<nat>>): Option<Failure> {
    if allowed == None then Some(InvalidCpuset)
    else if machine.Some? && requested !! machine.value then Some(InvalidCpuset)
    else if requested !! allowed.value then Some(if machine.Some? then Skipped else Io(EINVAL))
    else if requested <= allowed.value then Some(Io(EINVAL))
    else None
  }

  // The byte-wise tests decide exactly that.
  lemma RefusalOnMasks(mask: Mask, allowed: Mask, machine: Option<Mask>)
    requires |allowed| == |mask| && (machine.Some? ==> |machine.value| == |mask|)
    ensures Refusal(CpusOf(mask), Some(CpusOf(allowed)), SetIn(machine)) ==
      if machine.Some? && !AnySet(MaskAnd(mask, machine.value)) then Some(InvalidCpuset)
      else if !AnySet(MaskAnd(mask, allowed)) then Some(if machine.Some? then Skipped else Io(EINVAL))
      else if MaskAnd(mask, allowed) == mask then Some(Io(EINVAL))
      else None
    ensures MaskAnd(mask, allowed) == MaskOf(CpusOf(mask) * CpusOf(allowed), |mask|)
  {
    NarrowFacts(mask, allowed);
    if machine.Some? { NarrowFacts(mask, machine.value); }
  }

  lemma NarrowFacts(a: Mask, b: Mask)
    requires |a| == |b|
    ensures AnySet(MaskAnd(a, b)) <==> !(CpusOf(a) !! CpusOf(b))
    ensures MaskAnd(a, b) == a <==> CpusOf(a) <= CpusOf(b)
    ensures MaskAnd(a, b) == MaskOf(CpusOf(a) * CpusOf(b), |a|)
  {
    MaskAndIsIntersection(a, b);
    AnySetIsNonEmpty(MaskAnd(a, b));
    BuiltMask(MaskAnd(a, b), |a|);
    SubsetByMeet(CpusOf(a), CpusOf(b));
    if CpusOf(MaskAnd(a, b)) == CpusOf(a) { MaskUnique(MaskAnd(a, b), a); }
  }

  lemma SubsetByMeet(a: set<nat>, b: set<nat>)
    ensures a <= b <==> a * b == a
    ensures a !! b <==> a * b == {}
  {
    assert a <= b ==> a * b == a;
    assert a * b == a ==> a <= b;
    assert forall c :: c in a && c in b ==> c in a * b;
  }

  function SecondVerdict(pass: seq<Call>): Verdict {
    match PassOutcome(pass)
    case Applied => Ok
    case Settled(e) => Err(e)
    case RetryNarrower => Err(Skipped)
  }

  // One retry with `requested AND allowed`, only when that is smaller and not empty.
  method NarrowAndRetry(kernel: Kernel, tids: seq<int>, mask: Mask)
    returns (verdict: Verdict, ghost pass: seq<Call>, ghost asked: seq<Query>, ghost allowed: Option<Mask>, ghost machine: Option<Mask>)
    modifies kernel
    ensures kernel.calls == old(kernel.calls) + pass && kernel.queries == old(kernel.queries) + asked
    ensures Learned(asked, tids, |mask|, allowed, machine)
    ensures var why := Refusal(CpusOf(mask), SetIn(allowed), SetIn(machine));
      && (why.Some? ==> pass == [] && verdict == Err(why.value))
      && (why == None ==> allowed.Some? && verdict == SecondVerdict(pass))
      && (why == None ==> IsPass(pass, tids, MaskOf(CpusOf(mask) * CpusOf(allowed.value), |mask|)))
  {
    pass, asked, allowed, machine := [], [], None, None;
    if tids == [] {
      verdict := Err(InvalidCpuset);
      return;
    }
    var allow;
    ghost var list;
    allow, list := CurrentAffinity(kernel, tids[0], |mask|);
    asked, allowed := [Status(tids[0], list)], allow;
    if allow == None {
      verdict := Err(InvalidCpuset);
      return;
    }
    var known;
    ghost var more;
    known, more := ReadMachine(kernel, |mask|);
    asked, machine := asked + more, known;
    assert asked[1..] == more;
    RefusalOnMasks(mask, allow.value, known);
    if known.Some? && !AnySet(MaskAnd(mask, known.value)) {
      verdict := Err(InvalidCpuset);
      return;
    }
    var narrowed := MaskAnd(mask, allow.value);
    if !AnySet(narrowed) {
      verdict := Err(if known.Some? then Skipped else Io(EINVAL));
      return;
    }
    if narrowed == mask {
      verdict := Err(Io(EINVAL));
      return;
    }
    var outcome;
    outcome, pass := ApplyToTids(kernel, tids, narrowed);
    match outcome {
      case Applied => verdict := Ok;
      case Settled(e) => verdict := Err(e);
      case RetryNarrower => verdict := Err(Skipped);
    }
  }

  // Everything one request leaves behind: the passes it made, what it read in
  // between, and what that said.
  datatype Trace = Trace(first: seq<Call>, second: seq<Call>, asked: seq<Query>, allowed: Option<Mask>, machine: Option<Mask>)

  // The whole verdict on a request that reached the kernel.
  ghost predicate Explained(requested: set<nat>, tids: seq<int>, numBytes: nat, t: Trace, verdict: Verdict) {
    && IsPass(t.first, tids, MaskOf(requested, numBytes))
    && match PassOutcome(t.first)
       case Applied => verdict == Ok && t.second == [] && t.asked == []
       case Settled(e) => verdict == Err(e) && t.second == [] && t.asked == []
       case RetryNarrower =>
         && Learned(t.asked, tids, numBytes, t.allowed, t.machine)
         && match Refusal(requested, SetIn(t.allowed), SetIn(t.machine))
            case Some(why) => verdict == Err(why) && t.second == []
            case None =>
              && t.allowed.Some?
              && IsPass(t.second, tids, MaskOf(requested * CpusOf(t.allowed.value), numBytes))
              && verdict == SecondVerdict(t.second)
  }

  // A CPU below `numCpus` that a mask of `numCpus / 8` bytes has no bit for.
  predicate PastTheBytes(cpus: set<nat>, numCpus: nat) {
    exists c :: c in cpus && numCpus / 8 * 8 <= c < numCpus
  }

  // The CPUs of a rule that a mask of `numCpus / 8` bytes can name.
  function Requested(cpus: set<nat>, numCpus: nat): set<nat> {
    set c | c in cpus && c < numCpus / 8 * 8
  }

  // Applies a cpuset to every thread of a process, whatever the kernel answers.
  method SetAffinity(kernel: Kernel, tids: seq<int>, cpuset: CpuSet, numCpus: nat)
    returns (verdict: Verdict, ghost t: Trace)
    requires cpuset.Valid()
    modifies kernel
    ensures kernel.calls == old(kernel.calls) + t.first + t.second && kernel.queries == old(kernel.queries) + t.asked
    ensures verdict == Aborted <==> PastTheBytes(cpuset.Cpus(), numCpus)
    ensures cpuset.Cpus() == {} ==> verdict == Ok
    ensures cpuset.Cpus() == {} || verdict == Aborted ==> t.first == [] && t.second == [] && t.asked == []
    ensures cpuset.Cpus() != {} && verdict != Aborted ==>
      Explained(Requested(cpuset.Cpus(), numCpus), tids, numCpus / 8, t, verdict)
    ensures forall c :: c in t.first || c in t.second ==> CpusOf(c.mask) <= cpuset.Cpus()
    ensures (forall c :: c in cpuset.Cpus() ==> c < numCpus) ==>
      forall c :: c in t.first || c in t.second ==> CpusOf(c.mask) != {}
  {
    t := Trace([], [], [], None, None);
    var empty := cpuset.IsEmpty();
    if empty {
      verdict := Ok;
      return;
    }
    var built := MaskFrom(cpuset, numCpus);
    if built == None {
      verdict := Aborted;
      return;
    }
    var mask := built.value;
    MaskOfCpus(cpuset.Cpus(), numCpus / 8);
    BuiltMask(mask, numCpus / 8);
    assert CpusOf(mask) == Requested(cpuset.Cpus(), numCpus);
    var outcome;
    ghost var first;
    outcome, first := ApplyToTids(kernel, tids, mask);
    t := t.(first := first);
    match outcome {
      case Applied => verdict := Ok;
      case Settled(e) => verdict := Err(e);
      case RetryNarrower =>
        ghost var second, asked, allowed, machine;
        verdict, second, asked, allowed, machine := NarrowAndRetry(kernel, tids, mask);
        t := Trace(first, second, asked, allowed, machine);
    }
    MasksAreTheRules(cpuset.Cpus(), numCpus, tids, t, verdict);
  }

  // Every mask handed to the kernel names only CPUs of the rule.  A mask of the first
  // pass is non-empty if and only if the rule names a CPU within the bytes; one
  // of the second always is.
  lemma MasksAreTheRules(cpus: set<nat>, numCpus: nat, tids: seq<int>, t: Trace, verdict: Verdict)
    requires Explained(Requested(cpus, numCpus), tids, numCpus / 8, t, verdict)
    ensures forall c :: c in t.first || c in t.second ==> CpusOf(c.mask) <= cpus
    ensures forall c :: c in t.first ==> (CpusOf(c.mask) != {} <==> exists d :: d in cpus && d < numCpus / 8 * 8)
    ensures forall c :: c in t.second ==> CpusOf(c.mask) != {}
    ensures cpus != {} && !PastTheBytes(cpus, numCpus) && (forall c :: c in cpus ==> c < numCpus) ==>
      forall c :: c in t.first || c in t.second ==> CpusOf(c.mask) != {}
  {
    AffinityIsSafe(Requested(cpus, numCpus), tids, numCpus / 8, t, verdict);
    SomeRequested(cpus, numCpus);
  }

  lemma SomeRequested(cpus: set<nat>, numCpus: nat)
    ensures Requested(cpus, numCpus) <= cpus
    ensures Requested(cpus, numCpus) != {} <==> exists d :: d in cpus && d < numCpus / 8 * 8
    ensures cpus != {} && !PastTheBytes(cpus, numCpus) && (forall c :: c in cpus ==> c < numCpus) ==>
      Requested(cpus, numCpus) == cpus
  {
    if d :| d in cpus && d < numCpus / 8 * 8 { assert d in Requested(cpus, numCpus); }
  }

  // Both halves of that condition are needed.  No rule text denotes a set wider than
  // the machine, but a caller that passes one wholly past the mask hands the kernel a
  // mask of zeroes, which a kernel that accepts it turns into success.
  lemma MaskCanBeEmpty(tid: int)
    ensures var zeroes := MaskOf(Requested({2048}, 1024), 128);
      && !PastTheBytes({2048}, 1024)
      && CpusOf(zeroes) == {}
      && Explained(Requested({2048}, 1024), [tid], 128, Trace([Call(tid, zeroes, Accepted)], [], [], None, None), Ok)
  {
    assert Requested({2048}, 1024) == {};
    MaskOfCpus({}, 128);
    var pass := [Call(tid, MaskOf({}, 128), Accepted)];
    assert pass[0].answer == Accepted;
  }

  // And the last CPU of 1025 has no byte, so naming it aborts; on a multiple of
  // eight CPUs no set does, and on any other number some set does.
  lemma AbortsExactlyOffTheByte(numCpus: nat)
    ensures PastTheBytes({1024}, 1025)
    ensures numCpus % 8 == 0 <==> forall cpus :: !PastTheBytes(cpus, numCpus)
  {
    assert 1024 in {1024};
    if numCpus % 8 != 0 {
      assert numCpus - 1 in {numCpus - 1};
      assert PastTheBytes({numCpus - 1}, numCpus);
    }
  }

  // What that means, for every kernel.  The first pass asks for the rule's CPUs;
  // a second needs a first that nobody accepted and whose first hard error was
  // EINVAL, and then asks for strictly fewer CPUs but at least one, all allowed to
  // the first thread; and with threads to move, Ok means exactly that one of them
  // accepted.
  lemma AffinityIsSafe(requested: set<nat>, tids: seq<int>, numBytes: nat, t: Trace, verdict: Verdict)
    requires Explained(requested, tids, numBytes, t, verdict)
    requires forall c :: c in requested ==> c < 8 * numBytes
    ensures forall c :: c in t.first ==> CpusOf(c.mask) == requested && c.tid in tids
    ensures forall c :: c in t.second ==> CpusOf(c.mask) != {} && CpusOf(c.mask) < requested && c.tid in tids
    ensures t.second != [] ==>
      && !SomeAccepted(t.first) && FirstHard(t.first) == Some(EINVAL)
      && t.asked != [] && t.asked[0].Status? && t.asked[0].tid == tids[0]
      && ListIfRead(t.asked[0].list, numBytes).Some?
      && (forall c :: c in t.second ==> CpusOf(c.mask) <= CpusOf(ListIfRead(t.asked[0].list, numBytes).value))
    ensures tids != [] ==> (verdict == Ok <==> SomeAccepted(t.first) || SomeAccepted(t.second))
  {
    PassMasks(t.first, tids, requested, numBytes);
    if t.second != [] {
      var narrowed := requested * CpusOf(t.allowed.value);
      RetryIsSmaller(requested, CpusOf(t.allowed.value), SetIn(t.machine));
      PassMasks(t.second, tids, narrowed, numBytes);
      assert forall c :: c in t.second ==> CpusOf(c.mask) == narrowed;
    }
    AppliedMeansAccepted(t.first);
    AppliedMeansAccepted(t.second);
  }

  lemma RetryIsSmaller(requested: set<nat>, allowed: set<nat>, machine: Option<set<nat>>)
    requires Refusal(requested, Some(allowed), machine) == None
    ensures requested * allowed != {} && requested * allowed < requested
  {
    SubsetByMeet(requested, allowed);
  }

  lemma PassMasks(pass: seq<Call>, tids: seq<int>, cpus: set<nat>, numBytes: nat)
    requires IsPass(pass, tids, MaskOf(cpus, numBytes)) && forall c :: c in cpus ==> c < 8 * numBytes
    ensures forall c :: c in pass ==> CpusOf(c.mask) == cpus && c.tid in tids
  {
    MaskOfCpus(cpus, numBytes);
    assert CpusOf(MaskOf(cpus, numBytes)) == cpus;
  }

  lemma AppliedMeansAccepted(pass: seq<Call>)
    ensures pass != [] ==> (PassOutcome(pass) == Applied <==> SomeAccepted(pass))
    ensures PassOutcome(pass) == RetryNarrower ==> !SomeAccepted(pass) && FirstHard(pass) == Some(EINVAL)
  {
  }

  // ---- From the text of a rule to the kernel ----

  // Parses a rule's cpuset with the number of CPUs the mask is built for, and applies
  // it.  A text that denotes nothing is refused before the kernel hears of it; any
  // other is asked for, and aborts if and only if it names a CPU past the bytes; and
  // every mask that reaches the kernel is a non-empty part of what the text denotes.
  method ApplyText(kernel: Kernel, tids: seq<int>, text: string, numCpus: nat)
    returns (verdict: Option<Verdict>, ghost t: Trace)
    requires numCpus <= U32_MAX
    modifies kernel
    ensures kernel.calls == old(kernel.calls) + t.first + t.second && kernel.queries == old(kernel.queries) + t.asked
    ensures verdict == None <==> Denoted(text, numCpus) == None
    ensures verdict == None ==> t.first == [] && t.second == [] && t.asked == []
    ensures verdict.Some? ==>
      var cpus := Denoted(text, numCpus).value;
      && (verdict == Some(Aborted) <==> PastTheBytes(cpus, numCpus))
      && (verdict == Some(Aborted) ==> t.first == [] && t.second == [])
      && (verdict != Some(Aborted) ==> Explained(cpus, tids, numCpus / 8, t, verdict.value))
      && forall c :: c in t.first || c in t.second ==> CpusOf(c.mask) != {} && CpusOf(c.mask) <= cpus
  {
    var parsed := CpuSet.Parse(text, numCpus);
    if parsed == null {
      return None, Trace([], [], [], None, None);
    }
    AcceptedIsNonEmpty(text, numCpus);
    SomeRequested(parsed.Cpus(), numCpus);
    var v;
    v, t := SetAffinity(kernel, tids, parsed, numCpus);
    verdict := Some(v);
  }
}
