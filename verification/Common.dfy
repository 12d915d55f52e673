// Small vocabulary shared by every module.
module Common {

  datatype Option<+T> = None | Some(value: T)

  // The elements of a sequence are pairwise different.
  predicate NoDup<T(==)>(s: seq<T>) {
    forall i, j :: 0 <= i < j < |s| ==> s[i] != s[j]
  }

  // Strictly ascending, which is the order a BTreeSet or BTreeMap is walked in.
  predicate StrictlyAscending(s: seq<nat>) {
    forall i, j :: 0 <= i < j < |s| ==> s[i] < s[j]
  }

  ghost function Elems<T>(s: seq<T>): set<T> {
    set x | x in s
  }

  lemma {:induction false} SubsetSize<T>(a: set<T>, b: set<T>)
    requires a <= b
    ensures |a| <= |b|
    decreases a
  {
    if x :| x in a {
      SubsetSize(a - {x}, b - {x});
    }
  }

  // The set of a duplicate-free sequence is as large as the sequence is long.
  lemma {:induction false} NoDupSize<T>(s: seq<T>)
    requires NoDup(s)
    ensures |Elems(s)| == |s|
  {
    if s == [] {
      assert Elems(s) == {};
    } else {
      NoDupSize(s[1..]);
      assert Elems(s) == Elems(s[1..]) + {s[0]};
    }
  }

  ghost function MinOf(s: set<nat>): (m: nat)
    requires s != {}
    ensures m in s && forall x :: x in s ==> m <= x
  {
    var y :| y in s;
    var s' := s - {y};
    assert s == s' + {y};
    if s' == {} then y else if y < MinOf(s') then y else MinOf(s')
  }

  lemma AscendingCons(m: nat, rest: seq<nat>, s: set<nat>)
    requires m in s && (forall x :: x in s ==> m <= x)
    requires StrictlyAscending(rest) && Elems(rest) == s - {m}
    ensures StrictlyAscending([m] + rest) && Elems([m] + rest) == s
  {
    assert forall i :: 0 <= i < |rest| ==> rest[i] in Elems(rest);
    assert Elems([m] + rest) == {m} + Elems(rest);
  }

  // The order a BTreeSet is walked in.
  function Ascending(s: set<nat>): (r: seq<nat>)
    ensures StrictlyAscending(r) && Elems(r) == s && |r| == |s|
  {
    if s == {} then []
    else
      assert MinOf(s) in s && forall x :: x in s ==> MinOf(s) <= x;
      var m :| m in s && forall x :: x in s ==> m <= x;
      var rest := Ascending(s - {m});
      AscendingCons(m, rest, s);
      [m] + rest
  }
}
