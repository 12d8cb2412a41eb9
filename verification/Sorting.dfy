/** Sorting of number lists, with and without removal of duplicates. */
module Sorting {
  predicate Increasing(s: seq<nat>) {
    forall i, j :: 0 <= i < j < |s| ==> s[i] < s[j]
  }

  predicate Sorted(s: seq<nat>) {
    forall i, j :: 0 <= i < j < |s| ==> s[i] <= s[j]
  }

  lemma SortedCons(x: nat, s: seq<nat>)
    ensures Sorted([x] + s) <==> Sorted(s) && forall y :: y in s ==> x <= y
  {
    var t := [x] + s;
    if Sorted(t) {
      forall i, j | 0 <= i < j < |s| ensures s[i] <= s[j] {
        assert t[i + 1] <= t[j + 1];
      }
      forall y | y in s ensures x <= y {
        var i :| 0 <= i < |s| && s[i] == y;
        assert t[0] <= t[i + 1];
      }
    } else {
      var i, j :| 0 <= i < j < |t| && !(t[i] <= t[j]);
      assert t[j] == s[j - 1] && s[j - 1] in s;
      assert i > 0 ==> t[i] == s[i - 1];
    }
  }

  lemma IncreasingCons(x: nat, s: seq<nat>)
    ensures Increasing([x] + s) <==> Increasing(s) && forall y :: y in s ==> x < y
  {
    var t := [x] + s;
    if Increasing(t) {
      forall i, j | 0 <= i < j < |s| ensures s[i] < s[j] {
        assert t[i + 1] < t[j + 1];
      }
      forall y | y in s ensures x < y {
        var i :| 0 <= i < |s| && s[i] == y;
        assert t[0] < t[i + 1];
      }
    } else {
      var i, j :| 0 <= i < j < |t| && !(t[i] < t[j]);
      assert t[j] == s[j - 1] && s[j - 1] in s;
      assert i > 0 ==> t[i] == s[i - 1];
    }
  }

  lemma SameMembers(a: seq<nat>, b: seq<nat>)
    requires multiset(a) == multiset(b)
    ensures forall y :: y in a <==> y in b
  {
    assert forall y :: y in a <==> y in multiset(a);
    assert forall y :: y in b <==> y in multiset(b);
  }

  function Insert(x: nat, s: seq<nat>): (r: seq<nat>)
    requires Sorted(s)
    ensures Sorted(r) && multiset(r) == multiset{x} + multiset(s)
  {
    if s == [] then [x]
    else
      assert s == [s[0]] + s[1..];
      SortedCons(s[0], s[1..]);
      if x <= s[0] then
        SortedCons(x, s);
        [x] + s
      else
        var rest := Insert(x, s[1..]);
        SameMembers(rest, [x] + s[1..]);
        SortedCons(s[0], rest);
        [s[0]] + rest
  }

  /** slice::sort_unstable on numbers. */
  function Sort(s: seq<nat>): (r: seq<nat>)
    ensures Sorted(r) && multiset(r) == multiset(s)
  {
    if s == [] then []
    else
      assert s == [s[0]] + s[1..];
      Insert(s[0], Sort(s[1..]))
  }

  /** Vec::dedup on a sorted list. */
  function Dedup(s: seq<nat>): (r: seq<nat>)
    requires Sorted(s)
    ensures Increasing(r) && forall x :: x in r <==> x in s
  {
    if |s| <= 1 then s
    else
      assert s == [s[0]] + s[1..];
      SortedCons(s[0], s[1..]);
      var rest := Dedup(s[1..]);
      if s[0] == s[1] then rest
      else
        assert s[1..] == [s[1]] + s[2..];
        SortedCons(s[1], s[2..]);
        IncreasingCons(s[0], rest);
        [s[0]] + rest
  }

  function SortDedup(s: seq<nat>): (r: seq<nat>)
    ensures Increasing(r) && forall x :: x in r <==> x in s
  {
    assert forall x :: x in Sort(s) <==> x in multiset(Sort(s));
    assert forall x :: x in s <==> x in multiset(s);
    Dedup(Sort(s))
  }

  /** An increasing list is determined by its elements. */
  lemma {:induction false} IncreasingUnique(a: seq<nat>, b: seq<nat>)
    requires Increasing(a) && Increasing(b) && forall x :: x in a <==> x in b
    ensures a == b
  {
    FirstMember(a);
    FirstMember(b);
    if a != [] && b != [] {
      TailMembers(a);
      TailMembers(b);
      assert a[0] in b && b[0] in a;
      IncreasingUnique(a[1..], b[1..]);
    }
  }

  lemma FirstMember(s: seq<nat>)
    ensures s != [] ==> s[0] in s
  {}

  lemma TailMembers(s: seq<nat>)
    requires s != [] && Increasing(s)
    ensures Increasing(s[1..])
    ensures forall x :: x in s[1..] <==> x in s && s[0] < x
    ensures forall x :: x in s ==> s[0] <= x
  {
    assert s == [s[0]] + s[1..];
    IncreasingCons(s[0], s[1..]);
  }
}
