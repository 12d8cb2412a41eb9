/** Option and Result, and the sequence vocabulary shared by all components. */
module Prelude {
  datatype Option<+T> = None | Some(value: T)

  datatype Result<+T, +E> = Ok(value: T) | Err(error: E)

  /** The elements of s that satisfy p, in order. */
  function Filter<T>(p: T -> bool, s: seq<T>): seq<T> {
    if s == [] then []
    else (if p(s[0]) then [s[0]] else []) + Filter(p, s[1..])
  }

  lemma Regroup<T>(a: seq<T>, b: seq<T>, c: seq<T>)
    ensures a + (b + c) == a + b + c
  {}

  lemma {:induction false} FilterAppend<T>(p: T -> bool, a: seq<T>, b: seq<T>)
    ensures Filter(p, a + b) == Filter(p, a) + Filter(p, b)
  {
    if a == [] {
      assert a + b == b;
    } else {
      assert (a + b)[0] == a[0] && (a + b)[1..] == a[1..] + b;
      FilterAppend(p, a[1..], b);
      Regroup(if p(a[0]) then [a[0]] else [], Filter(p, a[1..]), Filter(p, b));
    }
  }

  lemma {:induction false} FilterMember<T>(p: T -> bool, s: seq<T>, x: T)
    ensures x in Filter(p, s) <==> x in s && p(x)
  {
    if s != [] {
      FilterMember(p, s[1..], x);
      assert s == [s[0]] + s[1..];
    }
  }

  lemma {:induction false} FilterNone<T>(p: T -> bool, s: seq<T>)
    requires forall x :: x in s ==> !p(x)
    ensures Filter(p, s) == []
  {
    if s != [] {
      FilterNone(p, s[1..]);
    }
  }

  lemma {:induction false} FilterAll<T>(p: T -> bool, s: seq<T>)
    requires forall x :: x in s ==> p(x)
    ensures Filter(p, s) == s
  {
    if s != [] {
      FilterAll(p, s[1..]);
    }
  }
}
