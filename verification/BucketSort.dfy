/** Distributing a list over numbered buckets and concatenating them: a stable sort by key. */
module BucketSort {
  import opened Prelude

  function InBucket<T>(key: T -> nat, ts: seq<T>, n: nat): seq<T> {
    if ts == [] then []
    else (if key(ts[0]) == n then [ts[0]] else []) + InBucket(key, ts[1..], n)
  }

  /** The buckets below n, one after the other. */
  function UpTo<T>(key: T -> nat, ts: seq<T>, n: nat): seq<T> {
    if n == 0 then [] else UpTo(key, ts, n - 1) + InBucket(key, ts, n - 1)
  }

  lemma {:induction false} InBucketAppend<T>(key: T -> nat, a: seq<T>, b: seq<T>, n: nat)
    ensures InBucket(key, a + b, n) == InBucket(key, a, n) + InBucket(key, b, n)
  {
    if a == [] {
      assert a + b == b;
    } else {
      assert (a + b)[0] == a[0] && (a + b)[1..] == a[1..] + b;
      InBucketAppend(key, a[1..], b, n);
      Regroup(if key(a[0]) == n then [a[0]] else [], InBucket(key, a[1..], n), InBucket(key, b, n));
    }
  }

  lemma {:induction false} InBucketMembers<T>(key: T -> nat, ts: seq<T>, n: nat)
    ensures forall t :: t in InBucket(key, ts, n) ==> key(t) == n
  {
    if ts != [] {
      InBucketMembers(key, ts[1..], n);
    }
  }

  lemma {:induction false} InBucketOfBucket<T>(key: T -> nat, ts: seq<T>, m: nat, n: nat)
    ensures InBucket(key, InBucket(key, ts, m), n) == if m == n then InBucket(key, ts, n) else []
  {
    if ts != [] {
      InBucketOfBucket(key, ts[1..], m, n);
      var first := if key(ts[0]) == m then [ts[0]] else [];
      InBucketAppend(key, first, InBucket(key, ts[1..], m), n);
    }
  }

  lemma {:induction false} BucketIsFilter<T(!new)>(key: T -> nat, p: T -> bool, ts: seq<T>, n: nat)
    requires forall t :: p(t) <==> key(t) == n
    ensures Filter(p, ts) == InBucket(key, ts, n)
  {
    if ts != [] {
      BucketIsFilter(key, p, ts[1..], n);
    }
  }

  function Count<T(==)>(s: seq<T>, x: T): nat {
    if s == [] then 0 else (if s[0] == x then 1 else 0) + Count(s[1..], x)
  }

  lemma {:induction false} CountAppend<T>(a: seq<T>, b: seq<T>, x: T)
    ensures Count(a + b, x) == Count(a, x) + Count(b, x)
  {
    if a == [] {
      assert a + b == b;
    } else {
      assert (a + b)[0] == a[0] && (a + b)[1..] == a[1..] + b;
      CountAppend(a[1..], b, x);
    }
  }

  lemma {:induction false} CountIsMultiplicity<T>(s: seq<T>, x: T)
    ensures Count(s, x) == multiset(s)[x]
  {
    if s != [] {
      CountIsMultiplicity(s[1..], x);
      assert s == [s[0]] + s[1..];
    }
  }

  lemma {:induction false} InBucketCount<T>(key: T -> nat, ts: seq<T>, n: nat, x: T)
    ensures Count(InBucket(key, ts, n), x) == if key(x) == n then Count(ts, x) else 0
  {
    if ts != [] {
      InBucketCount(key, ts[1..], n, x);
      CountAppend(if key(ts[0]) == n then [ts[0]] else [], InBucket(key, ts[1..], n), x);
      assert [ts[0]][1..] == [];
    }
  }

  lemma {:induction false} UpToCount<T>(key: T -> nat, ts: seq<T>, n: nat, x: T)
    ensures Count(UpTo(key, ts, n), x) == if key(x) < n then Count(ts, x) else 0
  {
    if n > 0 {
      UpToCount(key, ts, n - 1, x);
      InBucketCount(key, ts, n - 1, x);
      CountAppend(UpTo(key, ts, n - 1), InBucket(key, ts, n - 1), x);
    }
  }

  /** If every key is below n, the buckets hold exactly the list's elements. */
  lemma UpToPermutes<T(!new)>(key: T -> nat, ts: seq<T>, n: nat)
    requires forall t :: t in ts ==> key(t) < n
    ensures multiset(UpTo(key, ts, n)) == multiset(ts)
  {
    forall x ensures multiset(UpTo(key, ts, n))[x] == multiset(ts)[x] {
      UpToCount(key, ts, n, x);
      CountIsMultiplicity(UpTo(key, ts, n), x);
      CountIsMultiplicity(ts, x);
      assert x in multiset(ts) ==> x in ts;
    }
  }

  lemma {:induction false} UpToSorted<T>(key: T -> nat, ts: seq<T>, n: nat)
    ensures forall t :: t in UpTo(key, ts, n) ==> key(t) < n
    ensures forall i, j :: 0 <= i < j < |UpTo(key, ts, n)| ==> key(UpTo(key, ts, n)[i]) <= key(UpTo(key, ts, n)[j])
  {
    if n > 0 {
      UpToSorted(key, ts, n - 1);
      InBucketMembers(key, ts, n - 1);
    }
  }

  /** Inside a bucket the order of the list is kept. */
  lemma {:induction false} UpToStable<T>(key: T -> nat, ts: seq<T>, n: nat, m: nat)
    ensures InBucket(key, UpTo(key, ts, m), n) == if n < m then InBucket(key, ts, n) else []
  {
    if m > 0 {
      UpToStable(key, ts, n, m - 1);
      InBucketAppend(key, UpTo(key, ts, m - 1), InBucket(key, ts, m - 1), n);
      InBucketOfBucket(key, ts, m - 1, n);
      Either(InBucket(key, UpTo(key, ts, m - 1), n), InBucket(key, InBucket(key, ts, m - 1), n), InBucket(key, ts, n),
             n < m - 1, m - 1 == n);
    }
  }

  lemma Either<T>(a: seq<T>, b: seq<T>, s: seq<T>, first: bool, second: bool)
    requires !(first && second)
    requires a == (if first then s else []) && b == (if second then s else [])
    ensures a + b == if first || second then s else []
  {}
}
