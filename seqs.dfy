/** Generic sequence vocabulary shared by the storage diff, the Steam and
    Epic normalisers and the notification policy: order-preserving
    filtering, de-duplication by a key that keeps the first occurrence,
    and the subsequence relation both of them establish. */
module Seqs {

  /** `a` can be obtained from `b` by deleting elements, keeping order.
      Matching is greedy from the back, which loses no embedding. */
  ghost predicate IsSubsequence<T>(a: seq<T>, b: seq<T>)
    decreases |b|
  {
    if a == [] then true
    else if b == [] then false
    else if a[|a| - 1] == b[|b| - 1] then IsSubsequence(a[..|a| - 1], b[..|b| - 1])
    else IsSubsequence(a, b[..|b| - 1])
  }

  lemma {:induction false} SubsequenceDropLast<T>(a: seq<T>, b: seq<T>)
    requires a != [] && IsSubsequence(a, b)
    ensures IsSubsequence(a[..|a| - 1], b)
    decreases |b|, 1
  {
    var b' := b[..|b| - 1];
    if a[|a| - 1] == b[|b| - 1] {
      SubsequenceExtend(a[..|a| - 1], b', b[|b| - 1]);
    } else {
      SubsequenceDropLast(a, b');
      SubsequenceExtend(a[..|a| - 1], b', b[|b| - 1]);
    }
    assert b' + [b[|b| - 1]] == b;
  }

  /** Appending to the longer sequence keeps a subsequence a subsequence. */
  lemma {:induction false} SubsequenceExtend<T>(a: seq<T>, b: seq<T>, x: T)
    requires IsSubsequence(a, b)
    ensures IsSubsequence(a, b + [x])
    decreases |b| + 1, 0
  {
    assert (b + [x])[..|b|] == b;
    if a != [] && a[|a| - 1] == x {
      SubsequenceDropLast(a, b);
    }
  }

  /** Appending the same element to both sides keeps the relation. */
  lemma SubsequenceAppendBoth<T>(a: seq<T>, b: seq<T>, x: T)
    requires IsSubsequence(a, b)
    ensures IsSubsequence(a + [x], b + [x])
  {
    assert (a + [x])[..|a|] == a;
    assert (b + [x])[..|b|] == b;
  }

  lemma {:induction false} SubsequenceMembers<T>(a: seq<T>, b: seq<T>)
    requires IsSubsequence(a, b)
    ensures forall x :: x in a ==> x in b
    decreases |b|
  {
    if a != [] {
      var b' := b[..|b| - 1];
      assert b == b' + [b[|b| - 1]];
      if a[|a| - 1] == b[|b| - 1] {
        SubsequenceMembers(a[..|a| - 1], b');
        assert a == a[..|a| - 1] + [a[|a| - 1]];
      } else {
        SubsequenceMembers(a, b');
      }
    }
  }

  /** The elements of `s` that satisfy `p`, in the order of `s`
      (JavaScript's `Array.prototype.filter`). */
  function Filter<T(!new)>(s: seq<T>, p: T -> bool): (r: seq<T>)
    ensures |r| <= |s|
    ensures forall x :: x in r <==> x in s && p(x)
    ensures forall x :: multiset(r)[x] == if p(x) then multiset(s)[x] else 0
    ensures IsSubsequence(r, s)
  {
    if s == [] then []
    else
      var front, last := s[..|s| - 1], s[|s| - 1];
      assert s == front + [last];
      var r := Filter(front, p);
      if p(last) then
        SubsequenceAppendBoth(r, front, last);
        r + [last]
      else
        SubsequenceExtend(r, front, last);
        r
  }

  lemma FilterAppend<T(!new)>(s: seq<T>, x: T, p: T -> bool)
    ensures Filter(s + [x], p) == Filter(s, p) + (if p(x) then [x] else [])
  {
    assert (s + [x])[..|s|] == s;
  }

  /** Filtering twice by `p` then `q` is filtering once by `q` when `q` implies `p`. */
  lemma {:induction false} FilterAbsorb<T(!new)>(s: seq<T>, p: T -> bool, q: T -> bool)
    requires forall x :: q(x) ==> p(x)
    ensures Filter(Filter(s, p), q) == Filter(s, q)
  {
    if s != [] {
      var front, last := s[..|s| - 1], s[|s| - 1];
      FilterAbsorb(front, p, q);
      if p(last) {
        var f := Filter(front, p);
        assert (f + [last])[..|f|] == f;
      }
    }
  }

  /** Filtering depends only on the values of the predicate. */
  lemma {:induction false} FilterCongruent<T(!new)>(s: seq<T>, p: T -> bool, q: T -> bool)
    requires forall x :: p(x) == q(x)
    ensures Filter(s, p) == Filter(s, q)
  {
    if s != [] {
      FilterCongruent(s[..|s| - 1], p, q);
    }
  }

  /** The set of keys `key` assigns to the elements of `s`. */
  function KeysOf<T(==), K(==)>(s: seq<T>, key: T -> K): set<K>
  {
    set x | x in s :: key(x)
  }

  lemma KeysOfAppend<T, K>(a: seq<T>, x: T, key: T -> K)
    ensures KeysOf(a + [x], key) == KeysOf(a, key) + {key(x)}
  {
    assert forall y :: y in a + [x] <==> y in a || y == x;
  }

  /** The first element of `s` whose key is `k`. */
  function FirstWith<T(==), K(==)>(s: seq<T>, key: T -> K, k: K): (x: T)
    requires k in KeysOf(s, key)
    ensures x in s && key(x) == k
  {
    if key(s[0]) == k then s[0]
    else
      var y :| y in s && key(y) == k;
      assert y in s[1..] by { assert s == [s[0]] + s[1..]; }
      FirstWith(s[1..], key, k)
  }

  /** A key that already occurs in `a` is first found in `a`, whatever follows. */
  lemma {:induction false} FirstWithPrefix<T, K>(a: seq<T>, b: seq<T>, key: T -> K, k: K)
    requires k in KeysOf(a, key)
    ensures k in KeysOf(a + b, key) && FirstWith(a + b, key, k) == FirstWith(a, key, k)
  {
    var y :| y in a && key(y) == k;
    assert y in a + b;
    if key(a[0]) != k {
      assert y in a[1..] by { assert a == [a[0]] + a[1..]; }
      FirstWithPrefix(a[1..], b, key, k);
      assert (a + b)[1..] == a[1..] + b;
    }
  }

  /** A key absent from `a` is first found in `b`. */
  lemma {:induction false} FirstWithSuffix<T, K>(a: seq<T>, b: seq<T>, key: T -> K, k: K)
    requires k !in KeysOf(a, key) && k in KeysOf(b, key)
    ensures k in KeysOf(a + b, key) && FirstWith(a + b, key, k) == FirstWith(b, key, k)
  {
    var y :| y in b && key(y) == k;
    assert y in a + b;
    if a != [] {
      assert key(a[0]) != k by { assert a[0] in a; }
      assert k !in KeysOf(a[1..], key) by {
        forall z | z in a[1..] ensures key(z) != k { assert z in a; }
      }
      FirstWithSuffix(a[1..], b, key, k);
      assert (a + b)[1..] == a[1..] + b;
    } else {
      assert a + b == b;
    }
  }

  /** The elements of `s` whose key has not occurred earlier in `s`, in order:
      what filtering through a `seen` set yields. */
  function Distinct<T(==), K(==)>(s: seq<T>, key: T -> K): (r: seq<T>)
    ensures IsSubsequence(r, s)
  {
    if s == [] then []
    else
      var front, last := s[..|s| - 1], s[|s| - 1];
      var r := Distinct(front, key);
      if key(last) in KeysOf(front, key) then
        SubsequenceExtend(r, front, last);
        assert front + [last] == s;
        r
      else
        SubsequenceAppendBoth(r, front, last);
        assert front + [last] == s;
        r + [last]
  }

  /** `Distinct` keeps exactly one element per key, and it is the first
      element of the input with that key. */
  lemma {:induction false} DistinctSpec<T, K>(s: seq<T>, key: T -> K)
    ensures KeysOf(Distinct(s, key), key) == KeysOf(s, key)
    ensures forall i, j :: 0 <= i < j < |Distinct(s, key)| ==>
              key(Distinct(s, key)[i]) != key(Distinct(s, key)[j])
    ensures forall x :: x in Distinct(s, key) ==>
              key(x) in KeysOf(s, key) && x == FirstWith(s, key, key(x))
  {
    if s != [] {
      var front, last := s[..|s| - 1], s[|s| - 1];
      assert s == front + [last];
      var r := Distinct(front, key);
      DistinctSpec(front, key);
      KeysOfAppend(front, last, key);
      forall x | x in r
        ensures key(x) in KeysOf(s, key) && x == FirstWith(s, key, key(x))
      {
        FirstWithPrefix(front, [last], key, key(x));
      }
      if key(last) !in KeysOf(front, key) {
        KeysOfAppend(r, last, key);
        assert key(last) in KeysOf([last], key);
        FirstWithSuffix(front, [last], key, key(last));
        forall i | 0 <= i < |r| ensures key(r[i]) != key(last) {
          assert r[i] in r;
        }
      }
    }
  }

  /** The position of the first element of `s` whose key is `k`. */
  function FirstIndexWith<T(==), K(==)>(s: seq<T>, key: T -> K, k: K): (i: nat)
    requires k in KeysOf(s, key)
    ensures i < |s| && key(s[i]) == k
    ensures forall j :: 0 <= j < i ==> key(s[j]) != k
  {
    if key(s[0]) == k then 0
    else
      var y :| y in s && key(y) == k;
      assert y in s[1..] by { assert s == [s[0]] + s[1..]; }
      var i := FirstIndexWith(s[1..], key, k);
      assert forall j :: 1 <= j <= i ==> s[j] == s[1..][j - 1];
      1 + i
  }

  /** Appending to `s` does not move the first position of a key `s` has;
      a new key appended last is first found at the end. */
  lemma FirstIndexWithAppend<T, K>(s: seq<T>, x: T, key: T -> K)
    ensures forall k :: k in KeysOf(s, key) ==>
              k in KeysOf(s + [x], key) && FirstIndexWith(s + [x], key, k) == FirstIndexWith(s, key, k)
    ensures key(x) !in KeysOf(s, key) ==>
              key(x) in KeysOf(s + [x], key) && FirstIndexWith(s + [x], key, key(x)) == |s|
  {
    KeysOfAppend(s, x, key);
    forall k | k in KeysOf(s, key)
      ensures FirstIndexWith(s + [x], key, k) == FirstIndexWith(s, key, k)
    {
      var i1, i2 := FirstIndexWith(s + [x], key, k), FirstIndexWith(s, key, k);
      assert (s + [x])[i2] == s[i2];
    }
  }

  /** `Distinct` keeps the input's order of first occurrence of each key. */
  lemma {:induction false} DistinctKeepsFirstOrder<T, K>(s: seq<T>, key: T -> K)
    ensures forall x :: x in Distinct(s, key) ==> key(x) in KeysOf(s, key)
    ensures forall i, j :: 0 <= i < j < |Distinct(s, key)| ==>
              FirstIndexWith(s, key, key(Distinct(s, key)[i])) < FirstIndexWith(s, key, key(Distinct(s, key)[j]))
  {
    if s != [] {
      var front, last := s[..|s| - 1], s[|s| - 1];
      assert s == front + [last];
      var r := Distinct(front, key);
      DistinctKeepsFirstOrder(front, key);
      FirstIndexWithAppend(front, last, key);
      if key(last) in KeysOf(front, key) {
        assert Distinct(s, key) == r;
        DistinctOrderKept(front, last, key, r);
      } else {
        assert Distinct(s, key) == r + [last];
        DistinctOrderExtended(front, last, key, r);
      }
    }
  }

  lemma DistinctOrderKept<T, K>(front: seq<T>, last: T, key: T -> K, r: seq<T>)
    requires forall x :: x in r ==> key(x) in KeysOf(front, key)
    requires forall i, j :: 0 <= i < j < |r| ==>
               FirstIndexWith(front, key, key(r[i])) < FirstIndexWith(front, key, key(r[j]))
    requires forall k :: k in KeysOf(front, key) ==>
               k in KeysOf(front + [last], key) && FirstIndexWith(front + [last], key, k) == FirstIndexWith(front, key, k)
    ensures forall x :: x in r ==> key(x) in KeysOf(front + [last], key)
    ensures forall i, j :: 0 <= i < j < |r| ==>
              FirstIndexWith(front + [last], key, key(r[i])) < FirstIndexWith(front + [last], key, key(r[j]))
  {
    forall i, j | 0 <= i < j < |r|
      ensures FirstIndexWith(front + [last], key, key(r[i])) < FirstIndexWith(front + [last], key, key(r[j]))
    {
      assert r[i] in r && r[j] in r;
    }
  }

  lemma DistinctOrderExtended<T, K>(front: seq<T>, last: T, key: T -> K, r: seq<T>)
    requires forall x :: x in r ==> key(x) in KeysOf(front, key)
    requires forall i, j :: 0 <= i < j < |r| ==>
               FirstIndexWith(front, key, key(r[i])) < FirstIndexWith(front, key, key(r[j]))
    requires forall k :: k in KeysOf(front, key) ==>
               k in KeysOf(front + [last], key) && FirstIndexWith(front + [last], key, k) == FirstIndexWith(front, key, k)
    requires key(last) !in KeysOf(front, key)
    ensures forall x :: x in r + [last] ==> key(x) in KeysOf(front + [last], key)
    ensures forall i, j :: 0 <= i < j < |r + [last]| ==>
              FirstIndexWith(front + [last], key, key((r + [last])[i])) < FirstIndexWith(front + [last], key, key((r + [last])[j]))
  {
    var s := front + [last];
    KeysOfAppend(front, last, key);
    assert FirstIndexWith(s, key, key(last)) == |front|;
    DistinctOrderKept(front, last, key, r);
    forall i, j | 0 <= i < j < |r + [last]|
      ensures FirstIndexWith(s, key, key((r + [last])[i])) < FirstIndexWith(s, key, key((r + [last])[j]))
    {
      assert (r + [last])[i] == r[i];
      if j == |r| {
        assert (r + [last])[j] == last;
        assert r[i] in r;
      } else {
        assert (r + [last])[j] == r[j];
      }
    }
  }

  /** When `a`'s keys come first, every kept element whose key occurs in `a`
      is the first such element of `a`: on a collision `a` wins. */
  lemma DistinctPrefersFirst<T, K>(a: seq<T>, b: seq<T>, key: T -> K)
    ensures forall x :: x in Distinct(a + b, key) && key(x) in KeysOf(a, key) ==>
              x in a && x == FirstWith(a, key, key(x))
  {
    DistinctSpec(a + b, key);
    forall x | x in Distinct(a + b, key) && key(x) in KeysOf(a, key)
      ensures x in a && x == FirstWith(a, key, key(x))
    {
      FirstWithPrefix(a, b, key, key(x));
    }
  }
}
