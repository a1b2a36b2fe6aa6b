/** The two array methods the components rely on, `filter` and `some`,
    as functions over sequences. */
module Seqs {

  /** `s.filter(keep)`: the elements `keep` accepts, in their original order. */
  function Filter<T(!new)>(s: seq<T>, keep: T -> bool): (r: seq<T>)
    ensures |r| <= |s|
    ensures forall x :: x in r <==> x in s && keep(x)
  {
    if |s| == 0 then []
    else
      assert s == [s[0]] + s[1..];
      if keep(s[0]) then [s[0]] + Filter(s[1..], keep) else Filter(s[1..], keep)
  }

  /** Filtering distributes over concatenation: the order of the kept
      elements is the order they had in the input. */
  lemma {:induction false} FilterAppend<T(!new)>(a: seq<T>, b: seq<T>, keep: T -> bool)
    ensures Filter(a + b, keep) == Filter(a, keep) + Filter(b, keep)
  {
    if |a| == 0 {
      assert a + b == b;
    } else {
      var ab := a + b;
      assert ab[0] == a[0];
      assert ab[1..] == a[1..] + b;
      FilterAppend(a[1..], b, keep);
      if keep(a[0]) {
        assert Filter(ab, keep) == [a[0]] + Filter(a[1..] + b, keep);
      } else {
        assert Filter(ab, keep) == Filter(a[1..] + b, keep);
      }
    }
  }

  /** Filtering keeps every accepted element as often as it occurs, and no
      rejected one. */
  lemma {:induction false} FilterCount<T(!new)>(s: seq<T>, keep: T -> bool, x: T)
    ensures multiset(Filter(s, keep))[x] == if keep(x) then multiset(s)[x] else 0
  {
    if |s| > 0 {
      assert s == [s[0]] + s[1..];
      FilterCount(s[1..], keep, x);
    }
  }

  /** `s.some(test)`. */
  function Any<T>(s: seq<T>, test: T -> bool): (r: bool)
    ensures r <==> exists i :: 0 <= i < |s| && test(s[i])
  {
    if |s| == 0 then false
    else test(s[0]) || Any(s[1..], test)
  }

  /** `s.map(f)`. */
  function Map<T, U>(s: seq<T>, f: T -> U): (r: seq<U>)
    ensures |r| == |s|
    ensures forall i :: 0 <= i < |s| ==> r[i] == f(s[i])
  {
    seq(|s|, i requires 0 <= i < |s| => f(s[i]))
  }

  lemma MapAppend<T, U>(a: seq<T>, b: seq<T>, f: T -> U)
    ensures Map(a + b, f) == Map(a, f) + Map(b, f)
  {
  }

  /** Removing position `k` removes one occurrence of its element. */
  lemma RemoveAt<T>(b: seq<T>, k: nat)
    requires k < |b|
    ensures multiset(b[..k] + b[k + 1..]) == multiset(b) - multiset{b[k]}
  {
    assert b == b[..k] + [b[k]] + b[k + 1..];
  }

  /** Mapping commutes with cutting position `k` out. */
  lemma MapSplitAt<T, U>(b: seq<T>, k: nat, f: T -> U)
    requires k < |b|
    ensures multiset(Map(b, f)) == multiset(Map(b[..k] + b[k + 1..], f)) + multiset{f(b[k])}
  {
    var left := Map(b[..k], f);
    var right := Map(b[k + 1..], f);
    assert Map(b, f) == left + [f(b[k])] + right by {
      assert b == b[..k] + [b[k]] + b[k + 1..];
      MapAppend(b[..k] + [b[k]], b[k + 1..], f);
      MapAppend(b[..k], [b[k]], f);
    }
    assert Map(b[..k] + b[k + 1..], f) == left + right by {
      MapAppend(b[..k], b[k + 1..], f);
    }
  }

  /** A position at which `x` occurs in `b`. */
  lemma PositionOf<T>(b: seq<T>, x: T) returns (k: nat)
    requires x in multiset(b)
    ensures k < |b| && b[k] == x
  {
    assert x in b;
    k :| 0 <= k < |b| && b[k] == x;
  }

  /** Mapping a non-empty sequence maps its head and then its tail. */
  lemma MapHead<T, U>(a: seq<T>, f: T -> U)
    requires |a| > 0
    ensures multiset(Map(a, f)) == multiset(Map(a[1..], f)) + multiset{f(a[0])}
  {
    assert Map(a, f) == [f(a[0])] + Map(a[1..], f);
  }

  /** Two permutations of each other, without the head of one and an
      occurrence of it in the other, are still permutations. */
  lemma RemoveMatching<T>(a: seq<T>, b: seq<T>, k: nat)
    requires multiset(a) == multiset(b) && |a| > 0
    requires k < |b| && b[k] == a[0]
    ensures multiset(a[1..]) == multiset(b[..k] + b[k + 1..])
  {
    assert a == [a[0]] + a[1..];
    RemoveAt(b, k);
  }

  /** Mapping two permutations of each other gives permutations of each other. */
  lemma {:induction false} MapPermutation<T, U>(a: seq<T>, b: seq<T>, f: T -> U)
    requires multiset(a) == multiset(b)
    ensures multiset(Map(a, f)) == multiset(Map(b, f))
  {
    if |a| > 0 {
      assert a[0] in multiset(b) by { assert a[0] in multiset(a); }
      var k := PositionOf(b, a[0]);
      var rest := b[..k] + b[k + 1..];
      RemoveMatching(a, b, k);
      MapPermutation(a[1..], rest, f);
      MapSplitAt(b, k, f);
      MapHead(a, f);
    }
  }
}
