/** Lexicographic comparison of integer sequences, in the three-valued style
    of a JavaScript sort comparator (negative, zero, positive). It is the
    order used for plugin names and, on a rank key, the plugin order itself. */
module LexOrder {

  /** Compare two sequences element by element; a proper prefix sorts first. */
  function LexCompare(a: seq<int>, b: seq<int>): (r: int)
    ensures -1 <= r <= 1
    ensures r == 0 <==> a == b
  {
    if |a| == 0 then (if |b| == 0 then 0 else -1)
    else if |b| == 0 then 1
    else if a[0] < b[0] then -1
    else if a[0] > b[0] then 1
    else
      assert a == [a[0]] + a[1..] && b == [b[0]] + b[1..];
      LexCompare(a[1..], b[1..])
  }

  /** Swapping the arguments negates the result. */
  lemma {:induction false} LexAntisymmetric(a: seq<int>, b: seq<int>)
    ensures LexCompare(a, b) == -LexCompare(b, a)
  {
    if |a| > 0 && |b| > 0 && a[0] == b[0] {
      LexAntisymmetric(a[1..], b[1..]);
    }
  }

  /** "Sorts no later than" is transitive. */
  lemma {:induction false} LexTransitive(a: seq<int>, b: seq<int>, c: seq<int>)
    requires LexCompare(a, b) <= 0 && LexCompare(b, c) <= 0
    ensures LexCompare(a, c) <= 0
  {
    if |a| > 0 && |b| > 0 && |c| > 0 && a[0] == b[0] == c[0] {
      LexTransitive(a[1..], b[1..], c[1..]);
    }
  }

  /** A common prefix does not influence the comparison. */
  lemma {:induction false} LexCommonPrefix(p: seq<int>, a: seq<int>, b: seq<int>)
    ensures LexCompare(p + a, p + b) == LexCompare(a, b)
  {
    if |p| == 0 {
      assert p + a == a && p + b == b;
    } else {
      assert (p + a)[1..] == p[1..] + a;
      assert (p + b)[1..] == p[1..] + b;
      LexCommonPrefix(p[1..], a, b);
    }
  }

  /** Comparing two sequences with a one-element head decides on the heads first. */
  lemma LexCons(x: int, s: seq<int>, y: int, t: seq<int>)
    ensures LexCompare([x] + s, [y] + t)
         == if x < y then -1 else if x > y then 1 else LexCompare(s, t)
  {
  }

  /** Two equally long prefixes that first differ at position `i` decide the
      comparison there, whatever follows them. */
  lemma {:induction false} LexFirstDifference(p: seq<int>, q: seq<int>, s: seq<int>, t: seq<int>, i: nat)
    requires |p| == |q| && i < |p|
    requires p[..i] == q[..i] && p[i] != q[i]
    ensures LexCompare(p + s, q + t) == if p[i] < q[i] then -1 else 1
  {
    assert p + s == [p[0]] + (p[1..] + s);
    assert q + t == [q[0]] + (q[1..] + t);
    LexCons(p[0], p[1..] + s, q[0], q[1..] + t);
    if i > 0 {
      assert p[0] == p[..i][0] == q[..i][0] == q[0];
      assert p[1..][..i - 1] == p[1..i] == q[1..i] == q[1..][..i - 1];
      LexFirstDifference(p[1..], q[1..], s, t, i - 1);
    }
  }

  /** The character codes of a string. */
  function Codes(s: string): (r: seq<int>)
    ensures |r| == |s|
    ensures forall i :: 0 <= i < |s| ==> r[i] == s[i] as int
  {
    seq(|s|, i requires 0 <= i < |s| => s[i] as int)
  }

  /** Two strings with the same character codes are the same string. */
  lemma CodesInjective(x: string, y: string)
    requires Codes(x) == Codes(y)
    ensures x == y
  {
  }

  /** The name order standing in for `String.prototype.localeCompare`:
      code-point lexicographic order. */
  function NameCompare(x: string, y: string): (r: int)
    ensures -1 <= r <= 1
    ensures r == 0 <==> x == y
  {
    var r := LexCompare(Codes(x), Codes(y));
    assert r == 0 ==> x == y by {
      if r == 0 { CodesInjective(x, y); }
    }
    r
  }
}
