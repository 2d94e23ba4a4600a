/** Facts about sequence concatenation and slicing, stated for any element
    type. The model's sequences hold strings and records of strings; proving
    these steps once, generically, keeps the solver from comparing those
    elements character by character. */
module Seqs {

  lemma EmptyRight<X>(a: seq<X>)
    ensures a + [] == a
  {
  }

  lemma EmptyLeft<X>(a: seq<X>)
    ensures [] + a == a
  {
  }

  lemma Assoc<X>(a: seq<X>, b: seq<X>, c: seq<X>)
    ensures a + b + c == a + (b + c)
  {
  }

  lemma Assoc4<X>(a: seq<X>, b: seq<X>, c: seq<X>, d: seq<X>)
    ensures a + b + c + d == a + (b + c + d)
  {
  }

  lemma SnocAssoc<X>(a: seq<X>, b: seq<X>, x: X)
    ensures a + b + [x] == a + (b + [x])
  {
  }

  lemma ConsAssoc<X>(w: X, r1: seq<X>, r2: seq<X>)
    ensures [w] + (r1 + r2) == ([w] + r1) + r2
  {
  }

  lemma AppendThree<X>(a: seq<X>, t: seq<X>)
    requires |t| == 3
    ensures a + [t[0]] + [t[1]] + [t[2]] == a + t
  {
  }

  lemma MoveFirst<X>(a: seq<X>, g: seq<X>, ws: seq<X>)
    requires ws != []
    ensures a + (g + [ws[0]]) + ws[1..] == a + g + ws
  {
    assert [ws[0]] + ws[1..] == ws;
  }

  lemma ConsFirst<X>(a: seq<X>, ws: seq<X>)
    requires ws != []
    ensures a + [ws[0]] + ws[1..] == a + ws
  {
    assert [ws[0]] + ws[1..] == ws;
  }

  lemma PrefixSnoc<X>(a: seq<X>, x: X)
    ensures (a + [x])[..|a|] == a
  {
  }

  lemma PrefixOfAppend<X>(a: seq<X>, b: seq<X>)
    requires b != []
    ensures (a + b)[..|a + b| - 1] == a + b[..|b| - 1]
    ensures (a + b)[|a + b| - 1] == b[|b| - 1]
  {
  }

  lemma PrefixOfSnoc<X>(r: seq<X>, a: seq<X>, x: X)
    requires |r| > |a| && r[..|a| + 1] == a + [x]
    ensures r[..|a|] == a && r[|a|] == x
  {
    assert r[..|a|] == r[..|a| + 1][..|a|];
  }

  lemma PrefixOne<X>(r: seq<X>, x: X)
    requires |r| > 0 && r[..1] == [x]
    ensures r[0] == x
  {
    assert r[0] == r[..1][0];
  }

  lemma TakeOneMore<X>(s: seq<X>, j: nat)
    requires j < |s|
    ensures s[..j + 1][..j] == s[..j] && s[..j + 1][j] == s[j]
  {
  }

  lemma SliceGlue<X>(x: seq<X>, m: seq<X>, y: seq<X>, n: nat)
    requires n <= |x|
    ensures (x + m + y)[..n] == x[..n] && (x + m + y)[n..] == x[n..] + m + y
  {
  }

  lemma SliceOfDrop<X>(s: seq<X>, k: nat, lo: nat, hi: nat)
    requires k <= |s| && lo <= hi <= |s| - k
    ensures s[k..][lo..hi] == s[lo + k .. hi + k]
  {
  }

  lemma SliceLeft<X>(a: seq<X>, b: seq<X>, c: seq<X>, lo: nat, hi: nat)
    requires lo <= hi <= |a|
    ensures (a + b + c)[lo..hi] == a[lo..hi]
  {
  }

  lemma SliceMiddle<X>(a: seq<X>, b: seq<X>, c: seq<X>)
    ensures (a + b + c)[|a|..|a| + |b|] == b
  {
  }

  lemma SliceSnoc<X>(s: seq<X>, lo: nat, i: nat)
    requires lo <= i < |s|
    ensures s[lo..i] + [s[i]] == s[lo..i + 1]
  {
  }

  /** A prefix of `s` is a prefix of anything that extends `s`. */
  lemma PrefixExtend<X>(p: seq<X>, s: seq<X>, t: seq<X>)
    requires p <= s
    ensures p <= s + t
  {
    assert (s + t)[..|p|] == s[..|p|];
  }
}
