/** The parts of Python's `str` that the text wrapper relies on: the
    whitespace test shared by `str.split()` and `str.strip()` (both called
    without arguments), those two operations, and joining words with single
    spaces, which is what the wrapper's `f"{line} {word}"` builds up. */
module PyStr {
  import opened Seqs

  /** Python's whitespace test (`str.isspace` on one character), the set
      `str.split()` and `str.strip()` use when called without arguments. */
  predicate IsSpace(c: char) {
    || c == ' '
    || ('\t' <= c <= '\r')
    || ('\U{1c}' <= c <= '\U{1f}')
    || c == '\U{85}'
    || c == '\U{a0}'
    || c == '\U{1680}'
    || ('\U{2000}' <= c <= '\U{200a}')
    || c == '\U{2028}'
    || c == '\U{2029}'
    || c == '\U{202f}'
    || c == '\U{205f}'
    || c == '\U{3000}'
  }

  /** A word as `str.split()` produces it: non-empty, no whitespace inside. */
  predicate IsWord(w: string) {
    |w| > 0 && forall i :: 0 <= i < |w| ==> !IsSpace(w[i])
  }

  predicate AllWords(ws: seq<string>) {
    forall i :: 0 <= i < |ws| ==> IsWord(ws[i])
  }

  /** `s.lstrip()`: drops the leading whitespace. */
  function LStrip(s: string): (r: string)
    ensures |r| <= |s|
    ensures r == [] || !IsSpace(r[0])
  {
    if s != [] && IsSpace(s[0]) then LStrip(s[1..]) else s
  }

  /** `s.rstrip()`: drops the trailing whitespace. */
  function RStrip(s: string): (r: string)
    ensures |r| <= |s|
    ensures r == [] || !IsSpace(r[|r| - 1])
  {
    if s != [] && IsSpace(s[|s| - 1]) then RStrip(s[..|s| - 1]) else s
  }

  /** `s.strip()`. */
  function Strip(s: string): string {
    RStrip(LStrip(s))
  }

  /** `lstrip` removes exactly the leading whitespace: what it returns is a
      suffix of the input and everything before that suffix is whitespace. */
  lemma {:induction false} LStripRemoves(s: string)
    ensures LStrip(s) == s[|s| - |LStrip(s)|..]
    ensures forall i :: 0 <= i < |s| - |LStrip(s)| ==> IsSpace(s[i])
  {
    if s != [] && IsSpace(s[0]) {
      LStripRemoves(s[1..]);
      assert s[1..][|s| - 1 - |LStrip(s)|..] == s[|s| - |LStrip(s)|..];
      forall i | 1 <= i < |s| - |LStrip(s)|
        ensures IsSpace(s[i])
      {
        assert s[i] == s[1..][i - 1];
      }
    }
  }

  /** `rstrip` removes exactly the trailing whitespace: what it returns is a
      prefix of the input and everything after that prefix is whitespace. */
  lemma {:induction false} RStripRemoves(s: string)
    ensures RStrip(s) == s[..|RStrip(s)|]
    ensures forall i :: |RStrip(s)| <= i < |s| ==> IsSpace(s[i])
  {
    if s != [] && IsSpace(s[|s| - 1]) {
      var t := s[..|s| - 1];
      RStripRemoves(t);
      assert t[..|RStrip(s)|] == s[..|RStrip(s)|];
      forall i | |RStrip(s)| <= i < |s| - 1
        ensures IsSpace(s[i])
      {
        assert s[i] == t[i];
      }
    }
  }

  /** `strip` keeps exactly the part of the input between its leading and
      its trailing whitespace, and that part neither starts nor ends with
      whitespace. */
  lemma StripRemoves(s: string)
    ensures var r := Strip(s);
      var a := |s| - |LStrip(s)|;
      && a + |r| <= |s| && r == s[a..a + |r|]
      && (forall i :: 0 <= i < a ==> IsSpace(s[i]))
      && (forall i :: a + |r| <= i < |s| ==> IsSpace(s[i]))
      && (r == [] || (!IsSpace(r[0]) && !IsSpace(r[|r| - 1])))
  {
    var t := LStrip(s);
    var a := |s| - |t|;
    LStripRemoves(s);
    RStripRemoves(t);
    var r := Strip(s);
    assert r == t[..|r|];
    assert t[..|r|] == s[a..a + |r|];
    forall i | a + |r| <= i < |s|
      ensures IsSpace(s[i])
    {
      assert s[i] == t[i - a];
    }
  }

  /** Length of the longest prefix of `s` that holds no whitespace. */
  function WordLen(s: string): (n: nat)
    ensures n <= |s|
    ensures s != [] && !IsSpace(s[0]) ==> n > 0
  {
    if s == [] || IsSpace(s[0]) then 0 else 1 + WordLen(s[1..])
  }

  /** The prefix `WordLen` measures is a run of non-whitespace characters
      that stops at whitespace or at the end. */
  lemma {:induction false} WordLenRun(s: string)
    ensures forall i :: 0 <= i < WordLen(s) ==> !IsSpace(s[i])
    ensures WordLen(s) < |s| ==> IsSpace(s[WordLen(s)])
  {
    if s != [] && !IsSpace(s[0]) {
      WordLenRun(s[1..]);
    }
  }

  /** `s.split()`: the maximal runs of non-whitespace characters, in order. */
  function Split(s: string): seq<string>
    decreases |s|
  {
    var t := LStrip(s);
    if t == [] then []
    else
      var n := WordLen(t);
      [t[..n]] + Split(t[n..])
  }

  /** `" ".join(ws)`. */
  function JoinSpace(ws: seq<string>): string {
    if |ws| == 0 then ""
    else if |ws| == 1 then ws[0]
    else JoinSpace(ws[..|ws| - 1]) + " " + ws[|ws| - 1]
  }

  /** `str.split()` finds no word exactly when the text is empty or
      whitespace only. */
  lemma SplitEmptyIffBlank(s: string)
    ensures Split(s) == [] <==> forall i :: 0 <= i < |s| ==> IsSpace(s[i])
  {
    LStripRemoves(s);
  }

  /** Every piece `str.split()` returns is a word. */
  lemma {:induction false} SplitWords(s: string)
    ensures AllWords(Split(s))
    decreases |s|
  {
    var t := LStrip(s);
    if t != [] {
      var n := WordLen(t);
      SplitWords(t[n..]);
      WordLenRun(t);
      var rest := Split(t[n..]);
      assert Split(s) == [t[..n]] + rest;
      assert IsWord(t[..n]);
      forall i | 0 <= i < |Split(s)| ensures IsWord(Split(s)[i]) {
        if i > 0 { assert Split(s)[i] == rest[i - 1]; }
      }
    }
  }

  lemma {:induction false} LStripAppend(a: string, b: string)
    ensures LStrip(a) == [] ==> LStrip(a + b) == LStrip(b)
    ensures LStrip(a) != [] ==> LStrip(a + b) == LStrip(a) + b
  {
    if a != [] && IsSpace(a[0]) {
      assert (a + b)[1..] == a[1..] + b;
      LStripAppend(a[1..], b);
    } else if a == [] {
      assert a + b == b;
    }
  }

  lemma {:induction false} WordLenAppend(x: string, y: string)
    ensures WordLen(x) < |x| ==> WordLen(x + y) == WordLen(x)
    ensures WordLen(x) == |x| ==> WordLen(x + y) == |x| + WordLen(y)
  {
    if x == [] {
      assert x + y == y;
    } else if !IsSpace(x[0]) {
      assert (x + y)[1..] == x[1..] + y;
      WordLenAppend(x[1..], y);
    }
  }

  /** Splitting two texts glued by a space gives the words of the first
      followed by the words of the second. */
  lemma {:induction false} SplitAppend(a: string, b: string)
    ensures Split(a + " " + b) == Split(a) + Split(b)
    decreases |a|
  {
    var sb := " " + b;
    assert a + " " + b == a + sb;
    LStripAppend(a, sb);
    var ta := LStrip(a);
    if ta == [] {
      SplitAppendBlank(a, b);
    } else {
      var n := WordLen(ta);
      WordLenAppend(ta, sb);
      assert WordLen(sb) == 0;
      assert ta + sb == ta + " " + b;
      SplitAppend(ta[n..], b);
      SplitAppendStep(a, b, ta, n);
    }
  }

  lemma SplitAppendBlank(a: string, b: string)
    requires LStrip(a) == []
    requires LStrip(a + " " + b) == LStrip(" " + b)
    ensures Split(a + " " + b) == Split(a) + Split(b)
  {
    assert (" " + b)[1..] == b;
    assert LStrip(" " + b) == LStrip(b);
  }

  lemma SplitAppendStep(a: string, b: string, ta: string, n: nat)
    requires ta == LStrip(a) != [] && n == WordLen(ta)
    requires LStrip(a + " " + b) == ta + " " + b
    requires WordLen(ta + " " + b) == n
    requires Split(ta[n..] + " " + b) == Split(ta[n..]) + Split(b)
    ensures Split(a + " " + b) == Split(a) + Split(b)
  {
    SliceGlue(ta, " ", b, n);
    SplitUnfold(a + " " + b, ta + " " + b, n);
    SplitUnfold(a, ta, n);
    ConsAssoc(ta[..n], Split(ta[n..]), Split(b));
  }

  lemma SplitUnfold(s: string, t: string, n: nat)
    requires t == LStrip(s) != [] && n == WordLen(t)
    ensures Split(s) == [t[..n]] + Split(t[n..])
  {
  }

  /** A single word splits to itself. */
  lemma SplitWord(w: string)
    requires IsWord(w)
    ensures Split(w) == [w]
  {
    assert LStrip(w) == w;
    WordLenRun(w);
    assert w[|w|..] == [];
    assert w[..|w|] == w;
  }

  lemma {:induction false} JoinShape(ws: seq<string>)
    requires AllWords(ws) && ws != []
    ensures |JoinSpace(ws)| > 0
    ensures JoinSpace(ws)[0] == ws[0][0]
    ensures JoinSpace(ws)[|JoinSpace(ws)| - 1] == ws[|ws| - 1][|ws[|ws| - 1]| - 1]
  {
    if |ws| > 1 {
      JoinShape(ws[..|ws| - 1]);
    }
  }

  /** Joining words with single spaces and splitting again gives the words
      back. */
  lemma {:induction false} SplitJoin(ws: seq<string>)
    requires AllWords(ws)
    ensures Split(JoinSpace(ws)) == ws
  {
    if |ws| == 1 {
      SplitWord(ws[0]);
    } else if |ws| > 1 {
      var init := ws[..|ws| - 1];
      SplitJoin(init);
      SplitAppend(JoinSpace(init), ws[|ws| - 1]);
      SplitWord(ws[|ws| - 1]);
      assert init + [ws[|ws| - 1]] == ws;
    }
  }

  /** `f"{JoinSpace(ws)} {w}".strip()` is the joined words with `w` added:
      the strip only removes the space that stands in front of the very
      first word. */
  lemma StripJoin(ws: seq<string>, w: string)
    requires AllWords(ws) && IsWord(w)
    ensures Strip(JoinSpace(ws) + " " + w) == JoinSpace(ws + [w])
  {
    var s := JoinSpace(ws) + " " + w;
    if ws == [] {
      assert s == " " + w;
      assert s[1..] == w;
      assert LStrip(s) == w;
    } else {
      JoinShape(ws);
      var n := |ws|;
      assert (ws + [w])[..n] == ws;
      assert LStrip(s) == s;
    }
  }
}
