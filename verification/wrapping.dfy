/** Greedy text wrapping (`wrap_text`): the words of a translation are
    packed into lines, a word joining the current line while the canvas's
    `stringWidth` of the joined line stays within the maximum width. */
module Wrapping {
  import opened PyStr
  import opened Seqs
  import opened Surface

  /** The line the wrapper measures: `f"{current} {word}".strip()`. */
  function TestLine(current: string, word: string): string {
    Strip(current + " " + word)
  }

  predicate Fits(line: string, maxWidth: real, fontName: string, fontSize: int, stringWidth: StringWidth) {
    stringWidth(line, fontName, fontSize) <= maxWidth
  }

  /** The wrapping loop from the point where `lines` are finished, `current`
      is the line being filled and `words` are still to be placed. */
  function WrapFrom(words: seq<string>, maxWidth: real, fontName: string, fontSize: int,
                    stringWidth: StringWidth, lines: seq<string>, current: string): seq<string>
    decreases |words|
  {
    if words == [] then
      if current != "" then lines + [current] else lines
    else
      var candidate := TestLine(current, words[0]);
      if Fits(candidate, maxWidth, fontName, fontSize, stringWidth) then
        WrapFrom(words[1..], maxWidth, fontName, fontSize, stringWidth, lines, candidate)
      else
        WrapFrom(words[1..], maxWidth, fontName, fontSize, stringWidth, lines + [current], words[0])
  }

  /** What `wrap_text(text, maxWidth, fontName, fontSize, canvas)` returns. */
  function Wrap(text: string, maxWidth: real, fontName: string, fontSize: int, stringWidth: StringWidth): seq<string> {
    WrapFrom(Split(text), maxWidth, fontName, fontSize, stringWidth, [], "")
  }

  /** The words of a list of lines, line after line. */
  function WordsOf(lines: seq<string>): seq<string> {
    if lines == [] then [] else WordsOf(lines[..|lines| - 1]) + Split(lines[|lines| - 1])
  }

  /** `wrap_text` as the source runs it: one pass over `text.split()`. */
  method WrapText(text: string, maxWidth: real, fontName: string, fontSize: int, canvas: Canvas)
    returns (lines: seq<string>)
    ensures lines == Wrap(text, maxWidth, fontName, fontSize, canvas.stringWidth)
  {
    var words := Split(text);
    lines := [];
    var currentLine := "";
    for i := 0 to |words|
      invariant WrapFrom(words[i..], maxWidth, fontName, fontSize, canvas.stringWidth, lines, currentLine)
             == Wrap(text, maxWidth, fontName, fontSize, canvas.stringWidth)
    {
      var word := words[i];
      var testLine := Strip(currentLine + " " + word);
      assert words[i..][1..] == words[i + 1..];
      if canvas.stringWidth(testLine, fontName, fontSize) <= maxWidth {
        currentLine := testLine;
      } else {
        lines := lines + [currentLine];
        currentLine := word;
      }
    }
    if currentLine != "" {
      lines := lines + [currentLine];
    }
  }

  lemma WordsOfSnoc(lines: seq<string>, line: string)
    ensures WordsOf(lines + [line]) == WordsOf(lines) + Split(line)
  {
    PrefixSnoc(lines, line);
  }

  lemma {:induction false} WrapFromWords(words: seq<string>, maxWidth: real, fontName: string, fontSize: int,
                                         stringWidth: StringWidth, lines: seq<string>, g: seq<string>)
    requires AllWords(words) && AllWords(g)
    ensures WordsOf(WrapFrom(words, maxWidth, fontName, fontSize, stringWidth, lines, JoinSpace(g)))
         == WordsOf(lines) + g + words
    decreases |words|
  {
    var current := JoinSpace(g);
    if words == [] {
      EmptyRight(WordsOf(lines) + g);
      if current != "" {
        WordsOfSnoc(lines, current);
        SplitJoin(g);
      } else if g != [] {
        JoinShape(g);
      } else {
        EmptyRight(WordsOf(lines));
      }
    } else {
      var w := words[0];
      StripJoin(g, w);
      assert AllWords(g + [w]);
      if Fits(TestLine(current, w), maxWidth, fontName, fontSize, stringWidth) {
        WrapFromWords(words[1..], maxWidth, fontName, fontSize, stringWidth, lines, g + [w]);
        MoveFirst(WordsOf(lines), g, words);
      } else {
        WrapFromWords(words[1..], maxWidth, fontName, fontSize, stringWidth, lines + [current], [w]);
        WordsOfSnoc(lines, current);
        SplitJoin(g);
        ConsFirst(WordsOf(lines) + g, words);
      }
    }
  }

  /** No word is lost, reordered or broken: reading the lines back word by
      word gives exactly `text.split()`. */
  lemma WrapWords(text: string, maxWidth: real, fontName: string, fontSize: int, stringWidth: StringWidth)
    ensures WordsOf(Wrap(text, maxWidth, fontName, fontSize, stringWidth)) == Split(text)
  {
    SplitWords(text);
    WrapFromWords(Split(text), maxWidth, fontName, fontSize, stringWidth, [], []);
    EmptyLeft(Split(text));
  }

  /** The wrapper returns no line exactly when the text holds no word
      (it is empty or whitespace only). */
  lemma WrapEmpty(text: string, maxWidth: real, fontName: string, fontSize: int, stringWidth: StringWidth)
    ensures Wrap(text, maxWidth, fontName, fontSize, stringWidth) == [] <==> Split(text) == []
    ensures Wrap(text, maxWidth, fontName, fontSize, stringWidth) == []
        <==> forall i :: 0 <= i < |text| ==> IsSpace(text[i])
  {
    WrapWords(text, maxWidth, fontName, fontSize, stringWidth);
    SplitEmptyIffBlank(text);
  }

  /** A line as the wrapper builds it: at least one word, the words joined
      by single spaces, and within `maxWidth` unless it is a single word. */
  predicate Packed(line: string, maxWidth: real, fontName: string, fontSize: int, stringWidth: StringWidth) {
    && Split(line) != []
    && line == JoinSpace(Split(line))
    && (|Split(line)| > 1 ==> Fits(line, maxWidth, fontName, fontSize, stringWidth))
  }

  /** Shape of the lines the loop appends once `current` holds a word:
      they come after the lines already finished and each is `Packed`. */
  lemma {:induction false} WrapFromExtends(words: seq<string>, maxWidth: real, fontName: string, fontSize: int,
                                           stringWidth: StringWidth, lines: seq<string>, g: seq<string>)
    requires AllWords(words) && AllWords(g) && g != []
    requires |g| > 1 ==> Fits(JoinSpace(g), maxWidth, fontName, fontSize, stringWidth)
    ensures var r := WrapFrom(words, maxWidth, fontName, fontSize, stringWidth, lines, JoinSpace(g));
      && |r| > |lines| && r[..|lines|] == lines
      && forall k :: |lines| <= k < |r| ==> Packed(r[k], maxWidth, fontName, fontSize, stringWidth)
    decreases |words|
  {
    var current := JoinSpace(g);
    SplitJoin(g);
    assert Packed(current, maxWidth, fontName, fontSize, stringWidth);
    var r := WrapFrom(words, maxWidth, fontName, fontSize, stringWidth, lines, current);
    if words != [] {
      var w := words[0];
      StripJoin(g, w);
      assert AllWords(g + [w]);
      if Fits(TestLine(current, w), maxWidth, fontName, fontSize, stringWidth) {
        assert r == WrapFrom(words[1..], maxWidth, fontName, fontSize, stringWidth, lines, JoinSpace(g + [w]));
        WrapFromExtends(words[1..], maxWidth, fontName, fontSize, stringWidth, lines, g + [w]);
      } else {
        assert r == WrapFrom(words[1..], maxWidth, fontName, fontSize, stringWidth, lines + [current], JoinSpace([w]));
        WrapFromExtends(words[1..], maxWidth, fontName, fontSize, stringWidth, lines + [current], [w]);
        PackedBoundary(r, lines, current, maxWidth, fontName, fontSize, stringWidth);
      }
    } else {
      JoinShape(g);
      PrefixSnoc(lines, current);
    }
  }

  /** A closed line is `Packed`, and so are the lines after it. */
  lemma PackedBoundary(r: seq<string>, lines: seq<string>, current: string,
                       maxWidth: real, fontName: string, fontSize: int, stringWidth: StringWidth)
    requires |r| > |lines| + 1 && r[..|lines| + 1] == lines + [current]
    requires Packed(current, maxWidth, fontName, fontSize, stringWidth)
    requires forall k :: |lines| + 1 <= k < |r| ==> Packed(r[k], maxWidth, fontName, fontSize, stringWidth)
    ensures r[..|lines|] == lines
    ensures forall k :: |lines| <= k < |r| ==> Packed(r[k], maxWidth, fontName, fontSize, stringWidth)
  {
    PrefixOfSnoc(r, lines, current);
  }

  /** The lines `wrap_text` returns: every line after the first is `Packed`
      (so a line that does not fit is a single word), and the first line is
      `Packed` too unless the first word alone is too wide, in which case it
      is the empty string. */
  lemma WrapLines(text: string, maxWidth: real, fontName: string, fontSize: int, stringWidth: StringWidth)
    ensures var r := Wrap(text, maxWidth, fontName, fontSize, stringWidth);
      && (forall k :: 0 < k < |r| ==> Packed(r[k], maxWidth, fontName, fontSize, stringWidth))
      && (r != [] ==> r[0] == "" || Packed(r[0], maxWidth, fontName, fontSize, stringWidth))
      && ((r != [] && r[0] == "") <==>
          (Split(text) != [] && !Fits(Split(text)[0], maxWidth, fontName, fontSize, stringWidth)))
  {
    var words := Split(text);
    SplitWords(text);
    var r := Wrap(text, maxWidth, fontName, fontSize, stringWidth);
    if words != [] {
      var w := words[0];
      StripJoin([], w);
      assert TestLine("", w) == w;
      if Fits(w, maxWidth, fontName, fontSize, stringWidth) {
        WrapFromExtends(words[1..], maxWidth, fontName, fontSize, stringWidth, [], [w]);
        assert Packed(r[0], maxWidth, fontName, fontSize, stringWidth);
      } else {
        WrapFromExtends(words[1..], maxWidth, fontName, fontSize, stringWidth, [""], [w]);
        EmptyLeft([""]);
        PrefixOne(r, "");
      }
    }
  }

  /** Line `k` was closed because the first word of line `k + 1`, joined to
      it as the source joins it, would not fit. */
  predicate ClosedAt(r: seq<string>, k: int, maxWidth: real, fontName: string, fontSize: int, stringWidth: StringWidth) {
    && 0 <= k < |r| - 1
    && Split(r[k + 1]) != []
    && !Fits(TestLine(r[k], Split(r[k + 1])[0]), maxWidth, fontName, fontSize, stringWidth)
  }

  /** The greedy boundary, seen from the lines the loop appends. */
  lemma {:induction false} WrapFromGreedy(words: seq<string>, maxWidth: real, fontName: string, fontSize: int,
                                          stringWidth: StringWidth, lines: seq<string>, g: seq<string>)
    requires AllWords(words) && AllWords(g) && g != []
    requires lines != [] ==> !Fits(TestLine(lines[|lines| - 1], g[0]), maxWidth, fontName, fontSize, stringWidth)
    ensures var r := WrapFrom(words, maxWidth, fontName, fontSize, stringWidth, lines, JoinSpace(g));
      && |r| > |lines| && r[..|lines|] == lines
      && forall k :: |lines| <= k + 1 < |r| && 0 <= k ==> ClosedAt(r, k, maxWidth, fontName, fontSize, stringWidth)
    decreases |words|
  {
    var current := JoinSpace(g);
    SplitJoin(g);
    var r := WrapFrom(words, maxWidth, fontName, fontSize, stringWidth, lines, current);
    if words != [] {
      var w := words[0];
      StripJoin(g, w);
      assert AllWords(g + [w]);
      if Fits(TestLine(current, w), maxWidth, fontName, fontSize, stringWidth) {
        assert r == WrapFrom(words[1..], maxWidth, fontName, fontSize, stringWidth, lines, JoinSpace(g + [w]));
        WrapFromGreedy(words[1..], maxWidth, fontName, fontSize, stringWidth, lines, g + [w]);
      } else {
        assert r == WrapFrom(words[1..], maxWidth, fontName, fontSize, stringWidth, lines + [current], JoinSpace([w]));
        WrapFromGreedy(words[1..], maxWidth, fontName, fontSize, stringWidth, lines + [current], [w]);
        GreedyBoundary(r, lines, current, g, maxWidth, fontName, fontSize, stringWidth);
      }
    } else {
      JoinShape(g);
      PrefixSnoc(lines, current);
    }
  }

  /** The line the loop closes is closed for the word that opens the next. */
  lemma GreedyBoundary(r: seq<string>, lines: seq<string>, current: string, g: seq<string>,
                       maxWidth: real, fontName: string, fontSize: int, stringWidth: StringWidth)
    requires |r| > |lines| + 1 && r[..|lines| + 1] == lines + [current]
    requires Split(current) == g && g != []
    requires lines != [] ==> !Fits(TestLine(lines[|lines| - 1], g[0]), maxWidth, fontName, fontSize, stringWidth)
    requires forall k :: |lines| + 1 <= k + 1 < |r| && 0 <= k ==> ClosedAt(r, k, maxWidth, fontName, fontSize, stringWidth)
    ensures r[..|lines|] == lines
    ensures forall k :: |lines| <= k + 1 < |r| && 0 <= k ==> ClosedAt(r, k, maxWidth, fontName, fontSize, stringWidth)
  {
    PrefixOfSnoc(r, lines, current);
    forall k | |lines| <= k + 1 < |r| && 0 <= k
      ensures ClosedAt(r, k, maxWidth, fontName, fontSize, stringWidth)
    {
      if k + 1 == |lines| {
        assert r[k + 1] == (lines + [current])[k + 1];
        assert r[k] == (lines + [current])[k];
      }
    }
  }

  /** The wrapping is greedy: each line is closed only because the next
      word, joined to it as the source joins it, would not fit. */
  lemma WrapGreedy(text: string, maxWidth: real, fontName: string, fontSize: int, stringWidth: StringWidth)
    ensures var r := Wrap(text, maxWidth, fontName, fontSize, stringWidth);
      forall k :: 0 <= k < |r| - 1 ==> ClosedAt(r, k, maxWidth, fontName, fontSize, stringWidth)
  {
    var words := Split(text);
    SplitWords(text);
    if words != [] {
      var w := words[0];
      StripJoin([], w);
      assert TestLine("", w) == w;
      if Fits(w, maxWidth, fontName, fontSize, stringWidth) {
        WrapFromGreedy(words[1..], maxWidth, fontName, fontSize, stringWidth, [], [w]);
      } else {
        WrapFromGreedy(words[1..], maxWidth, fontName, fontSize, stringWidth, [""], [w]);
        EmptyLeft([""]);
      }
    }
  }

  /** Widths that never shrink when text is added at the end. */
  ghost predicate PrefixMonotone(stringWidth: StringWidth, fontName: string, fontSize: int) {
    forall s: string, n: nat :: n <= |s| ==> stringWidth(s[..n], fontName, fontSize) <= stringWidth(s, fontName, fontSize)
  }

  lemma {:induction false} JoinAppend(a: seq<string>, b: seq<string>)
    requires a != [] && b != []
    ensures JoinSpace(a + b) == JoinSpace(a) + " " + JoinSpace(b)
    decreases |b|
  {
    var b' := b[..|b| - 1];
    PrefixOfAppend(a, b);
    if b' != [] {
      JoinAppend(a, b');
      var x := b[|b| - 1];
      StringAssoc(JoinSpace(a), JoinSpace(b'), x);
    } else {
      EmptyRight(a);
    }
  }

  /** A joined prefix of the words is at most as wide as the joined whole. */
  lemma JoinPrefixWidth(a: seq<string>, b: seq<string>, stringWidth: StringWidth, fontName: string, fontSize: int)
    requires a != []
    requires PrefixMonotone(stringWidth, fontName, fontSize)
    ensures stringWidth(JoinSpace(a), fontName, fontSize) <= stringWidth(JoinSpace(a + b), fontName, fontSize)
  {
    if b == [] {
      EmptyRight(a);
    } else {
      JoinAppend(a, b);
      var s := JoinSpace(a + b);
      assert s[..|JoinSpace(a)|] == JoinSpace(a);
    }
  }

  lemma {:induction false} WrapFromAllFit(words: seq<string>, maxWidth: real, fontName: string, fontSize: int,
                                          stringWidth: StringWidth, lines: seq<string>, g: seq<string>)
    requires AllWords(words) && AllWords(g) && g != []
    requires PrefixMonotone(stringWidth, fontName, fontSize)
    requires Fits(JoinSpace(g + words), maxWidth, fontName, fontSize, stringWidth)
    ensures WrapFrom(words, maxWidth, fontName, fontSize, stringWidth, lines, JoinSpace(g))
         == lines + [JoinSpace(g + words)]
    decreases |words|
  {
    if words == [] {
      EmptyRight(g);
      JoinShape(g);
    } else {
      var w := words[0];
      StripJoin(g, w);
      assert AllWords(g + [w]);
      ConsFirst(g, words);
      JoinPrefixWidth(g + [w], words[1..], stringWidth, fontName, fontSize);
      WrapFromAllFit(words[1..], maxWidth, fontName, fontSize, stringWidth, lines, g + [w]);
    }
  }

  /** When widths grow with the text and the whole text, its words joined
      by single spaces, fits, the wrapper returns that one line. */
  lemma WrapSingleLine(text: string, maxWidth: real, fontName: string, fontSize: int, stringWidth: StringWidth)
    requires Split(text) != []
    requires PrefixMonotone(stringWidth, fontName, fontSize)
    requires Fits(JoinSpace(Split(text)), maxWidth, fontName, fontSize, stringWidth)
    ensures Wrap(text, maxWidth, fontName, fontSize, stringWidth) == [JoinSpace(Split(text))]
  {
    var words := Split(text);
    SplitWords(text);
    var w := words[0];
    StripJoin([], w);
    assert TestLine("", w) == w;
    ConsFirst([], words);
    EmptyLeft(words);
    EmptyLeft([w]);
    JoinPrefixWidth([w], words[1..], stringWidth, fontName, fontSize);
    WrapFromAllFit(words[1..], maxWidth, fontName, fontSize, stringWidth, [], [w]);
  }

  lemma StringAssoc(a: string, b: string, x: string)
    ensures a + " " + b + " " + x == a + " " + (b + " " + x)
  {
  }
}
