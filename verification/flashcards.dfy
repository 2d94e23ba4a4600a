/** `create_flashcards_pdf`: the front pass walks the 4 × 4 grid with a row
    and a column counter, draws each card and closes a page whenever the
    grid fills, remembering each page's positions; one more page break
    follows; the back pass then replays the remembered pages, drawing each
    card's reading and wrapped translation at the mirrored x, one page break
    per page. */
module Flashcards {
  import opened Surface
  import opened Wrapping
  import opened Vocabulary
  import opened Layout
  import opened Seqs

  /** The name the font is registered under. */
  const FontName: string := "JapaneseFont"
  /** Font size of the translation lines. */
  const TranslationSize: int := 12
  /** The translation is wrapped to the card width less this inset. */
  const TranslationInset: real := 10.0
  /** The first translation line sits this far below the card's top edge. */
  const FirstLineDrop: real := 85.0
  /** Distance between two translation lines. */
  const LineHeight: real := 15.0

  /** The calls that draw the front of one card: its border, the caption
      `"<name>-kanji"` near the top and the word itself lower down. */
  function FrontCard(pos: CardPosition, name: string): seq<Event> {
    [ Border(pos.x, pos.y, CardWidth, CardHeight),
      Text(pos.x + CardWidth / 2.0, pos.y + CardHeight / 1.15, name + "-kanji"),
      Text(pos.x + CardWidth / 2.0, pos.y + CardHeight / 2.5, pos.word.word) ]
  }

  /** The calls of the front loop's first `n` iterations: each card, and a
      page break after every 16th card. */
  function FrontTrace(words: seq<Word>, name: string, n: nat): seq<Event>
    requires n <= |words|
  {
    if n == 0 then []
    else
      FrontTrace(words, name, n - 1) + FrontCard(CardAt(n - 1, words[n - 1]), name)
      + (if n % CardsPerPage == 0 then [PageBreak] else [])
  }

  /** `wrap_text(word["translation"], card_width - 10, "JapaneseFont", 12, c)`. */
  function TranslationLines(w: Word, stringWidth: StringWidth): seq<string> {
    Wrap(w.translation, CardWidth - TranslationInset, FontName, TranslationSize, stringWidth)
  }

  /** The translation lines, centred at `cx`, the first at height `top` and
      each next one `LineHeight` lower. */
  function LineEvents(cx: real, top: real, lines: seq<string>): (r: seq<Event>)
    ensures |r| == |lines|
  {
    seq(|lines|, k requires 0 <= k < |lines| => Text(cx, top - LineHeight * k as real, lines[k]))
  }

  /** The calls that draw the back of one card, at the mirrored x. */
  function BackCard(pos: CardPosition, stringWidth: StringWidth): seq<Event> {
    var cx := MirrorX(pos.x) + CardWidth / 2.0;
    [Text(cx, pos.y + CardHeight / 1.8, pos.word.reading)]
    + LineEvents(cx, pos.y + CardHeight - FirstLineDrop, TranslationLines(pos.word, stringWidth))
  }

  function BackCards(cards: seq<CardPosition>, stringWidth: StringWidth): seq<Event> {
    if cards == [] then []
    else BackCards(cards[..|cards| - 1], stringWidth) + BackCard(cards[|cards| - 1], stringWidth)
  }

  /** The calls of the back pass over `pages`: each page's cards, then a
      page break. */
  function BackTrace(pages: seq<seq<CardPosition>>, stringWidth: StringWidth): seq<Event> {
    if pages == [] then []
    else BackTrace(pages[..|pages| - 1], stringWidth) + BackCards(pages[|pages| - 1], stringWidth) + [PageBreak]
  }

  /** Everything `create_flashcards_pdf` draws, in order. */
  function FlashcardsTrace(words: seq<Word>, name: string, stringWidth: StringWidth): seq<Event> {
    FrontTrace(words, name, |words|) + [PageBreak] + BackTrace(Paginate(words), stringWidth)
  }

  /** The calls for one card's front, in the order the front loop makes them. */
  method DrawFrontCard(c: Canvas, pos: CardPosition, name: string)
    modifies c
    ensures c.events == old(c.events) + FrontCard(pos, name)
  {
    c.Rect(pos.x, pos.y, CardWidth, CardHeight);
    c.DrawCentredString(pos.x + CardWidth / 2.0, pos.y + CardHeight / 1.15, name + "-kanji");
    c.DrawCentredString(pos.x + CardWidth / 2.0, pos.y + CardHeight / 2.5, pos.word.word);
    AppendThree(old(c.events), FrontCard(pos, name));
  }

  /** The front pass: the row and column counters, the page being filled and
      the list of finished pages. */
  method FrontPass(c: Canvas, words: seq<Word>, name: string) returns (pages: seq<seq<CardPosition>>)
    modifies c
    ensures pages == Paginate(words)
    ensures c.events == old(c.events) + FrontTrace(words, name, |words|)
  {
    ghost var placed := Placed(words);
    ghost var page := 0;
    pages := [];
    var currentPage: seq<CardPosition> := [];
    var row, col := 0, 0;
    for i := 0 to |words|
      invariant col == Column(i) && row == Row(i)
      invariant 0 <= col < CardsPerRow && 0 <= row < CardsPerCol
      invariant i == CardsPerPage * page + CardsPerRow * row + col
      invariant Filling(placed, i, page, pages, currentPage)
      invariant c.events == old(c.events) + FrontTrace(words, name, i)
    {
      var word := words[i];
      var xPos := ColumnX(col);
      var yPos := RowY(row);
      var pos := CardPosition(xPos, yPos, word);
      PlacedAt(words, i);
      ghost var before := c.events;
      DrawFrontCard(c, pos, name);
      FillStep(placed, i, page, pages, currentPage);
      NextCell(i);
      currentPage := currentPage + [pos];
      col := col + 1;
      if col >= CardsPerRow {
        col := 0;
        row := row + 1;
      }
      if row >= CardsPerCol {
        pages := pages + [currentPage];
        currentPage := [];
        c.ShowPage();
        FrontTraceStep(old(c.events), before, c.events, words, name, i, pos, true);
        row, col := 0, 0;
        page := page + 1;
      } else {
        FrontTraceStep(old(c.events), before, c.events, words, name, i, pos, false);
      }
    }
    FillDone(placed, page, pages, currentPage);
    if currentPage != [] {
      pages := pages + [currentPage];
    }
  }

  /** The trace grows by one card's calls, and by a page break when that
      card fills the page. */
  lemma FrontTraceStep(e0: seq<Event>, before: seq<Event>, after: seq<Event>,
                       words: seq<Word>, name: string, i: nat, pos: CardPosition, full: bool)
    requires i < |words| && pos == CardAt(i, words[i])
    requires before == e0 + FrontTrace(words, name, i)
    requires full <==> (i + 1) % CardsPerPage == 0
    requires full ==> after == before + FrontCard(pos, name) + [PageBreak]
    requires !full ==> after == before + FrontCard(pos, name)
    ensures after == e0 + FrontTrace(words, name, i + 1)
  {
    var tail: seq<Event> := if full then [PageBreak] else [];
    Assoc4(e0, FrontTrace(words, name, i), FrontCard(pos, name), tail);
    if !full {
      EmptyRight(e0 + FrontTrace(words, name, i) + FrontCard(pos, name));
    }
  }

  /** What the front loop knows about its pages after `i` cards, `page` of
      them closed: the closed pages are the chunks of the first `16 page`
      cards, and the page being filled holds the (fewer than 16) cards
      since. */
  ghost predicate Filling<X>(s: seq<X>, i: nat, page: nat, pages: seq<seq<X>>, current: seq<X>) {
    && CardsPerPage * page <= i <= |s|
    && i < CardsPerPage * page + CardsPerPage
    && pages == Chunks(s[..CardsPerPage * page])
    && current == s[CardsPerPage * page..i]
  }

  /** One more card: it joins the page being filled, and the page closes
      when it is the 16th. */
  lemma FillStep<X>(s: seq<X>, i: nat, page: nat, pages: seq<seq<X>>, current: seq<X>)
    requires Filling(s, i, page, pages, current) && i < |s|
    ensures i + 1 == CardsPerPage * (page + 1) ==> Filling(s, i + 1, page + 1, pages + [current + [s[i]]], [])
    ensures i + 1 < CardsPerPage * (page + 1) ==> Filling(s, i + 1, page, pages, current + [s[i]])
  {
    var start := CardsPerPage * page;
    DivMod16(start, page, 0);
    SliceSnoc(s, start, i);
    if i + 1 == CardsPerPage * (page + 1) {
      CloseChunk(s, start, i + 1);
    }
  }

  /** After the last card, the pages are the chunks of all cards once a
      partly filled page is added. */
  lemma FillDone<X>(s: seq<X>, page: nat, pages: seq<seq<X>>, current: seq<X>)
    requires Filling(s, |s|, page, pages, current)
    ensures current == [] ==> pages == Chunks(s)
    ensures current != [] ==> pages + [current] == Chunks(s)
  {
    var start := CardsPerPage * page;
    DivMod16(start, page, 0);
    if current == [] {
      assert start == |s|;
      assert s[..start] == s;
    } else {
      CloseChunk(s, start, |s|);
      assert s[..|s|] == s;
    }
  }

  /** The back of one card: the reading, then the wrapped translation line
      by line, `line_y` going down by `LineHeight` each time. */
  method DrawBackCard(c: Canvas, pos: CardPosition)
    modifies c
    ensures c.events == old(c.events) + BackCard(pos, c.stringWidth)
  {
    var mirroredX := PageWidth - pos.x - CardWidth;
    var cx := mirroredX + CardWidth / 2.0;
    c.DrawCentredString(cx, pos.y + CardHeight / 1.8, pos.word.reading);
    var translationLines := WrapText(pos.word.translation, CardWidth - TranslationInset, FontName, TranslationSize, c);
    var lineY := pos.y + CardHeight - FirstLineDrop;
    ghost var top := lineY;
    ghost var start := c.events;
    for k := 0 to |translationLines|
      invariant lineY == top - LineHeight * k as real
      invariant c.events == start + LineEvents(cx, top, translationLines[..k])
    {
      c.DrawCentredString(cx, lineY, translationLines[k]);
      LineEventsSnoc(cx, top, translationLines, k);
      SnocAssoc(start, LineEvents(cx, top, translationLines[..k]), Text(cx, lineY, translationLines[k]));
      lineY := lineY - LineHeight;
    }
    assert translationLines[..|translationLines|] == translationLines;
  }

  /** The back pass over the pages the front pass remembered. */
  method BackPass(c: Canvas, pages: seq<seq<CardPosition>>)
    modifies c
    ensures c.events == old(c.events) + BackTrace(pages, c.stringWidth)
  {
    for p := 0 to |pages|
      invariant c.events == old(c.events) + BackTrace(pages[..p], c.stringWidth)
    {
      var pagePositions := pages[p];
      ghost var before := c.events;
      for j := 0 to |pagePositions|
        invariant c.events == before + BackCards(pagePositions[..j], c.stringWidth)
      {
        TakeOneMore(pagePositions, j);
        DrawBackCard(c, pagePositions[j]);
        Assoc(before, BackCards(pagePositions[..j], c.stringWidth), BackCard(pagePositions[j], c.stringWidth));
      }
      assert pagePositions[..|pagePositions|] == pagePositions;
      c.ShowPage();
      TakeOneMore(pages, p);
      Assoc4(old(c.events), BackTrace(pages[..p], c.stringWidth), BackCards(pagePositions, c.stringWidth), [PageBreak]);
    }
    assert pages[..|pages|] == pages;
  }

  /** The whole of `create_flashcards_pdf` after the canvas is made and the
      font registered: front pass, one page break, back pass. */
  method CreateFlashcardsPdf(c: Canvas, words: seq<Word>, name: string)
    modifies c
    ensures c.events == old(c.events) + FlashcardsTrace(words, name, c.stringWidth)
  {
    var pages := FrontPass(c, words, name);
    c.ShowPage();
    BackPass(c, pages);
    Assoc4(old(c.events), FrontTrace(words, name, |words|), [PageBreak], BackTrace(pages, c.stringWidth));
  }

  // ---------------------------------------------------------------------
  // What the drawing calls amount to.

  lemma {:induction false} NoBreaks(es: seq<Event>)
    requires forall k :: 0 <= k < |es| ==> es[k] != PageBreak
    ensures PageBreaks(es) == 0
  {
    if es != [] {
      NoBreaks(es[..|es| - 1]);
    }
  }

  /** The front loop breaks the page after every 16th card and nowhere else. */
  lemma {:induction false} FrontPageBreaks(words: seq<Word>, name: string, n: nat)
    requires n <= |words|
    ensures PageBreaks(FrontTrace(words, name, n)) == n / CardsPerPage
  {
    if n > 0 {
      FrontPageBreaks(words, name, n - 1);
      var card := FrontCard(CardAt(n - 1, words[n - 1]), name);
      var tail: seq<Event> := if n % CardsPerPage == 0 then [PageBreak] else [];
      NoBreaks(card);
      PageBreaksAppend(FrontTrace(words, name, n - 1), card);
      PageBreaksAppend(FrontTrace(words, name, n - 1) + card, tail);
      assert PageBreaks([PageBreak]) == 1 by {
        assert [PageBreak][..0] == [];
      }
      FullPagesStep(n);
    }
  }

  /** The front loop only ever appends: the calls of its first `a`
      iterations begin the calls of its first `b`, and hold no more page
      breaks. */
  lemma {:induction false} FrontTraceGrows(words: seq<Word>, name: string, a: nat, b: nat)
    requires a <= b <= |words|
    ensures FrontTrace(words, name, a) <= FrontTrace(words, name, b)
    ensures PageBreaks(FrontTrace(words, name, a)) <= PageBreaks(FrontTrace(words, name, b))
    decreases b
  {
    if a < b {
      FrontTraceGrows(words, name, a, b - 1);
      var prev := FrontTrace(words, name, b - 1);
      var card := FrontCard(CardAt(b - 1, words[b - 1]), name);
      var tail: seq<Event> := if b % CardsPerPage == 0 then [PageBreak] else [];
      assert FrontTrace(words, name, b) == prev + card + tail;
      Assoc(prev, card, tail);
      PrefixExtend(FrontTrace(words, name, a), prev, card + tail);
      PageBreaksAppend(prev, card + tail);
    }
  }

  /** The front loop makes three calls per card and one page break per
      full page. */
  lemma {:induction false} FrontTraceLength(words: seq<Word>, name: string, n: nat)
    requires n <= |words|
    ensures |FrontTrace(words, name, n)| == 3 * n + n / CardsPerPage
  {
    if n > 0 {
      FrontTraceLength(words, name, n - 1);
      FullPagesStep(n);
    }
  }

  /** Card `i` is drawn at its grid cell right after the calls of the cards
      and page breaks before it. */
  lemma {:induction false} FrontTraceAt(words: seq<Word>, name: string, n: nat, i: nat)
    requires n <= |words| && i < n
    ensures 3 * i + i / CardsPerPage + 3 <= |FrontTrace(words, name, n)|
    ensures FrontTrace(words, name, n)[3 * i + i / CardsPerPage .. 3 * i + i / CardsPerPage + 3]
         == FrontCard(CardAt(i, words[i]), name)
  {
    var prev := FrontTrace(words, name, n - 1);
    var card := FrontCard(CardAt(n - 1, words[n - 1]), name);
    var tail: seq<Event> := if n % CardsPerPage == 0 then [PageBreak] else [];
    assert FrontTrace(words, name, n) == prev + card + tail;
    FrontTraceLength(words, name, n - 1);
    var at: nat := 3 * i + i / CardsPerPage;
    if i < n - 1 {
      FrontTraceAt(words, name, n - 1, i);
      SliceLeft(prev, card, tail, at, at + 3);
    } else {
      SliceMiddle(prev, card, tail);
    }
  }

  /** Each back card is drawn without a page break. */
  lemma BackCardNoBreaks(pos: CardPosition, stringWidth: StringWidth)
    ensures PageBreaks(BackCard(pos, stringWidth)) == 0
  {
    NoBreaks(BackCard(pos, stringWidth));
  }

  lemma {:induction false} BackCardsNoBreaks(cards: seq<CardPosition>, stringWidth: StringWidth)
    ensures PageBreaks(BackCards(cards, stringWidth)) == 0
  {
    if cards != [] {
      BackCardsNoBreaks(cards[..|cards| - 1], stringWidth);
      BackCardNoBreaks(cards[|cards| - 1], stringWidth);
      PageBreaksAppend(BackCards(cards[..|cards| - 1], stringWidth), BackCard(cards[|cards| - 1], stringWidth));
    }
  }

  /** The back pass breaks the page once per remembered page. */
  lemma {:induction false} BackPageBreaks(pages: seq<seq<CardPosition>>, stringWidth: StringWidth)
    ensures PageBreaks(BackTrace(pages, stringWidth)) == |pages|
  {
    if pages != [] {
      var init := pages[..|pages| - 1];
      var cards := BackCards(pages[|pages| - 1], stringWidth);
      BackPageBreaks(init, stringWidth);
      BackCardsNoBreaks(pages[|pages| - 1], stringWidth);
      PageBreaksAppend(BackTrace(init, stringWidth), cards);
      PageBreaksAppend(BackTrace(init, stringWidth) + cards, [PageBreak]);
      assert PageBreaks([PageBreak]) == 1 by {
        assert [PageBreak][..0] == [];
      }
    }
  }

  /** `showPage` is called floor(N / 16) + 1 + ceil(N / 16) times for N
      words. */
  lemma TotalPageBreaks(words: seq<Word>, name: string, stringWidth: StringWidth)
    ensures PageBreaks(FlashcardsTrace(words, name, stringWidth))
         == |words| / CardsPerPage + 1 + (|words| + CardsPerPage - 1) / CardsPerPage
  {
    var front := FrontTrace(words, name, |words|);
    var back := BackTrace(Paginate(words), stringWidth);
    FrontPageBreaks(words, name, |words|);
    BackPageBreaks(Paginate(words), stringWidth);
    PageSizes(Placed(words));
    PageBreaksAppend(front, [PageBreak]);
    PageBreaksAppend(front + [PageBreak], back);
    assert PageBreaks([PageBreak]) == 1 by {
      assert [PageBreak][..0] == [];
    }
  }

  /** Seventeen words make two front pages and two back pages: four page
      breaks in all. */
  lemma SeventeenWords(words: seq<Word>, name: string, stringWidth: StringWidth)
    requires |words| == 17
    ensures PageBreaks(FlashcardsTrace(words, name, stringWidth)) == 4
    ensures |Paginate(words)| == 2
    ensures |Paginate(words)[0]| == 16 && |Paginate(words)[1]| == 1
  {
    TotalPageBreaks(words, name, stringWidth);
    PageSizes(Placed(words));
  }

  /** With no words the program emits a single, blank page. */
  lemma NoWordsBlankPage(name: string, stringWidth: StringWidth)
    ensures FlashcardsTrace([], name, stringWidth) == [PageBreak]
  {
    assert Paginate([]) == [];
  }

  /** The front pass ends on a page break exactly when the words fill their
      last page; the page break that always follows it then closes a page
      with nothing drawn on it. */
  lemma BlankFrontPage(words: seq<Word>, name: string, stringWidth: StringWidth)
    ensures var front := FrontTrace(words, name, |words|);
      var t := FlashcardsTrace(words, name, stringWidth);
      && |front| < |t| && t[|front|] == PageBreak
      && (front == [] <==> words == [])
      && ((front != [] && t[|front| - 1] == PageBreak) <==> (|words| > 0 && |words| % CardsPerPage == 0))
  {
    var n := |words|;
    var front := FrontTrace(words, name, n);
    var t := FlashcardsTrace(words, name, stringWidth);
    assert t[|front|] == PageBreak;
    if n > 0 {
      FrontTraceLength(words, name, n);
      assert t[|front| - 1] == front[|front| - 1];
      if n % 16 != 0 {
        var card := FrontCard(CardAt(n - 1, words[n - 1]), name);
        assert front == FrontTrace(words, name, n - 1) + card + [];
        assert front[|front| - 1] == card[2];
      }
    }
  }

  /** The back of the card in slot `q` of page `p`: its reading is drawn in
      column `3 - q mod 4` of row `q div 4`, where the front of the mirrored
      column is, and its k-th translation line `85 + 15 k` points below the
      top of the card. */
  lemma BackCardLayout(words: seq<Word>, p: nat, q: nat, stringWidth: StringWidth)
    requires p < |Paginate(words)| && q < |Paginate(words)[p]|
    ensures CardsPerPage * p + q < |words|
    ensures var w := words[CardsPerPage * p + q];
      var back := BackCard(Paginate(words)[p][q], stringWidth);
      var cx := ColumnX(CardsPerRow - 1 - q % CardsPerRow) + CardWidth / 2.0;
      var y := RowY(q / CardsPerRow);
      var lines := TranslationLines(w, stringWidth);
      && |back| == 1 + |lines|
      && back[0] == Text(cx, y + CardHeight / 1.8, w.reading)
      && forall k :: 0 <= k < |lines| ==>
           back[1 + k] == Text(cx, y + CardHeight - FirstLineDrop - LineHeight * k as real, lines[k])
  {
    PageSlot(words, p, q);
    MirrorColumn(q % CardsPerRow);
  }

  // ---------------------------------------------------------------------
  // Single steps of the loops' bookkeeping.

  lemma LineEventsSnoc(cx: real, top: real, lines: seq<string>, k: nat)
    requires k < |lines|
    ensures LineEvents(cx, top, lines[..k + 1])
         == LineEvents(cx, top, lines[..k]) + [Text(cx, top - LineHeight * k as real, lines[k])]
  {
  }

  /** A full (or final) page closes: it joins the finished pages. */
  lemma CloseChunk<X>(s: seq<X>, lo: nat, hi: nat)
    requires lo <= hi <= |s| && lo % CardsPerPage == 0 && 0 < hi - lo <= CardsPerPage
    ensures Chunks(s[..lo]) + [s[lo..hi]] == Chunks(s[..hi])
  {
    ChunksAppend(s[..lo], s[lo..hi]);
    assert s[..lo] + s[lo..hi] == s[..hi];
  }
}
