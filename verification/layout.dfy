/** The flashcard grid of `create_flashcards_pdf`: a landscape A4 page with
    a 40-point margin holds 4 × 4 cards; the i-th word goes to column
    i mod 4 and row (i mod 16) div 4, counted from the top left, and every
    16 words fill a page. The back of a card is drawn at the horizontally
    mirrored position. All arithmetic is exact (`real`). */
module Layout {
  import opened Vocabulary
  import opened Seqs

  /** `landscape(A4)`: A4 is 210 mm × 297 mm and a point is 25.4/72 mm. */
  const PageWidth: real := 297.0 * 72.0 / 25.4
  const PageHeight: real := 210.0 * 72.0 / 25.4
  const Margin: real := 40.0
  const CardsPerRow: nat := 4
  const CardsPerCol: nat := 4
  /** A page is full after this many cards, `CardsPerRow * CardsPerCol`. */
  const CardsPerPage: nat := 16
  const CardWidth: real := (PageWidth - 2.0 * Margin) / 4.0
  const CardHeight: real := (PageHeight - 2.0 * Margin) / 4.0

  /** One entry of `current_page_positions`: a card's lower-left corner and
      its word. */
  datatype CardPosition = CardPosition(x: real, y: real, word: Word)

  /** `x_start + col * card_width`. */
  function ColumnX(col: int): real {
    Margin + col as real * CardWidth
  }

  /** `y_start - (row + 1) * card_height`: rows go down from the top margin. */
  function RowY(row: int): real {
    PageHeight - Margin - (row + 1) as real * CardHeight
  }

  /** The column of the i-th word. */
  function Column(i: nat): (c: nat)
    ensures c < CardsPerRow
  {
    i % CardsPerRow
  }

  /** The row of the i-th word. */
  function Row(i: nat): (r: nat)
    ensures r < CardsPerCol
  {
    (i % CardsPerPage) / CardsPerRow
  }

  function CardAt(i: nat, w: Word): CardPosition {
    CardPosition(ColumnX(Column(i)), RowY(Row(i)), w)
  }

  /** Every word with the position the front pass gives it, in input order. */
  function Placed(words: seq<Word>): (r: seq<CardPosition>)
    ensures |r| == |words|
  {
    if words == [] then []
    else Placed(words[..|words| - 1]) + [CardAt(|words| - 1, words[|words| - 1])]
  }

  /** Word `i` is placed at the cell its index gives it. */
  lemma {:induction false} PlacedAt(words: seq<Word>, i: nat)
    requires i < |words|
    ensures Placed(words)[i] == CardAt(i, words[i])
  {
    if i < |words| - 1 {
      PlacedAt(words[..|words| - 1], i);
    }
  }

  /** A sequence cut into pages of `CardsPerPage` entries, the last page
      holding what is left. */
  function Chunks<X>(s: seq<X>): seq<seq<X>>
    decreases |s|
  {
    if |s| == 0 then []
    else if |s| <= CardsPerPage then [s]
    else [s[..CardsPerPage]] + Chunks(s[CardsPerPage..])
  }

  /** `kanji_positions_per_page` once the front pass is over. */
  function Paginate(words: seq<Word>): seq<seq<CardPosition>> {
    Chunks(Placed(words))
  }

  /** The pages read one after the other. */
  function Concat<X>(pages: seq<seq<X>>): seq<X> {
    if pages == [] then [] else pages[0] + Concat(pages[1..])
  }

  /** `width - x_pos - card_width`: the back-pass x of a card at `x`. */
  function MirrorX(x: real): real {
    PageWidth - x - CardWidth
  }

  /** The usable width is exactly four cards wide. */
  lemma GridFillsPage()
    ensures PageWidth - 2.0 * Margin == 4.0 * CardWidth
    ensures PageHeight - 2.0 * Margin == 4.0 * CardHeight
    ensures CardWidth > 0.0 && CardHeight > 0.0
    ensures CardsPerPage == CardsPerRow * CardsPerCol
  {
  }

  /** Division by 4 is determined by quotient and remainder. */
  lemma DivMod4(n: int, k: int, m: int)
    requires n == 4 * k + m && 0 <= m < 4
    ensures n / 4 == k && n % 4 == m
  {
  }

  /** Division by 16 is determined by quotient and remainder. */
  lemma DivMod16(n: int, k: int, m: int)
    requires n == 16 * k + m && 0 <= m < 16
    ensures n / 16 == k && n % 16 == m
  {
  }

  /** Word `n` is in row `row`, column `col` of page `page` exactly when
      `n == 16 page + 4 row + col`. */
  lemma CellUnique(n: nat, page: int, row: int, col: int)
    requires n == 16 * page + 4 * row + col && 0 <= row < 4 && 0 <= col < 4
    ensures Column(n) == col && Row(n) == row
    ensures n / CardsPerPage == page && n % CardsPerPage == 4 * row + col
  {
    DivMod16(n, page, 4 * row + col);
    DivMod4(4 * row + col, row, col);
    DivMod4(n, 4 * page + row, col);
  }

  /** Each word closes a page or not; the number of full pages after `n`
      words grows by one exactly when `n` is a multiple of 16. */
  lemma FullPagesStep(n: nat)
    requires n > 0
    ensures n / CardsPerPage == (n - 1) / CardsPerPage + (if n % CardsPerPage == 0 then 1 else 0)
  {
    var page, r := (n - 1) / 16, (n - 1) % 16;
    if r < 15 {
      DivMod16(n, page, r + 1);
    } else {
      DivMod16(n, page + 1, 0);
    }
  }

  lemma CellOf(i: nat)
    ensures i == CardsPerPage * (i / CardsPerPage) + CardsPerRow * Row(i) + Column(i)
    ensures Column(i) < CardsPerRow && Row(i) < CardsPerCol
  {
    var r := i % 16;
    CellUnique(i, i / 16, r / 4, r % 4);
  }

  /** How the source's counters move: `col` steps to the right and wraps to
      the next row after column 3, and the page is full exactly when the
      row count reaches 4, that is after every 16th word. */
  lemma NextCell(i: nat)
    ensures Column(i) < CardsPerRow && Row(i) < CardsPerCol
    ensures Column(i) + 1 < CardsPerRow ==> Column(i + 1) == Column(i) + 1 && Row(i + 1) == Row(i)
    ensures Column(i) + 1 >= CardsPerRow && Row(i) + 1 < CardsPerCol ==>
              Column(i + 1) == 0 && Row(i + 1) == Row(i) + 1
    ensures Column(i) + 1 >= CardsPerRow && Row(i) + 1 >= CardsPerCol ==>
              Column(i + 1) == 0 && Row(i + 1) == 0
    ensures (i + 1) % CardsPerPage == 0 <==> Column(i) + 1 >= CardsPerRow && Row(i) + 1 >= CardsPerCol
  {
    CellOf(i);
    var page, row, col := i / 16, Row(i), Column(i);
    if col + 1 < 4 {
      CellUnique(i + 1, page, row, col + 1);
    } else if row + 1 < 4 {
      CellUnique(i + 1, page, row + 1, 0);
    } else {
      CellUnique(i + 1, page + 1, 0, 0);
    }
  }

  /** Every card lies inside the margins of the page. */
  lemma CardInsideMargins(i: nat)
    ensures Margin <= ColumnX(Column(i)) && ColumnX(Column(i)) + CardWidth <= PageWidth - Margin
    ensures Margin <= RowY(Row(i)) && RowY(Row(i)) + CardHeight <= PageHeight - Margin
  {
    NextCell(i);
    var c, r := Column(i) as real, Row(i) as real;
    assert 0.0 <= c <= 3.0 && 0.0 <= r <= 3.0;
    assert c * CardWidth <= 3.0 * CardWidth;
    assert r * CardHeight <= 3.0 * CardHeight;
  }

  /** The sixteen cards of a page occupy sixteen different cells. */
  lemma DistinctCells(i: nat, j: nat)
    requires i != j && i / CardsPerPage == j / CardsPerPage
    ensures ColumnX(Column(i)) != ColumnX(Column(j)) || RowY(Row(i)) != RowY(Row(j))
  {
    CellOf(i);
    CellOf(j);
    if Column(i) != Column(j) {
      ColumnXInjective(Column(i), Column(j));
    } else {
      RowYInjective(Row(i), Row(j));
    }
  }

  lemma ColumnXInjective(a: int, b: int)
    requires a != b
    ensures ColumnX(a) != ColumnX(b)
  {
    GridFillsPage();
    assert ColumnX(a) - ColumnX(b) == (a - b) as real * CardWidth;
  }

  lemma RowYInjective(a: int, b: int)
    requires a != b
    ensures RowY(a) != RowY(b)
  {
    GridFillsPage();
    assert RowY(b) - RowY(a) == (a - b) as real * CardHeight;
  }

  /** The back of a card in column `col` is drawn where the front of column
      `3 - col` is, so a sheet turned over its long edge puts every back
      behind its own front. */
  lemma MirrorColumn(col: int)
    ensures MirrorX(ColumnX(col)) == ColumnX(CardsPerRow - 1 - col)
  {
    GridFillsPage();
    assert (3 - col) as real * CardWidth == 3.0 * CardWidth - col as real * CardWidth;
  }

  /** Mirroring twice gives the original x (in exact arithmetic). */
  lemma MirrorInvolution(x: real)
    ensures MirrorX(MirrorX(x)) == x
  {
  }

  /** Closing a page at the end: a full run of pages followed by a new page
      of at most `CardsPerPage` entries. */
  lemma {:induction false} ChunksAppend<X>(a: seq<X>, b: seq<X>)
    requires |a| % CardsPerPage == 0 && 0 < |b| <= CardsPerPage
    ensures Chunks(a + b) == Chunks(a) + [b]
    decreases |a|
  {
    if |a| == 0 {
      assert a + b == b;
    } else {
      assert |a| >= CardsPerPage;
      assert (a + b)[..CardsPerPage] == a[..CardsPerPage];
      assert (a + b)[CardsPerPage..] == a[CardsPerPage..] + b;
      ChunksAppend(a[CardsPerPage..], b);
      if |a| == CardsPerPage {
        assert a[CardsPerPage..] == [];
        assert a[CardsPerPage..] + b == b;
      } else {
        assert |a[CardsPerPage..]| % CardsPerPage == 0;
      }
    }
  }

  /** Reading the pages one after the other gives every card, in order. */
  lemma {:induction false} ChunksConcat<X>(s: seq<X>)
    ensures Concat(Chunks(s)) == s
    decreases |s|
  {
    if |s| == 0 {
    } else if |s| <= CardsPerPage {
      assert Concat([s]) == s + Concat([]);
    } else {
      var c := Chunks(s);
      ChunksConcat(s[CardsPerPage..]);
      assert c[0] == s[..CardsPerPage];
      assert c[1..] == Chunks(s[CardsPerPage..]);
      assert s[..CardsPerPage] + s[CardsPerPage..] == s;
    }
  }

  /** There are ceil(N / 16) pages. */
  lemma {:induction false} ChunksCount<X>(s: seq<X>)
    ensures |Chunks(s)| == (|s| + CardsPerPage - 1) / CardsPerPage
    decreases |s|
  {
    if |s| > CardsPerPage {
      var rest := s[CardsPerPage..];
      ChunksCount(rest);
      assert |s| + 15 == (|rest| + 15) + 16;
    }
  }

  /** The end of page `p` in a sequence of `n` entries. */
  function PageEnd(p: nat, n: nat): nat {
    if CardsPerPage * (p + 1) <= n then CardsPerPage * (p + 1) else n
  }

  /** Page `p` holds entries `16 p` up to `16 p + 16`, or up to the end. */
  lemma {:induction false} ChunkAt<X>(s: seq<X>, p: nat)
    requires p < |Chunks(s)|
    ensures CardsPerPage * p < |s|
    ensures Chunks(s)[p] == s[CardsPerPage * p .. PageEnd(p, |s|)]
    decreases p
  {
    if p == 0 {
      if |s| <= CardsPerPage {
        assert s[0..|s|] == s;
      }
    } else {
      var rest := s[CardsPerPage..];
      assert |s| > CardsPerPage;
      assert Chunks(s)[p] == Chunks(rest)[p - 1];
      ChunkAt(rest, p - 1);
      var lo := CardsPerPage * (p - 1);
      var hi := PageEnd(p - 1, |rest|);
      assert hi + CardsPerPage == PageEnd(p, |s|);
      SliceOfDrop(s, CardsPerPage, lo, hi);
    }
  }

  /** The pages of the front pass: ceil(N / 16) of them, none empty, each of
      at most 16 cards and all but the last exactly 16. */
  lemma PageSizes<X>(s: seq<X>)
    ensures |Chunks(s)| == (|s| + CardsPerPage - 1) / CardsPerPage
    ensures forall p :: 0 <= p < |Chunks(s)| ==> 0 < |Chunks(s)[p]| <= CardsPerPage
    ensures forall p :: 0 <= p < |Chunks(s)| - 1 ==> |Chunks(s)[p]| == CardsPerPage
    ensures s != [] ==> |Chunks(s)[|Chunks(s)| - 1]| == |s| - CardsPerPage * (|Chunks(s)| - 1)
  {
    ChunksCount(s);
    var n := |Chunks(s)|;
    forall p | 0 <= p < n
      ensures 0 < |Chunks(s)[p]| <= CardsPerPage
      ensures p < n - 1 ==> |Chunks(s)[p]| == CardsPerPage
    {
      ChunkAt(s, p);
      if p < n - 1 {
        assert 16 * (p + 1) <= 16 * (n - 1);
        assert 16 * (n - 1) < |s| by {
          ChunkAt(s, n - 1);
        }
      }
    }
    if s != [] {
      ChunkAt(s, n - 1);
      assert 16 * n >= |s| by {
        assert n == (|s| + 15) / 16;
      }
    }
  }

  /** Slot `q` of page `p` is entry `16 p + q`. */
  lemma ChunkIndex<X>(s: seq<X>, p: nat, q: nat)
    requires p < |Chunks(s)| && q < |Chunks(s)[p]|
    ensures CardsPerPage * p + q < |s| && Chunks(s)[p][q] == s[CardsPerPage * p + q]
  {
    ChunkAt(s, p);
  }

  /** The slot `q` of page `p` holds word `16 p + q`, in column `q mod 4`
      and row `q div 4` of that page. */
  lemma PageSlot(words: seq<Word>, p: nat, q: nat)
    requires p < |Paginate(words)| && q < |Paginate(words)[p]|
    ensures CardsPerPage * p + q < |words|
    ensures Paginate(words)[p][q] ==
      CardPosition(ColumnX(q % CardsPerRow), RowY(q / CardsPerRow), words[CardsPerPage * p + q])
  {
    var s := Placed(words);
    ChunkIndex(s, p, q);
    PlacedAt(words, 16 * p + q);
    PageSizes(s);
    assert q < 16;
    CellUnique(16 * p + q, p, q / 4, q % 4);
  }

  /** The back pass visits the same cards in the same order as the front
      pass placed them. */
  lemma BackOrder(words: seq<Word>)
    ensures Concat(Paginate(words)) == Placed(words)
  {
    ChunksConcat(Placed(words));
  }
}
