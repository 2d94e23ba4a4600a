# kado_maker flashcards, modelled in Dafny

kado_maker turns a vocabulary file into a printable PDF of flashcards. The
input is a list of lessons, each with a label (`dars`) and its words
(`so'zlar`). The output has two sets of pages:

- **Front pages.** A 4 × 4 grid per landscape A4 page. Each card has a border, a
  `"<label>-kanji"` caption and the word.
- **Back pages.** They replay the same cards at the horizontally mirrored
  position. Each card shows its reading and its translation, wrapped to the
  card's width less 10 points.

This project models the logic of `main.py` and proves what it does.

| module | file | models |
|---|---|---|
| `PyStr` | `pystr.dfy` | Python's `str.split()`, `str.strip()` and `" ".join`, with Python's whitespace set |
| `Surface` | `surface.dfy` | the canvas as a class that records the calls it receives (`rect`, `drawCentredString`, `showPage`) and answers `stringWidth` with a fixed, arbitrary function |
| `Wrapping` | `wrapping.dfy` | `wrap_text`: a method running the source's loop, proved equal to a recursive specification; the lemmas about that specification |
| `Vocabulary` | `vocabulary.dfy` | the flattening part of `load_words`, from already-parsed lesson records |
| `Layout` | `layout.dfy` | page and card geometry in exact real arithmetic, the grid counters, cutting into pages of 16, the mirror |
| `Flashcards` | `flashcards.dfy` | `create_flashcards_pdf`: the front pass, the page break between the passes, the back pass, and what the calls add up to |
| `Seqs` | `seqs.dfy` | generic facts about sequence concatenation and slicing used by the proofs |

Each method of `create_flashcards_pdf`'s model states the exact calls it
adds to the canvas. These are given as a function of its inputs:
`FrontTrace`, `BackTrace`, `FlashcardsTrace`. The lemmas then prove these
properties of those traces:

- where each card lands;
- which pages hold which words;
- that the back pass mirrors the front;
- how many times `showPage` is called.

A text whose words fit on one line comes back as those words joined by
single spaces. Runs of whitespace inside it collapse, so it is not the
stripped input (see `Wrapping.WrapSingleLine`).

## Model

| member | source | states |
|---|---|---|
| PyStr.IsSpace | main.py:29-33 | the characters Python's `str.split()` and `str.strip()` treat as whitespace; `LStripRemoves`, `SplitWords` and `SplitEmptyIffBlank` state what the string functions do with them |
| PyStr.LStrip | main.py:33 | the left-stripped text is no longer than the input and does not start with whitespace; `LStripRemoves` says what it is |
| PyStr.RStrip | main.py:33 | the right-stripped text is no longer than the input and does not end with whitespace; `RStripRemoves` says what it is |
| PyStr.LStripRemoves | main.py:33 | `lstrip` returns a suffix of the input and everything it drops is whitespace: exactly the leading whitespace is removed |
| PyStr.RStripRemoves | main.py:33 | `rstrip` returns a prefix of the input and everything it drops is whitespace: exactly the trailing whitespace is removed |
| PyStr.Strip | main.py:33 | computes `str.strip()` as `rstrip` after `lstrip`; `StripRemoves` and `StripJoin` state its properties |
| PyStr.StripRemoves | main.py:33 | `strip` keeps exactly the slice between the leading and the trailing whitespace, and that slice neither starts nor ends with whitespace |
| PyStr.Split | main.py:29 | computes `str.split()`: the maximal runs of non-whitespace, in order; `SplitWords`, `SplitAppend` and `SplitJoin` state its properties |
| PyStr.JoinSpace | main.py:33 | computes `" ".join(words)`, the form every line takes; `SplitJoin`, `JoinAppend` and `StripJoin` state its properties |
| PyStr.SplitEmptyIffBlank | main.py:29 | `str.split()` returns no word exactly when the text is empty or whitespace only |
| PyStr.SplitWords | main.py:29 | every piece `str.split()` returns is non-empty and holds no whitespace |
| PyStr.SplitAppend | main.py:29 | splitting two texts joined by a space gives the words of the first, then those of the second |
| PyStr.SplitWord | main.py:29 | a single word splits to itself |
| PyStr.SplitJoin | main.py:29-33 | joining words with single spaces and splitting again returns the same words |
| PyStr.StripJoin | main.py:33 | `f"{line} {word}".strip()` on a line of joined words is those words with `word` added; the strip only removes the leading space when the line is empty |
| Surface.Canvas.constructor | main.py:44 | a new canvas has received no call, and its metrics are the ones supplied |
| Surface.Canvas.Rect | main.py:62 | a border call is appended to the canvas's calls |
| Surface.Canvas.DrawCentredString | main.py:64 | a centred-text call with its position and text is appended |
| Surface.Canvas.ShowPage | main.py:75 | a page break is appended |
| Surface.PageBreaksAppend | main.py:75-96 | the page breaks of two call sequences add up |
| Wrapping.TestLine | main.py:33 | computes `f"{current_line} {word}".strip()`; `StripJoin` states that it is the current line's words with `word` added |
| Wrapping.Fits | main.py:34 | the test `stringWidth(test_line, font, size) <= max_width`; `WrapLines` and `WrapGreedy` state which lines pass it |
| Wrapping.WrapFrom | main.py:32-40 | the wrapping loop from a given state (finished lines, current line, words left), as a recursive function; the lemmas below state its properties |
| Wrapping.Wrap | main.py:28-41 | what `wrap_text` returns: `WrapFrom` on `text.split()` from no lines and an empty current line; `WrapText` is proved equal to it, and `WrapWords`, `WrapEmpty`, `WrapLines` and `WrapGreedy` state its properties |
| Wrapping.WrapText | main.py:28-41 | the source's loop returns exactly the lines the greedy specification `Wrap` gives for the same text, width, font and metrics |
| Wrapping.WrapFromWords | main.py:32-40 | from any point of the loop, the finished lines and the words still to place read back as the words so far, in order |
| Wrapping.WrapWords | main.py:29-40 | reading the returned lines back word by word (empty lines hold none) gives exactly `text.split()`: no word is lost, reordered or broken |
| Wrapping.WrapEmpty | main.py:29-41 | the result is empty if and only if `text.split()` is empty, that is, if and only if the text is empty or whitespace only |
| Wrapping.WrapFromExtends | main.py:32-40 | once the current line holds a word, every line the loop appends holds words joined by single spaces and fits unless it is one word |
| Wrapping.PackedBoundary | main.py:36-38 | a closed line, and the lines after it, keep that shape |
| Wrapping.WrapLines | main.py:33-40 | every line after the first holds words joined by single spaces, and it fits `maxWidth` unless it is a single word; the first line has the same shape, except that it is `""` exactly when the text has a word and the first word alone is too wide |
| Wrapping.WrapFromGreedy | main.py:33-38 | the loop closes a line only when the next word, joined to it, would be too wide |
| Wrapping.GreedyBoundary | main.py:36-38 | the line closed at a word is too wide for that word |
| Wrapping.WrapGreedy | main.py:33-38 | for every pair of consecutive lines, the first line joined with the next line's first word does not fit: the wrapping is greedy |
| Wrapping.JoinAppend | main.py:33 | joining two non-empty word lists with single spaces equals joining each and putting a space between |
| Wrapping.JoinPrefixWidth | main.py:34 | for metrics that never make a prefix wider than the whole string, adding words never makes a line narrower |
| Wrapping.WrapFromAllFit | main.py:32-40 | for metrics that never make a prefix wider than the whole string: when all remaining words joined to the current line fit, the loop ends with that single line appended |
| Wrapping.WrapSingleLine | main.py:29-41 | for such metrics, a text whose words, joined by single spaces, fit returns that one line |
| Vocabulary.Rename | main.py:21-25 | computes the dictionary built per record, `kana`→`word`, `jp`→`reading`, `uzb`→`translation`; `RenameLossless` and `FlattenAt` state its properties |
| Vocabulary.RenameAll | main.py:20-25 | computes one lesson's records renamed, in order; `RenameAllSnoc` and `FlattenAt` state its properties |
| Vocabulary.Flatten | main.py:19-25 | computes the words of all lessons, lesson after lesson; `FlattenLength`, `FlattenAt` and `FlattenAppend` state its properties |
| Vocabulary.LoadWords | main.py:17-26 | fails if and only if there is no lesson; otherwise returns the words of all lessons in order, renamed `kana`→`word`, `jp`→`reading`, `uzb`→`translation`, with the label of the first lesson |
| Vocabulary.RenameLossless | main.py:21-25 | the renaming is a bijection between input records and loaded words |
| Vocabulary.FlattenLength | main.py:19-25 | one word is loaded per input record |
| Vocabulary.FlattenAt | main.py:19-25 | word `k` of lesson `i` sits right after all words of the lessons before `i` and the first `k` of lesson `i` |
| Vocabulary.FlattenAppend | main.py:19-25 | loading two lesson lists one after the other concatenates their words |
| Vocabulary.RenameAllSnoc | main.py:20-25 | renaming one more record appends its renamed word |
| Layout.ColumnX | main.py:58 | computes `x_start + col * card_width`; `PlacedAt`, `CardInsideMargins` and `ColumnXInjective` state its properties |
| Layout.RowY | main.py:59 | computes `y_start - (row + 1) * card_height`; `PlacedAt`, `CardInsideMargins` and `RowYInjective` state its properties |
| Layout.Column | main.py:68-76 | the column counter after `i` words is below 4; `NextCell` and `CellUnique` tie it to the source's counter steps |
| Layout.Row | main.py:68-76 | the row counter after `i` words is below 4; `NextCell` and `CellUnique` tie it to the source's counter steps |
| Layout.CardAt | main.py:58-60 | computes the `(x_pos, y_pos, word)` entry of the `i`-th word from its column and row; `PlacedAt` and `PageSlot` state where it lands |
| Layout.Placed | main.py:57-60 | one position per word |
| Layout.PlacedAt | main.py:57-60 | word `i` is placed at `x = margin + col * card_width`, `y = height - margin - (row + 1) * card_height` of its cell |
| Layout.GridFillsPage | main.py:46-50 | the usable width is exactly four cards and the usable height four cards, both positive; a page holds 4 × 4 cards |
| Layout.CellUnique | main.py:57-76 | word `n` is in row `r`, column `c` of page `p` exactly when `n = 16 p + 4 r + c` |
| Layout.CellOf | main.py:57-76 | every word index decomposes as its page, row and column |
| Layout.NextCell | main.py:68-76 | the counters stay within `0 ≤ col < 4` and `0 ≤ row < 4`, step as the source steps them, and close the page exactly after every 16th word |
| Layout.FullPagesStep | main.py:72-75 | the number of full pages grows by one exactly at multiples of 16 |
| Layout.CardInsideMargins | main.py:51-59 | every card lies within the page margins |
| Layout.DistinctCells | main.py:57-76 | two cards on the same page never share a cell |
| Layout.ColumnXInjective | main.py:58 | different columns have different x |
| Layout.RowYInjective | main.py:59 | different rows have different y |
| Layout.MirrorX | main.py:84 | computes `width - x_pos - card_width`; `MirrorColumn` and `MirrorInvolution` state its properties |
| Layout.MirrorColumn | main.py:84 | the mirrored x of column `col` is the front x of column `3 - col` |
| Layout.MirrorInvolution | main.py:84 | mirroring twice gives the original x (in exact arithmetic) |
| Layout.Chunks | main.py:72-78 | cuts a sequence into pages of 16 with the rest last; `ChunksConcat`, `ChunksCount`, `ChunkAt` and `PageSizes` state its properties |
| Layout.Paginate | main.py:57-78 | the page list the front pass builds: the placed cards cut into pages; `FrontPass` is proved to return it, and `PageSlot` and `BackOrder` state its properties |
| Layout.ChunksAppend | main.py:72-78 | closing a page of at most 16 cards after full pages appends it to the page list |
| Layout.ChunksConcat | main.py:72-78 | the pages read one after another give back the cards |
| Layout.ChunksCount | main.py:72-78 | there are ceil(N / 16) pages |
| Layout.ChunkAt | main.py:72-78 | page `p` holds entries `16 p` up to `16 p + 16` or the end |
| Layout.PageSizes | main.py:72-78 | ceil(N / 16) pages, none empty, at most 16 cards each, all but the last exactly 16, the last holding the rest |
| Layout.ChunkIndex | main.py:72-78 | slot `q` of page `p` is entry `16 p + q` |
| Layout.PageSlot | main.py:57-78 | slot `q` of page `p` holds word `16 p + q` at column `q mod 4`, row `q div 4` |
| Layout.BackOrder | main.py:82-83 | the back pass visits the same cards in the same order as the front pass placed them |
| Flashcards.FrontTrace | main.py:57-76 | the calls of the front loop's first `n` iterations; `FrontPass` is proved to make them, and `FrontPageBreaks`, `FrontTraceLength`, `FrontTraceAt` and `FrontTraceGrows` state their properties |
| Flashcards.FrontCard | main.py:62-67 | the three calls for one card's front: border, caption, word; `DrawFrontCard` is proved to make them and `FrontTraceAt` places them in the trace |
| Flashcards.TranslationLines | main.py:91 | computes `wrap_text(word["translation"], card_width - 10, "JapaneseFont", 12, c)`; `BackCardLayout` states where its lines are drawn |
| Flashcards.BackCard | main.py:84-95 | the calls for one card's back; `DrawBackCard` is proved to make them, and `BackCardLayout` and `BackCardNoBreaks` state their properties |
| Flashcards.BackCards | main.py:83-95 | the calls of the inner back loop over one page's cards; `BackPass` is proved to make them and `BackCardsNoBreaks` states that they break no page |
| Flashcards.BackTrace | main.py:82-96 | the calls of the back pass over a page list; `BackPass` is proved to make them, and `BackPageBreaks` states their page breaks |
| Flashcards.FlashcardsTrace | main.py:43-98 | every call the program makes, in order; `CreateFlashcardsPdf` is proved to make them, and `TotalPageBreaks`, `NoWordsBlankPage` and `BlankFrontPage` state their properties |
| Flashcards.LineEvents | main.py:93-95 | one text call per translation line |
| Flashcards.DrawFrontCard | main.py:62-67 | the border, the caption and the word of one card are drawn, in that order |
| Flashcards.FrontPass | main.py:52-78 | the front loop returns the page list `Paginate(words)` and draws exactly `FrontTrace`: each card at its cell, with a page break after every 16th card |
| Flashcards.FrontTraceStep | main.py:61-76 | one iteration adds one card's calls, plus a page break when that card fills the page |
| Flashcards.FillStep | main.py:60-76 | one iteration keeps the page being filled and the closed pages equal to the cards placed so far, cut into 16s |
| Flashcards.FillDone | main.py:77-78 | after the loop, adding a partly filled page gives exactly the pages of all cards |
| Flashcards.DrawBackCard | main.py:84-95 | the back of a card draws the reading, then each wrapped translation line 15 points below the previous one, at the mirrored x |
| Flashcards.BackPass | main.py:82-96 | the back pass draws exactly `BackTrace`: each page's cards, then a page break |
| Flashcards.CreateFlashcardsPdf | main.py:43-98 | the program draws the front pass, one page break, then the back pass over the front pass's pages |
| Flashcards.NoBreaks | main.py:62-95 | calls that are not page breaks add no page |
| Flashcards.FrontPageBreaks | main.py:72-76 | the front loop breaks the page floor(N / 16) times |
| Flashcards.FrontTraceGrows | main.py:57-76 | the front loop only appends: the calls of its first `a` iterations begin those of its first `b`, with no more page breaks |
| Flashcards.FrontTraceLength | main.py:57-76 | the front loop makes three calls per card plus one per full page |
| Flashcards.FrontTraceAt | main.py:57-67 | the calls for card `i` start at position `3 i + i div 16` of the front trace and draw it at its cell |
| Flashcards.BackCardNoBreaks | main.py:84-95 | drawing a back card breaks no page |
| Flashcards.BackCardsNoBreaks | main.py:83-95 | drawing a page's back cards breaks no page |
| Flashcards.BackPageBreaks | main.py:82-96 | the back pass breaks the page once per page |
| Flashcards.TotalPageBreaks | main.py:75-96 | `showPage` is called floor(N / 16) + 1 + ceil(N / 16) times |
| Flashcards.SeventeenWords | main.py:72-96 | 17 words make pages of 16 and 1 cards, and four page breaks |
| Flashcards.NoWordsBlankPage | main.py:57-96 | with no words the only call is one page break, giving a single blank page |
| Flashcards.BlankFrontPage | main.py:72-79 | the front pass ends on a page break exactly when N is a positive multiple of 16, so the page break after it closes a blank page |
| Flashcards.BackCardLayout | main.py:82-95 | the back of slot `q` on page `p` shows word `16 p + q`'s reading in column `3 - q mod 4`, in the same row as its front; its k-th translation line is at `y + card_height - 85 - 15 k` |

## Left out

- `load_font`, `TTFont` and `pdfmetrics.registerFont` (main.py:9-12) are a file-existence check and font registration in a foreign library. A missing font file raises before anything is drawn; that path is not modelled.
- Opening the input file and `json.load` (main.py:15-16). `load_words` is modelled from already-parsed, well-typed lesson records. A record missing a key (a `KeyError`) cannot be expressed.
- `str(data[0]['dars'])`: the label is taken to be a string already, so `str()` of a number is not modelled.
- `canvas.Canvas(pdf_filename, pagesize=landscape(A4))` (main.py:44). The canvas is passed in with its font metrics. The page size is the fixed `landscape(A4)` in exact reals.
- `setFont` and `setFillColor` (main.py:61-66, 86-90) are cosmetic: no call records them. The `stringWidth` used for wrapping is called with font "JapaneseFont" and size 12, as in the source.
- `c.save()`, the `print` confirmation and the `__main__` block (main.py:98-106): output and hard-coded paths.
- Floating point. `landscape(A4)`, card sizes and positions are exact reals. `Layout.MirrorInvolution` holds for reals, not for IEEE doubles.
- `canvas.stringWidth` is an arbitrary function. No property of it, non-negativity included, is assumed except by the lemmas below.
- Wrapping.WrapSingleLine: proved only for metrics where a prefix of a string is never wider than the whole string (`PrefixMonotone`). For arbitrary metrics, adding a word could make a line narrower, and the text might wrap.
- Wrapping.JoinPrefixWidth: assumes the same prefix condition on the metrics.
- Wrapping.WrapFromAllFit: assumes the same prefix condition. Without it, a line of all the words can fit while a shorter line on the way is too wide, so the loop breaks the line.
