/** The vocabulary loader (`load_words`) after the JSON file has been
    parsed: the lesson groups are flattened into one ordered word list, each
    record's fields renamed, and the lesson label taken from the first group. */
module Vocabulary {
  import opened Seqs

  /** One entry of a lesson's `so'zlar` list, as the input file spells its
      fields. */
  datatype RawWord = RawWord(kana: string, jp: string, uzb: string)

  /** One lesson group of the input: its `dars` label, already rendered as
      `str()` renders it, and its `so'zlar` word list. */
  datatype Lesson = Lesson(dars: string, sozlar: seq<RawWord>)

  /** The dictionary `load_words` builds per word. */
  datatype Word = Word(word: string, reading: string, translation: string)

  /** `data[0]` on an empty lesson list raises `IndexError`. */
  datatype LoadError = NoLessons

  datatype Result<T> = Ok(value: T) | Err(error: LoadError)

  /** The field renaming `kana`→`word`, `jp`→`reading`, `uzb`→`translation`. */
  function Rename(w: RawWord): Word {
    Word(w.kana, w.jp, w.uzb)
  }

  /** The renaming read backwards. */
  function Restore(w: Word): RawWord {
    RawWord(w.word, w.reading, w.translation)
  }

  /** One lesson's records, each renamed, in their order. */
  function RenameAll(ws: seq<RawWord>): seq<Word> {
    seq(|ws|, k requires 0 <= k < |ws| => Rename(ws[k]))
  }

  /** The words of all lessons, lesson after lesson, each lesson's in its
      own order. */
  function Flatten(data: seq<Lesson>): seq<Word> {
    if data == [] then [] else Flatten(data[..|data| - 1]) + RenameAll(data[|data| - 1].sozlar)
  }

  /** How many words the lessons hold together. */
  function WordCount(data: seq<Lesson>): nat {
    if data == [] then 0 else WordCount(data[..|data| - 1]) + |data[|data| - 1].sozlar|
  }

  /** `load_words` from the parsed lesson list on: it fails on an empty list
      and otherwise returns the flattened words and the first lesson's label. */
  method LoadWords(data: seq<Lesson>) returns (r: Result<(seq<Word>, string)>)
    ensures data == [] <==> r == Err(NoLessons)
    ensures data != [] ==> r == Ok((Flatten(data), data[0].dars))
  {
    if data == [] {
      return Err(NoLessons);
    }
    var name := data[0].dars;
    var words: seq<Word> := [];
    for i := 0 to |data|
      invariant words == Flatten(data[..i])
    {
      var lesson := data[i];
      assert data[..i + 1][..i] == data[..i];
      for j := 0 to |lesson.sozlar|
        invariant words == Flatten(data[..i]) + RenameAll(lesson.sozlar[..j])
      {
        var word := lesson.sozlar[j];
        SnocAssoc(Flatten(data[..i]), RenameAll(lesson.sozlar[..j]), Rename(word));
        RenameAllSnoc(lesson.sozlar, j);
        words := words + [Word(word.kana, word.jp, word.uzb)];
      }
      assert lesson.sozlar[..|lesson.sozlar|] == lesson.sozlar;
    }
    assert data[..|data|] == data;
    return Ok((words, name));
  }

  /** The renaming loses nothing: it is a bijection between the input's
      records and the loader's words. */
  lemma RenameLossless(w: RawWord, x: Word)
    ensures Restore(Rename(w)) == w
    ensures Rename(Restore(x)) == x
    ensures Rename(w) == x <==> w == Restore(x)
  {
  }

  /** The loader's list has one word per input record. */
  lemma {:induction false} FlattenLength(data: seq<Lesson>)
    ensures |Flatten(data)| == WordCount(data)
  {
    if data != [] {
      FlattenLength(data[..|data| - 1]);
    }
  }

  /** Word `k` of lesson `i` lands right after the words of the lessons
      before `i` and the first `k` words of lesson `i`. */
  lemma {:induction false} FlattenAt(data: seq<Lesson>, i: nat, k: nat)
    requires i < |data| && k < |data[i].sozlar|
    ensures WordCount(data[..i]) + k < |Flatten(data)|
    ensures Flatten(data)[WordCount(data[..i]) + k] == Rename(data[i].sozlar[k])
  {
    var n := |data| - 1;
    var init := data[..n];
    FlattenLength(init);
    assert |Flatten(data)| == |Flatten(init)| + |data[n].sozlar|;
    if i < n {
      FlattenAt(init, i, k);
      assert init[..i] == data[..i];
    } else {
      assert data[..i] == init;
    }
  }

  /** Loading two lists of lessons one after the other gives the words of
      the first followed by those of the second. */
  lemma {:induction false} FlattenAppend(a: seq<Lesson>, b: seq<Lesson>)
    ensures Flatten(a + b) == Flatten(a) + Flatten(b)
    decreases |b|
  {
    if b == [] {
      assert a + b == a;
      EmptyRight(Flatten(a));
    } else {
      var b' := b[..|b| - 1];
      assert (a + b)[..|a + b| - 1] == a + b';
      FlattenAppend(a, b');
      Assoc(Flatten(a), Flatten(b'), RenameAll(b[|b| - 1].sozlar));
    }
  }

  lemma RenameAllSnoc(ws: seq<RawWord>, j: nat)
    requires j < |ws|
    ensures RenameAll(ws[..j + 1]) == RenameAll(ws[..j]) + [Rename(ws[j])]
  {
  }
}
