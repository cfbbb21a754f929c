/** `Corpus`: turns the lines of the train, valid and test texts into flat id
    sequences, sharing one `Dictionary`. The file reads are replaced by the
    lines themselves. */
module Tokenizer {
  import opened Seqs
  import opened Text
  import opened Vocabulary

  /** The end-of-line marker appended to every line. */
  const Eos: string := "<eos>"

  /** The words of one line as `tokenize` sees them: `line.split() + ['<eos>']`. */
  function LineWords(line: string): (ws: seq<string>)
    ensures |ws| == |Split(line)| + 1 && ws[|ws| - 1] == Eos
  {
    Split(line) + [Eos]
  }

  /** The words of all lines, in order. */
  function AllWords(lines: seq<string>): (ws: seq<string>)
    ensures |ws| >= |lines|
    ensures |lines| > 0 ==> ws[|ws| - 1] == Eos
  {
    if |lines| == 0 then [] else AllWords(lines[..|lines| - 1]) + LineWords(lines[|lines| - 1])
  }

  /** Number of whitespace-separated tokens in all lines, plus one marker per line. */
  function TokenCount(lines: seq<string>): (n: nat)
    ensures n >= |lines|
  {
    if |lines| == 0 then 0 else TokenCount(lines[..|lines| - 1]) + |Split(lines[|lines| - 1])| + 1
  }

  /** Looking up each word in `word2idx`. */
  function Lookup(word2idx: map<string, int>, ws: seq<string>): (ids: seq<int>)
    requires forall k :: 0 <= k < |ws| ==> ws[k] in word2idx
    ensures |ids| == |ws|
  {
    seq(|ws|, k requires 0 <= k < |ws| => word2idx[ws[k]])
  }

  /** All the words are keys of `word2idx`. */
  ghost predicate WordsKnown(word2idx: map<string, int>, ws: seq<string>)
  {
    forall k :: 0 <= k < |ws| ==> ws[k] in word2idx
  }

  /** All words of the lines are keys of `word2idx`. */
  ghost predicate Known(word2idx: map<string, int>, lines: seq<string>)
  {
    WordsKnown(word2idx, AllWords(lines))
  }

  /** The words of the first `n` lines come first among the words of all lines. */
  lemma {:induction false} AllWordsPrefix(lines: seq<string>, n: nat)
    requires n <= |lines|
    ensures AllWords(lines[..n]) <= AllWords(lines)
    decreases |lines| - n
  {
    if n < |lines| {
      var front := lines[..|lines| - 1];
      assert front[..n] == lines[..n];
      AllWordsPrefix(front, n);
    } else {
      assert lines[..n] == lines;
    }
  }

  /** One more line appends that line's words. */
  lemma AllWordsNext(lines: seq<string>, i: nat)
    requires i < |lines|
    ensures AllWords(lines[..i + 1]) == AllWords(lines[..i]) + LineWords(lines[i])
  {
    assert lines[..i + 1][..i] == lines[..i];
  }

  lemma KnownPrefix(word2idx: map<string, int>, lines: seq<string>, n: nat)
    requires Known(word2idx, lines) && n <= |lines|
    ensures Known(word2idx, lines[..n])
  {
    AllWordsPrefix(lines, n);
  }

  lemma KnownLine(word2idx: map<string, int>, lines: seq<string>, i: nat)
    requires Known(word2idx, lines) && i < |lines|
    ensures WordsKnown(word2idx, LineWords(lines[i]))
  {
    KnownPrefix(word2idx, lines, i + 1);
    AllWordsNext(lines, i);
    var pre := AllWords(lines[..i]);
    forall k | 0 <= k < |LineWords(lines[i])| ensures LineWords(lines[i])[k] in word2idx {
      assert LineWords(lines[i])[k] == AllWords(lines[..i + 1])[|pre| + k];
    }
  }

  /** The ids of one line (pass 2 of `tokenize` for that line). */
  function EncodeLine(word2idx: map<string, int>, line: string): (ids: seq<int>)
    requires WordsKnown(word2idx, LineWords(line))
    ensures |ids| == |Split(line)| + 1
    ensures Eos in word2idx && ids[|ids| - 1] == word2idx[Eos]
  {
    assert LineWords(line)[|LineWords(line)| - 1] == Eos;
    Lookup(word2idx, LineWords(line))
  }

  /** The ids of all lines, concatenated (pass 2 followed by `torch.cat`). */
  function Encode(word2idx: map<string, int>, lines: seq<string>): (ids: seq<int>)
    requires Known(word2idx, lines)
    ensures |ids| >= |lines|
    ensures |lines| > 0 ==> Eos in word2idx && ids[|ids| - 1] == word2idx[Eos]
  {
    if |lines| == 0 then []
    else
      KnownPrefix(word2idx, lines, |lines| - 1);
      KnownLine(word2idx, lines, |lines| - 1);
      Encode(word2idx, lines[..|lines| - 1]) + EncodeLine(word2idx, lines[|lines| - 1])
  }

  /** Reading ids back through `idx2word`. */
  function Decode(idx2word: seq<string>, ids: seq<int>): (ws: seq<string>)
    requires forall k :: 0 <= k < |ids| ==> 0 <= ids[k] < |idx2word|
    ensures |ws| == |ids|
  {
    seq(|ids|, k requires 0 <= k < |ids| => idx2word[ids[k]])
  }

  /** Looking up two word lists one after the other is looking up both. */
  lemma LookupAppend(word2idx: map<string, int>, a: seq<string>, b: seq<string>)
    requires WordsKnown(word2idx, a) && WordsKnown(word2idx, b)
    ensures WordsKnown(word2idx, a + b)
    ensures Lookup(word2idx, a + b) == Lookup(word2idx, a) + Lookup(word2idx, b)
  {
    assert WordsKnown(word2idx, a + b) by {
      forall k | 0 <= k < |a + b| ensures (a + b)[k] in word2idx {
        if k >= |a| {
          assert (a + b)[k] == b[k - |a|];
        }
      }
    }
  }

  /** The id sequence is the per-word lookup of the flat word list. */
  lemma {:induction false} EncodeIsLookup(word2idx: map<string, int>, lines: seq<string>)
    requires Known(word2idx, lines)
    ensures Encode(word2idx, lines) == Lookup(word2idx, AllWords(lines))
  {
    if |lines| > 0 {
      var n := |lines| - 1;
      KnownPrefix(word2idx, lines, n);
      KnownLine(word2idx, lines, n);
      EncodeIsLookup(word2idx, lines[..n]);
      LookupAppend(word2idx, AllWords(lines[..n]), LineWords(lines[n]));
    }
  }

  /** One id per token plus one per line. */
  lemma {:induction false} AllWordsLength(lines: seq<string>)
    ensures |AllWords(lines)| == TokenCount(lines)
  {
    if |lines| > 0 {
      AllWordsLength(lines[..|lines| - 1]);
    }
  }

  /** The output length is the number of tokens plus one marker per line. */
  lemma EncodeLength(word2idx: map<string, int>, lines: seq<string>)
    requires Known(word2idx, lines)
    ensures |Encode(word2idx, lines)| == TokenCount(lines)
  {
    EncodeIsLookup(word2idx, lines);
    AllWordsLength(lines);
  }

  /** Each line's block of ids ends with the id of the marker, and a blank line
      (empty or whitespace only) contributes that id alone. */
  lemma LineEndsWithEos(word2idx: map<string, int>, line: string)
    requires WordsKnown(word2idx, LineWords(line))
    ensures |EncodeLine(word2idx, line)| >= 1
    ensures EncodeLine(word2idx, line)[|EncodeLine(word2idx, line)| - 1] == word2idx[Eos]
    ensures (forall k :: 0 <= k < |line| ==> IsSpace(line[k])) <==> EncodeLine(word2idx, line) == [word2idx[Eos]]
  {
    SplitEmptyIffBlank(line);
  }

  /** With a consistent vocabulary, the ids are in range and decode to the split
      words with the marker after each line. */
  lemma DecodeEncode(word2idx: map<string, int>, idx2word: seq<string>, lines: seq<string>)
    requires Bijective(word2idx, idx2word) && Known(word2idx, lines)
    ensures forall k :: 0 <= k < |Encode(word2idx, lines)| ==> 0 <= Encode(word2idx, lines)[k] < |idx2word|
    ensures Decode(idx2word, Encode(word2idx, lines)) == AllWords(lines)
  {
    EncodeIsLookup(word2idx, lines);
  }

  /** Ids computed earlier survive later growth of the vocabulary: if the map
      only gains keys, the encoding of text it already knew is unchanged. */
  lemma {:induction false} EncodeStable(m1: map<string, int>, m2: map<string, int>, lines: seq<string>)
    requires Known(m1, lines)
    requires forall w :: w in m1 ==> w in m2 && m2[w] == m1[w]
    ensures Known(m2, lines)
    ensures Encode(m2, lines) == Encode(m1, lines)
  {
    EncodeIsLookup(m1, lines);
    assert Known(m2, lines);
    EncodeIsLookup(m2, lines);
  }

  /** After pass 1 every word of the text is in the vocabulary, so pass 2 never misses. */
  lemma PassOneCoversPassTwo(word2idx: map<string, int>, idx2word: seq<string>, before: seq<string>, lines: seq<string>)
    requires Bijective(word2idx, idx2word) && idx2word == AddAll(before, AllWords(lines))
    ensures Known(word2idx, lines)
  {
    AddAllContents(before, AllWords(lines));
    forall k | 0 <= k < |AllWords(lines)| ensures AllWords(lines)[k] in word2idx {
      KeysAreListed(word2idx, idx2word, AllWords(lines)[k]);
    }
  }

  /** The words of lines `"a b"` and `"b a"`: `a b <eos> b a <eos>`. */
  lemma TwoLineWords()
    ensures AllWords(["a b", "b a"]) == ["a", "b", Eos, "b", "a", Eos]
  {
    var lines := ["a b", "b a"];
    assert IsToken("a") && IsToken("b");
    SplitJoin(["a", "b"]);
    SplitJoin(["b", "a"]);
    assert Join(["a", "b"]) == "a b" && Join(["b", "a"]) == "b a";
    assert lines[..1] == ["a b"] && lines[..1][..0] == [];
  }

  /** A fresh vocabulary built from those lines numbers `a`, `b`, `<eos>` as 0, 1, 2. */
  lemma TwoLineVocabulary()
    ensures AddAll([], AllWords(["a b", "b a"])) == ["a", "b", Eos]
  {
    TwoLineWords();
    var ws := ["a", "b", Eos, "b", "a", Eos];
    assert ws[..5] == ["a", "b", Eos, "b", "a"] && ws[..4] == ["a", "b", Eos, "b"];
    assert ws[..3] == ["a", "b", Eos] && ws[..2] == ["a", "b"] && ws[..1] == ["a"] && ws[..0] == [];
    assert AddAll([], ws[..1]) == ["a"];
    assert AddAll([], ws[..2]) == ["a", "b"];
    assert Eos !in ["a", "b"] && ws[..3][..2] == ws[..2];
    assert AddAll([], ws[..3]) == ["a", "b", Eos];
    AddAllKnown(["a", "b", Eos], ws[3..]);
    AddAllAppend([], ws[..3], ws[3..]);
    assert ws[..3] + ws[3..] == ws;
  }

  /** ... and encodes them as `[0, 1, 2, 1, 0, 2]`. */
  lemma TwoLineIds()
    ensures var word2idx := map["a" := 0, "b" := 1, Eos := 2];
            Known(word2idx, ["a b", "b a"]) && Encode(word2idx, ["a b", "b a"]) == [0, 1, 2, 1, 0, 2]
  {
    TwoLineWords();
    var word2idx := map["a" := 0, "b" := 1, Eos := 2];
    assert Known(word2idx, ["a b", "b a"]);
    EncodeIsLookup(word2idx, ["a b", "b a"]);
  }

  class Corpus {
    var dictionary: Dictionary
    var train: seq<int>
    var valid: seq<int>
    var test: seq<int>

    /** `Corpus(path)`: tokenizes train, then valid, then test with one dictionary. */
    constructor (trainLines: seq<string>, validLines: seq<string>, testLines: seq<string>)
      requires |trainLines| >= 1 && |validLines| >= 1 && |testLines| >= 1
      ensures fresh(dictionary) && dictionary.Valid()
      ensures dictionary.idx2word == AddAll([], AllWords(trainLines) + AllWords(validLines) + AllWords(testLines))
      ensures Known(dictionary.word2idx, trainLines) && train == Encode(dictionary.word2idx, trainLines)
      ensures Known(dictionary.word2idx, validLines) && valid == Encode(dictionary.word2idx, validLines)
      ensures Known(dictionary.word2idx, testLines) && test == Encode(dictionary.word2idx, testLines)
    {
      dictionary := new Dictionary();
      train, valid, test := [], [], [];
      new;
      var d := dictionary;
      train := Tokenize(trainLines);
      ghost var afterTrain := d.word2idx;
      valid := Tokenize(validLines);
      ghost var afterValid := d.word2idx;
      test := Tokenize(testLines);
      EncodeStable(afterValid, d.word2idx, validLines);
      EncodeStable(afterTrain, afterValid, trainLines);
      EncodeStable(afterValid, d.word2idx, trainLines);
      AddAllAppend([], AllWords(trainLines), AllWords(validLines));
      AddAllAppend([], AllWords(trainLines) + AllWords(validLines), AllWords(testLines));
    }

    /** `tokenize`: pass 1 adds every word (and a marker per line) to the
        dictionary; pass 2 looks every word up and concatenates the lines' ids. */
    method Tokenize(lines: seq<string>) returns (ids: seq<int>)
      requires |lines| >= 1
      requires dictionary.Valid()
      modifies dictionary
      ensures dictionary.Valid()
      ensures dictionary.idx2word == AddAll(old(dictionary.idx2word), AllWords(lines))
      ensures forall w :: w in old(dictionary.word2idx) ==>
                w in dictionary.word2idx && dictionary.word2idx[w] == old(dictionary.word2idx)[w]
      ensures Known(dictionary.word2idx, lines) && ids == Encode(dictionary.word2idx, lines)
      ensures forall k :: 0 <= k < |ids| ==> 0 <= ids[k] < |dictionary.idx2word|
      ensures |ids| == TokenCount(lines)
    {
      AddLines(lines);
      PassOneCoversPassTwo(dictionary.word2idx, dictionary.idx2word, old(dictionary.idx2word), lines);
      ids := EncodeLines(lines);
      DecodeEncode(dictionary.word2idx, dictionary.idx2word, lines);
      EncodeLength(dictionary.word2idx, lines);
    }

    /** Pass 1 of `tokenize`: `add_word` on every word of every line, marker included. */
    method AddLines(lines: seq<string>)
      requires dictionary.Valid()
      modifies dictionary
      ensures dictionary.Valid()
      ensures dictionary.idx2word == AddAll(old(dictionary.idx2word), AllWords(lines))
      ensures forall w :: w in old(dictionary.word2idx) ==>
                w in dictionary.word2idx && dictionary.word2idx[w] == old(dictionary.word2idx)[w]
    {
      ghost var before := dictionary.idx2word;
      var i := 0;
      while i < |lines|
        invariant 0 <= i <= |lines|
        invariant dictionary.Valid()
        invariant dictionary.idx2word == AddAll(before, AllWords(lines[..i]))
        invariant forall w :: w in old(dictionary.word2idx) ==>
                    w in dictionary.word2idx && dictionary.word2idx[w] == old(dictionary.word2idx)[w]
      {
        var words := Split(lines[i]) + [Eos];
        AllWordsNext(lines, i);
        AddAllAppend(before, AllWords(lines[..i]), words);
        AddWords(words);
        i := i + 1;
      }
      assert lines[..i] == lines;
    }

    /** The inner loop of pass 1: `add_word` on each word of one line. */
    method AddWords(words: seq<string>)
      requires dictionary.Valid()
      modifies dictionary
      ensures dictionary.Valid()
      ensures dictionary.idx2word == AddAll(old(dictionary.idx2word), words)
      ensures forall w :: w in old(dictionary.word2idx) ==>
                w in dictionary.word2idx && dictionary.word2idx[w] == old(dictionary.word2idx)[w]
    {
      var d := dictionary;
      ghost var before := d.idx2word;
      var j := 0;
      while j < |words|
        invariant 0 <= j <= |words|
        invariant d.Valid()
        invariant d.idx2word == AddAll(before, words[..j])
        invariant forall w :: w in old(d.word2idx) ==> w in d.word2idx && d.word2idx[w] == old(d.word2idx)[w]
      {
        var _ := d.AddWord(words[j]);
        assert words[..j + 1] == words[..j] + [words[j]];
        AddAllSnoc(before, words[..j], words[j]);
        j := j + 1;
      }
      assert words[..j] == words;
    }

    /** Pass 2 of `tokenize`: every word's id, line by line, then one
        concatenation (`torch.cat`, which needs at least one line). */
    method EncodeLines(lines: seq<string>) returns (ids: seq<int>)
      requires |lines| >= 1
      requires Known(dictionary.word2idx, lines)
      ensures ids == Encode(dictionary.word2idx, lines)
    {
      var word2idx := dictionary.word2idx;
      var idss: seq<seq<int>> := [];
      var i := 0;
      while i < |lines|
        invariant 0 <= i <= |lines|
        invariant Known(word2idx, lines[..i])
        invariant Concat(idss) == Encode(word2idx, lines[..i])
      {
        KnownPrefix(word2idx, lines, i + 1);
        KnownLine(word2idx, lines, i);
        var words := Split(lines[i]) + [Eos];
        var lineIds: seq<int> := [];
        var j := 0;
        while j < |words|
          invariant 0 <= j <= |words|
          invariant lineIds == Lookup(word2idx, words[..j])
        {
          lineIds := lineIds + [word2idx[words[j]]];
          j := j + 1;
        }
        assert words[..j] == words;
        ConcatSnoc(idss, lineIds);
        assert lines[..i + 1][..i] == lines[..i];
        idss := idss + [lineIds];
        i := i + 1;
      }
      assert lines[..i] == lines;
      ids := Concat(idss);
    }
  }
}
