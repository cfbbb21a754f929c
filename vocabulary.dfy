/** The growing two-way vocabulary `Dictionary`: `word2idx` maps each word to
    its id, `idx2word` lists the words by id, and ids are handed out densely
    in order of first appearance. */
module Vocabulary {

  /** The two fields describe the same one-to-one numbering: every listed word
      is a key mapped back to its position, and every key maps to the position
      holding it. */
  ghost predicate Bijective(word2idx: map<string, int>, idx2word: seq<string>)
  {
    (forall i :: 0 <= i < |idx2word| ==> idx2word[i] in word2idx && word2idx[idx2word[i]] == i)
    && (forall w :: w in word2idx ==> 0 <= word2idx[w] < |idx2word| && idx2word[word2idx[w]] == w)
  }

  /** No word is listed twice. */
  ghost predicate Distinct(s: seq<string>)
  {
    forall i, j :: 0 <= i < j < |s| ==> s[i] != s[j]
  }

  /** `add_word` on the word list alone: a new word is appended, a known one
      changes nothing. */
  function AddOne(idx2word: seq<string>, w: string): (r: seq<string>)
    ensures idx2word <= r && w in r && |r| <= |idx2word| + 1
  {
    if w in idx2word then idx2word else idx2word + [w]
  }

  /** `add_word` applied to each word of `ws` in order (defined from the back,
      matching a loop that handles one more word per step). */
  function AddAll(idx2word: seq<string>, ws: seq<string>): (r: seq<string>)
    ensures |idx2word| <= |r| <= |idx2word| + |ws|
  {
    if |ws| == 0 then idx2word else AddOne(AddAll(idx2word, ws[..|ws| - 1]), ws[|ws| - 1])
  }

  /** One more word costs one more `add_word`. */
  lemma AddAllSnoc(idx2word: seq<string>, ws: seq<string>, w: string)
    ensures AddAll(idx2word, ws + [w]) == AddOne(AddAll(idx2word, ws), w)
  {
    assert (ws + [w])[..|ws|] == ws;
  }

  /** Under the invariant, being a key and being listed are the same thing. */
  lemma KeysAreListed(word2idx: map<string, int>, idx2word: seq<string>, w: string)
    requires Bijective(word2idx, idx2word)
    ensures w in word2idx <==> w in idx2word
  {
    if w in idx2word {
      var i :| 0 <= i < |idx2word| && idx2word[i] == w;
      assert w in word2idx;
    }
  }

  /** The invariant rules out listing a word twice. */
  lemma BijectiveDistinct(word2idx: map<string, int>, idx2word: seq<string>)
    requires Bijective(word2idx, idx2word)
    ensures Distinct(idx2word)
  {
  }

  /** The word list determines the map: two maps that agree with the same
      list are equal. */
  lemma {:induction false} MapDeterminedByList(m1: map<string, int>, m2: map<string, int>, idx2word: seq<string>)
    requires Bijective(m1, idx2word) && Bijective(m2, idx2word)
    ensures m1 == m2
  {
    forall w | w in m1 ensures w in m2 && m2[w] == m1[w] {
      KeysAreListed(m1, idx2word, w);
      KeysAreListed(m2, idx2word, w);
    }
    forall w | w in m2 ensures w in m1 {
      KeysAreListed(m1, idx2word, w);
      KeysAreListed(m2, idx2word, w);
    }
  }

  /** `len(dictionary)`, the length of `idx2word`, is the number of distinct words. */
  lemma {:induction false} SizeIsKeyCount(word2idx: map<string, int>, idx2word: seq<string>)
    requires Bijective(word2idx, idx2word)
    ensures |word2idx| == |idx2word|
  {
    if |idx2word| == 0 {
      assert word2idx.Keys == {};
    } else {
      var n := |idx2word| - 1;
      var last := idx2word[n];
      var m := map w | w in word2idx && w != last :: word2idx[w];
      forall i | 0 <= i < n ensures idx2word[..n][i] in m && m[idx2word[..n][i]] == i {
        assert word2idx[idx2word[i]] == i;
      }
      assert Bijective(m, idx2word[..n]);
      SizeIsKeyCount(m, idx2word[..n]);
      assert word2idx.Keys == m.Keys + {last};
    }
  }

  /** Growing keeps the invariant and the old numbering. */
  lemma AddOneKeeps(word2idx: map<string, int>, idx2word: seq<string>, w: string)
    requires Bijective(word2idx, idx2word) && w !in idx2word
    ensures Bijective(word2idx[w := |idx2word|], idx2word + [w])
  {
    KeysAreListed(word2idx, idx2word, w);
  }

  /** Earlier ids never move: the list before the words is a prefix of the list after. */
  lemma {:induction false} AddAllExtends(idx2word: seq<string>, ws: seq<string>)
    ensures idx2word <= AddAll(idx2word, ws)
  {
    if |ws| > 0 {
      AddAllExtends(idx2word, ws[..|ws| - 1]);
    }
  }

  /** After adding, every added word is listed, and nothing else is new. */
  lemma {:induction false} AddAllContents(idx2word: seq<string>, ws: seq<string>)
    ensures forall w :: w in AddAll(idx2word, ws) <==> w in idx2word || w in ws
  {
    if |ws| > 0 {
      var front := ws[..|ws| - 1];
      AddAllContents(idx2word, front);
      assert ws == front + [ws[|ws| - 1]];
    }
  }

  /** Adding keeps the list free of duplicates. */
  lemma {:induction false} AddAllDistinct(idx2word: seq<string>, ws: seq<string>)
    requires Distinct(idx2word)
    ensures Distinct(AddAll(idx2word, ws))
  {
    if |ws| > 0 {
      AddAllDistinct(idx2word, ws[..|ws| - 1]);
    }
  }

  /** Adding words that are all known already changes nothing. */
  lemma {:induction false} AddAllKnown(idx2word: seq<string>, ws: seq<string>)
    requires forall k :: 0 <= k < |ws| ==> ws[k] in idx2word
    ensures AddAll(idx2word, ws) == idx2word
  {
    if |ws| > 0 {
      AddAllKnown(idx2word, ws[..|ws| - 1]);
    }
  }

  /** Idempotence of vocabulary building: adding the same words a second time
      changes nothing. */
  lemma AddAllTwice(idx2word: seq<string>, ws: seq<string>)
    ensures AddAll(AddAll(idx2word, ws), ws) == AddAll(idx2word, ws)
  {
    AddAllContents(idx2word, ws);
    AddAllKnown(AddAll(idx2word, ws), ws);
  }

  /** Adding a sequence in two parts is the same as adding it at once. */
  lemma {:induction false} AddAllAppend(idx2word: seq<string>, a: seq<string>, b: seq<string>)
    ensures AddAll(idx2word, a + b) == AddAll(AddAll(idx2word, a), b)
    decreases |b|
  {
    if |b| == 0 {
      assert a + b == a;
    } else {
      assert (a + b)[..|a + b| - 1] == a + b[..|b| - 1];
      AddAllAppend(idx2word, a, b[..|b| - 1]);
    }
  }

  /** The mutable vocabulary, with the fields the source updates in place. */
  class Dictionary {
    var word2idx: map<string, int>
    var idx2word: seq<string>

    ghost predicate Valid()
      reads this
    {
      Bijective(word2idx, idx2word)
    }

    /** An empty vocabulary. */
    constructor ()
      ensures Valid() && word2idx == map[] && idx2word == []
    {
      word2idx := map[];
      idx2word := [];
    }

    /** `add_word`: returns the id of `word`, giving it the next id first if it is new. */
    method AddWord(word: string) returns (id: int)
      requires Valid()
      modifies this
      ensures Valid()
      ensures idx2word == AddOne(old(idx2word), word)
      ensures word in word2idx && id == word2idx[word] && 0 <= id < |idx2word| && idx2word[id] == word
      ensures word in old(word2idx) ==> id == old(word2idx)[word] && word2idx == old(word2idx)
      ensures word !in old(word2idx) ==>
                id == |old(idx2word)| && word2idx == old(word2idx)[word := id] && |idx2word| == |old(idx2word)| + 1
    {
      KeysAreListed(word2idx, idx2word, word);
      if word !in word2idx {
        AddOneKeeps(word2idx, idx2word, word);
        idx2word := idx2word + [word];
        word2idx := word2idx[word := |idx2word| - 1];
      }
      id := word2idx[word];
    }

    /** `__len__`: the number of distinct words seen. */
    function Len(): (n: nat)
      reads this
      requires Valid()
      ensures n == |word2idx|
    {
      SizeIsKeyCount(word2idx, idx2word);
      |idx2word|
    }
  }

  /** Calling `add_word` twice with the same word returns the same id and
      leaves the dictionary as a single call would. */
  method AddWordTwice(d: Dictionary, word: string) returns (first: int, second: int)
    requires d.Valid()
    modifies d
    ensures d.Valid()
    ensures first == second
    ensures d.idx2word == AddOne(old(d.idx2word), word)
    ensures d.word2idx == if word in old(d.word2idx) then old(d.word2idx) else old(d.word2idx)[word := |old(d.idx2word)|]
  {
    first := d.AddWord(word);
    second := d.AddWord(word);
  }
}
