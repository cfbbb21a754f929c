/** Python's `str.split()` with no separator, as `Corpus.tokenize` uses it on
    every line: runs of whitespace separate tokens, leading and trailing
    whitespace is ignored, and no token is empty. */
module Text {
  import opened Seqs

  /** The characters Python's `str.isspace()` accepts, which are the ones
      `str.split()` splits on. */
  predicate IsSpace(c: char): (b: bool)
    ensures c == ' ' || c == '\t' || c == '\n' || c == '\r' ==> b
    ensures ('a' <= c <= 'z') || ('A' <= c <= 'Z') || ('0' <= c <= '9') || c == '<' || c == '>' ==> !b
  {
    c == ' ' || ('\t' <= c <= '\r')                      // tab, LF, VT, FF, CR
    || ('\U{1C}' <= c <= '\U{1F}') || c == '\U{85}' || c == '\U{A0}'
    || c == '\U{1680}' || ('\U{2000}' <= c <= '\U{200A}')
    || c == '\U{2028}' || c == '\U{2029}' || c == '\U{202F}' || c == '\U{205F}'
    || c == '\U{3000}'
  }

  /** A token `str.split()` can produce: non-empty, without whitespace. */
  predicate IsToken(t: string)
  {
    |t| > 0 && forall k :: 0 <= k < |t| ==> !IsSpace(t[k])
  }

  /** The longest whitespace-free prefix of `s`. */
  function Word(s: string): (w: string)
    ensures w <= s
    ensures forall k :: 0 <= k < |w| ==> !IsSpace(w[k])
    ensures |w| < |s| ==> IsSpace(s[|w|])
  {
    if s == [] || IsSpace(s[0]) then [] else [s[0]] + Word(s[1..])
  }

  /** `line.split()`. */
  function Split(s: string): (ts: seq<string>)
    ensures forall k :: 0 <= k < |ts| ==> IsToken(ts[k])
    decreases |s|
  {
    if s == [] then []
    else if IsSpace(s[0]) then Split(s[1..])
    else
      var w := Word(s);
      [w] + Split(s[|w|..])
  }

  /** Tokens joined with one space each: the simplest text that splits into them. */
  function Join(ts: seq<string>): string
  {
    if |ts| == 0 then [] else if |ts| == 1 then ts[0] else ts[0] + " " + Join(ts[1..])
  }

  /** Every character of the line except the whitespace, in order. */
  function NonSpace(s: string): string
  {
    if s == [] then [] else (if IsSpace(s[0]) then [] else [s[0]]) + NonSpace(s[1..])
  }

  /** A line splits into no tokens exactly when it is empty or all whitespace. */
  lemma {:induction false} SplitEmptyIffBlank(s: string)
    ensures Split(s) == [] <==> forall k :: 0 <= k < |s| ==> IsSpace(s[k])
    decreases |s|
  {
    if s != [] {
      SplitEmptyIffBlank(s[1..]);
      if IsSpace(s[0]) {
        assert forall k :: 1 <= k < |s| ==> s[k] == s[1..][k - 1];
      }
    }
  }

  /** A token followed by nothing or by whitespace is read back whole. */
  lemma {:induction false} WordOfToken(t: string, rest: string)
    requires IsToken(t)
    requires rest == [] || IsSpace(rest[0])
    ensures Word(t + rest) == t
    decreases |t|
  {
    var s := t + rest;
    assert s[0] == t[0];
    if |t| > 1 {
      assert s[1..] == t[1..] + rest;
      WordOfToken(t[1..], rest);
    } else {
      assert s[1..] == rest;
    }
  }

  /** Splitting a token followed by nothing or by whitespace yields that token
      first, then the split of the rest. */
  lemma SplitTokenThen(t: string, rest: string)
    requires IsToken(t)
    requires rest == [] || IsSpace(rest[0])
    ensures Split(t + rest) == [t] + Split(rest)
  {
    WordOfToken(t, rest);
    assert (t + rest)[|t|..] == rest;
  }

  /** Leading whitespace, however much, is skipped. */
  lemma {:induction false} SplitSkipsSpace(ws: string, s: string)
    requires forall k :: 0 <= k < |ws| ==> IsSpace(ws[k])
    ensures Split(ws + s) == Split(s)
  {
    if ws != [] {
      assert (ws + s)[0] == ws[0] && (ws + s)[1..] == ws[1..] + s;
      SplitSkipsSpace(ws[1..], s);
    } else {
      assert ws + s == s;
    }
  }

  /** A run of whitespace after a token is one separator: the token comes
      out once and splitting goes on after the run. */
  lemma SplitRun(t: string, ws: string, s: string)
    requires IsToken(t)
    requires |ws| > 0 && forall k :: 0 <= k < |ws| ==> IsSpace(ws[k])
    ensures Split(t + ws + s) == [t] + Split(s)
  {
    assert t + ws + s == t + (ws + s);
    assert (ws + s)[0] == ws[0];
    SplitTokenThen(t, ws + s);
    SplitSkipsSpace(ws, s);
  }

  /** Round trip: splitting the space-joined tokens gives the tokens back. */
  lemma {:induction false} SplitJoin(ts: seq<string>)
    requires forall k :: 0 <= k < |ts| ==> IsToken(ts[k])
    ensures Split(Join(ts)) == ts
  {
    if |ts| == 1 {
      SplitTokenThen(ts[0], []);
      assert ts[0] + [] == ts[0];
    } else if |ts| > 1 {
      var rest := " " + Join(ts[1..]);
      assert Join(ts) == ts[0] + rest;
      SplitTokenThen(ts[0], rest);
      assert rest[1..] == Join(ts[1..]);
      SplitJoin(ts[1..]);
    }
  }

  lemma NonSpaceAppend(a: string, b: string)
    ensures NonSpace(a + b) == NonSpace(a) + NonSpace(b)
  {
    if a != [] {
      assert (a + b)[0] == a[0] && (a + b)[1..] == a[1..] + b;
      NonSpaceAppend(a[1..], b);
    } else {
      assert a + b == b;
    }
  }

  lemma NonSpaceOfToken(w: string)
    requires forall k :: 0 <= k < |w| ==> !IsSpace(w[k])
    ensures NonSpace(w) == w
  {
  }

  /** Splitting loses only whitespace: the tokens, glued together, are the
      line's non-whitespace characters in order. */
  lemma {:induction false} SplitKeepsNonSpace(s: string)
    ensures Concat(Split(s)) == NonSpace(s)
    decreases |s|
  {
    if s != [] {
      if IsSpace(s[0]) {
        SplitKeepsNonSpace(s[1..]);
      } else {
        var w := Word(s);
        assert s == w + s[|w|..];
        SplitKeepsNonSpace(s[|w|..]);
        ConcatCons(w, Split(s[|w|..]));
        NonSpaceAppend(w, s[|w|..]);
        NonSpaceOfToken(w);
      }
    }
  }
}
