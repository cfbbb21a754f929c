/** Sequence helpers shared by the tokenizer and the batching code:
    concatenating a list of id blocks, as `torch.cat` and `view(-1)` do. */
module Seqs {

  /** Concatenation of all blocks in order (defined from the back, so that
      appending one block is one unfolding). */
  function Concat<T>(blocks: seq<seq<T>>): (r: seq<T>)
    ensures |blocks| == 0 ==> r == []
  {
    if |blocks| == 0 then [] else Concat(blocks[..|blocks| - 1]) + blocks[|blocks| - 1]
  }

  /** Appending a block to the list appends its elements to the concatenation. */
  lemma ConcatSnoc<T>(blocks: seq<seq<T>>, b: seq<T>)
    ensures Concat(blocks + [b]) == Concat(blocks) + b
  {
    assert (blocks + [b])[..|blocks|] == blocks;
  }

  /** Putting a block in front of the list puts its elements in front of the
      concatenation. */
  lemma {:induction false} ConcatCons<T>(b: seq<T>, blocks: seq<seq<T>>)
    ensures Concat([b] + blocks) == b + Concat(blocks)
  {
    if |blocks| == 0 {
      assert Concat([b]) == Concat([b][..0]) + b;
    } else {
      var n := |blocks| - 1;
      ConcatCons(b, blocks[..n]);
      assert ([b] + blocks)[..n + 1] == [b] + blocks[..n];
    }
  }

  /** Row-major position of entry `(row, col)` in a matrix `width` wide. Kept as a
      function so that quantified statements about positions stay free of
      multiplication between variables. */
  function FlatIndex(row: nat, col: nat, width: nat): nat
  {
    row * width + col
  }

  /** All blocks of width `w`. */
  ghost predicate Rectangular<T>(rows: seq<seq<T>>, w: nat)
  {
    forall r :: 0 <= r < |rows| ==> |rows[r]| == w
  }

  /** `k * w + b` with `b < w` stays inside the first `n * w` positions when `k < n`. */
  lemma {:induction false} MulBound(k: nat, n: nat, w: nat, b: nat)
    requires k < n && b < w
    ensures k * w + b < n * w
  {
    MulSucc(n - 1, w);
    if k < n - 1 {
      MulBound(k, n - 1, w, b);
    } else {
      MulSucc(k, w);
    }
  }

  lemma MulSucc(k: nat, w: nat)
    ensures (k + 1) * w == k * w + w
  {
  }

  lemma {:induction false} ConcatRectangularLength<T>(rows: seq<seq<T>>, w: nat)
    requires Rectangular(rows, w)
    ensures |Concat(rows)| == |rows| * w
  {
    if |rows| > 0 {
      var n := |rows| - 1;
      ConcatRectangularLength(rows[..n], w);
      assert |rows| * w == n * w + w;
    }
  }

  /** Row-major flattening of a rectangular block list: element `b` of row `k`
      sits at position `k * w + b`. */
  lemma {:induction false} ConcatRectangular<T>(rows: seq<seq<T>>, w: nat, k: nat, b: nat)
    requires Rectangular(rows, w)
    requires k < |rows| && b < w
    ensures |Concat(rows)| == |rows| * w
    ensures k * w + b < |rows| * w && Concat(rows)[k * w + b] == rows[k][b]
  {
    ConcatRectangularLength(rows, w);
    MulBound(k, |rows|, w, b);
    var n := |rows| - 1;
    var front := rows[..n];
    ConcatRectangularLength(front, w);
    assert Concat(rows) == Concat(front) + rows[n];
    if k < n {
      ConcatRectangular(front, w, k, b);
    } else {
      assert k * w + b == |Concat(front)| + b;
    }
  }

  /** `(b + 1) * n <= k * n` when `b < k`: the `b`-th slice of width `n` ends inside the first `k`. */
  lemma {:induction false} SliceEnd(b: nat, k: nat, n: nat)
    requires b < k
    ensures b * n <= (b + 1) * n <= k * n
    decreases k - b
  {
    MulSucc(b, n);
    if b + 1 < k {
      SliceEnd(b + 1, k, n);
      MulSucc(b + 1, n);
    }
  }

  /** The first `k` consecutive slices of width `n` of `s`. */
  function Chunks<T>(s: seq<T>, n: nat, k: nat): (r: seq<seq<T>>)
    requires k * n <= |s|
    ensures |r| == k && Rectangular(r, n)
  {
    var r := seq(k, b requires 0 <= b < k => SliceEnd(b, k, n); s[b * n..(b + 1) * n]);
    assert Rectangular(r, n) by {
      forall b | 0 <= b < k ensures |r[b]| == n {
        SliceEnd(b, k, n);
        MulSucc(b, n);
      }
    }
    r
  }

  /** Consecutive equal-length slices of `s`, glued back together, give the
      prefix of `s` they cover. */
  lemma {:induction false} ConcatChunks<T>(s: seq<T>, n: nat, k: nat)
    requires k * n <= |s|
    ensures Concat(Chunks(s, n, k)) == s[..k * n]
  {
    if k > 0 {
      MulSucc(k - 1, n);
      var blocks := Chunks(s, n, k);
      assert blocks[..k - 1] == Chunks(s, n, k - 1);
      ConcatChunks(s, n, k - 1);
      assert blocks[k - 1] == s[(k - 1) * n..k * n];
      assert s[..k * n] == s[..(k - 1) * n] + s[(k - 1) * n..k * n];
    }
  }

  /** Element `t` of chunk `b` is element `b * n + t` of `s`. */
  lemma ChunkAt<T>(s: seq<T>, n: nat, k: nat, b: nat, t: nat)
    requires k * n <= |s| && b < k && t < n
    ensures b * n + t < k * n && Chunks(s, n, k)[b][t] == s[b * n + t]
  {
    MulBound(b, k, n, t);
    SliceEnd(b, k, n);
  }
}
