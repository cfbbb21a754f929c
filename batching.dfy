/** `batchify`: cuts a flat id sequence into `bsz` equal contiguous streams
    and lays them side by side, one stream per column, so that row `t` holds
    time step `t` of every stream. */
module Batching {
  import opened Seqs

  /** Swapping rows and columns of a matrix with `cols` columns (`.t()`). */
  function Transpose<T>(m: seq<seq<T>>, cols: nat): (r: seq<seq<T>>)
    requires Rectangular(m, cols)
    ensures |r| == cols && Rectangular(r, |m|)
  {
    seq(cols, c requires 0 <= c < cols => seq(|m|, i requires 0 <= i < |m| => m[i][c]))
  }

  /** Transposing twice gives the matrix back. */
  lemma TransposeTwice<T>(m: seq<seq<T>>, cols: nat)
    requires Rectangular(m, cols)
    ensures Transpose(Transpose(m, cols), |m|) == m
  {
    var r := Transpose(Transpose(m, cols), |m|);
    forall i | 0 <= i < |m| ensures r[i] == m[i] {
      assert |r[i]| == cols == |m[i]|;
    }
  }

  /** `(n / d) * d` is at most `n`, and what it leaves over is `n % d`. */
  lemma DivMulBound(n: nat, d: nat)
    requires d >= 1
    ensures (n / d) * d <= n && n - (n / d) * d == n % d
    ensures d <= n ==> n / d >= 1
  {
  }

  /** `data.narrow(0, 0, nbatch * bsz).view(bsz, -1)` with `nbatch = len(data) // bsz`:
      `bsz` contiguous streams of `nbatch` ids each. */
  function Streams(data: seq<int>, bsz: nat): (s: seq<seq<int>>)
    requires 1 <= bsz <= |data|
    ensures |s| == bsz && |data| / bsz >= 1 && Rectangular(s, |data| / bsz)
  {
    DivMulBound(|data|, bsz);
    Chunks(data[..(|data| / bsz) * bsz], |data| / bsz, bsz)
  }

  /** Stream `b` starts at `b * nbatch` in the data. */
  lemma StreamsAt(data: seq<int>, bsz: nat, b: nat, t: nat)
    requires 1 <= bsz <= |data| && b < bsz && t < |data| / bsz
    ensures b * (|data| / bsz) + t < |data| && Streams(data, bsz)[b][t] == data[b * (|data| / bsz) + t]
  {
    DivMulBound(|data|, bsz);
    var nbatch := |data| / bsz;
    ChunkAt(data[..nbatch * bsz], nbatch, bsz, b, t);
  }

  /** `batchify(data, bsz)`, reading the source's misspelt `daat` as `data`:
      the streams transposed, so that row `t` holds step `t` of every stream. */
  function Batchify(data: seq<int>, bsz: nat): (m: seq<seq<int>>)
    requires 1 <= bsz <= |data|
    ensures |m| == |data| / bsz && |m| >= 1 && Rectangular(m, bsz)
    ensures forall t, b :: 0 <= t < |m| && 0 <= b < bsz ==>
              FlatIndex(b, t, |m|) < |data| && m[t][b] == data[FlatIndex(b, t, |m|)]
  {
    var m := Transpose(Streams(data, bsz), |data| / bsz);
    assert forall t, b :: 0 <= t < |m| && 0 <= b < bsz ==>
              FlatIndex(b, t, |m|) < |data| && m[t][b] == data[FlatIndex(b, t, |m|)] by {
      forall t, b | 0 <= t < |m| && 0 <= b < bsz
        ensures FlatIndex(b, t, |m|) < |data| && m[t][b] == data[FlatIndex(b, t, |m|)]
      {
        StreamsAt(data, bsz, b, t);
      }
    }
    m
  }

  /** Reading a batchified matrix column by column: stream 0, then stream 1, ... */
  function Unbatchify(m: seq<seq<int>>, bsz: nat): (data: seq<int>)
    requires Rectangular(m, bsz)
    ensures |data| == |m| * bsz
  {
    ConcatRectangularLength(Transpose(m, bsz), |m|);
    assert |Transpose(m, bsz)| * |m| == |m| * bsz;
    Concat(Transpose(m, bsz))
  }

  /** Round trip: reading the columns back reproduces the data up to the last
      whole multiple of `bsz`; the `len(data) % bsz` trailing elements are the
      only ones dropped. */
  lemma BatchifyRoundTrip(data: seq<int>, bsz: nat)
    requires 1 <= bsz <= |data|
    ensures Unbatchify(Batchify(data, bsz), bsz) + data[(|data| / bsz) * bsz..] == data
    ensures |data[(|data| / bsz) * bsz..]| == |data| % bsz
    ensures |data| % bsz == 0 ==> Unbatchify(Batchify(data, bsz), bsz) == data
  {
    DivMulBound(|data|, bsz);
    var nbatch := |data| / bsz;
    var kept := data[..nbatch * bsz];
    var streams := Streams(data, bsz);
    TransposeTwice(streams, nbatch);
    ConcatChunks(kept, nbatch, bsz);
    assert kept[..bsz * nbatch] == kept;
    assert kept + data[nbatch * bsz..] == data;
  }

  /** `batchify([0, 1, 2, 3, 4, 5, 6], 2)`: streams `[0, 1, 2]` and `[3, 4, 5]`,
      rows `[0, 3]`, `[1, 4]`, `[2, 5]`; the `6` is dropped. */
  lemma SevenIntoTwo()
    ensures Batchify([0, 1, 2, 3, 4, 5, 6], 2) == [[0, 3], [1, 4], [2, 5]]
  {
    var data := [0, 1, 2, 3, 4, 5, 6];
    var m := Batchify(data, 2);
    assert |m| == 3;
    assert m[0][0] == data[FlatIndex(0, 0, 3)] == 0 && m[0][1] == data[FlatIndex(1, 0, 3)] == 3;
    assert m[1][0] == data[FlatIndex(0, 1, 3)] == 1 && m[1][1] == data[FlatIndex(1, 1, 3)] == 4;
    assert m[2][0] == data[FlatIndex(0, 2, 3)] == 2 && m[2][1] == data[FlatIndex(1, 2, 3)] == 5;
    assert m[0] == [0, 3] && m[1] == [1, 4] && m[2] == [2, 5];
  }
}
