/** `get_batch` and the window loop of `evaluate`: a batchified matrix is cut
    into windows of at most `bptt` rows, each paired with the same rows one
    step later, flattened, as the prediction target. */
module Windows {
  import opened Seqs

  /** `bptt`: the longest window, in rows. */
  const Bptt: nat := 25

  /** The `(data, targets)` pair `get_batch` returns. */
  datatype Batch = Batch(data: seq<seq<int>>, target: seq<int>)

  function Min(a: int, b: int): int
  {
    if a <= b then a else b
  }

  /** Number of columns of a matrix (that of its first row). */
  function Width(source: seq<seq<int>>): nat
  {
    if |source| == 0 then 0 else |source[0]|
  }

  /** Every row has the same number of columns, as in a tensor. */
  ghost predicate IsMatrix(source: seq<seq<int>>)
  {
    Rectangular(source, Width(source))
  }

  /** `seq_len = min(bptt, len(source) - 1 - i)`. */
  function SeqLen(rows: nat, i: nat, bptt: nat): (len: int)
    ensures len <= bptt && len <= rows - 1 - i
    ensures len == bptt || len == rows - 1 - i
  {
    Min(bptt, rows - 1 - i)
  }

  /** `get_batch(source, i)`: rows `[i, i + seq_len)` as data, rows
      `[i + 1, i + 1 + seq_len)` flattened row by row as target. */
  function GetBatch(source: seq<seq<int>>, i: nat): (w: Batch)
    requires IsMatrix(source) && i < |source| - 1
    ensures var len := SeqLen(|source|, i, Bptt);
            1 <= len <= Bptt && i + 1 + len <= |source|
            && |w.data| == len && (forall k :: 0 <= k < len ==> w.data[k] == source[i + k])
            && |w.target| == len * Width(source)
            && (forall k, b :: 0 <= k < len && 0 <= b < Width(source) ==>
                  FlatIndex(k, b, Width(source)) < |w.target|
                  && w.target[FlatIndex(k, b, Width(source))] == source[i + 1 + k][b])
  {
    var len := SeqLen(|source|, i, Bptt);
    var next := source[i + 1..i + 1 + len];
    assert Rectangular(next, Width(source));
    ConcatRectangularLength(next, Width(source));
    var w := Batch(source[i..i + len], Concat(next));
    assert forall k, b :: 0 <= k < len && 0 <= b < Width(source) ==>
             FlatIndex(k, b, Width(source)) < |w.target|
             && w.target[FlatIndex(k, b, Width(source))] == source[i + 1 + k][b] by {
      forall k, b | 0 <= k < len && 0 <= b < Width(source)
        ensures FlatIndex(k, b, Width(source)) < |w.target|
                && w.target[FlatIndex(k, b, Width(source))] == source[i + 1 + k][b]
      {
        ConcatRectangular(next, Width(source), k, b);
      }
    }
    w
  }

  /** The target is the data moved one row ahead: its row `k` is data row
      `k + 1`, and its last row is the row just after the window. */
  lemma TargetIsShiftedData(source: seq<seq<int>>, i: nat)
    requires IsMatrix(source) && i < |source| - 1
    ensures var w := GetBatch(source, i);
            var len := |w.data|;
            forall k, b :: 0 <= k < len && 0 <= b < Width(source) ==>
              FlatIndex(k, b, Width(source)) < |w.target|
              && w.target[FlatIndex(k, b, Width(source))]
                 == (if k + 1 < len then w.data[k + 1][b] else source[i + len][b])
  {
  }

  /** A window starting on the second-to-last row holds that one row, whatever `bptt`. */
  lemma LastWindowIsOneRow(source: seq<seq<int>>)
    requires IsMatrix(source) && |source| >= 2
    ensures |GetBatch(source, |source| - 2).data| == 1
  {
  }

  /** `range(start, stop, step)`: the window starts the `evaluate` loop visits. */
  function Starts(start: int, stop: int, step: nat): (r: seq<int>)
    requires step >= 1
    ensures forall k :: 0 <= k < |r| ==> start <= r[k] < stop
    decreases stop - start
  {
    if start >= stop then [] else [start] + Starts(start + step, stop, step)
  }

  /** The `k`-th start is `start + k * step`: `0, bptt, 2 * bptt, ...` from 0. */
  lemma {:induction false} StartsAt(start: int, stop: int, step: nat, k: nat)
    requires step >= 1 && k < |Starts(start, stop, step)|
    ensures Starts(start, stop, step)[k] == start + k * step
    decreases stop - start
  {
    if k > 0 {
      StartsAt(start + step, stop, step, k - 1);
      assert (k - 1) * step + step == k * step;
    }
  }

  /** Row `r` falls inside window `k` of a loop over rows `[.., stop)`. */
  ghost predicate InWindow(starts: seq<int>, k: int, r: int, stop: int, step: nat)
  {
    0 <= k < |starts| && starts[k] <= r < starts[k] + Min(step, stop - starts[k])
  }

  /** Every row from `start` up to `stop` lies in some window. */
  lemma {:induction false} StartsCover(start: int, stop: int, step: nat, r: int)
    requires step >= 1 && start <= r < stop
    ensures exists k :: InWindow(Starts(start, stop, step), k, r, stop, step)
    decreases stop - start
  {
    var s := Starts(start, stop, step);
    if r < start + step {
      assert InWindow(s, 0, r, stop, step);
    } else {
      StartsCover(start + step, stop, step, r);
      var k :| InWindow(Starts(start + step, stop, step), k, r, stop, step);
      assert InWindow(s, k + 1, r, stop, step);
    }
  }

  /** No row lies in two windows. */
  lemma {:induction false} StartsDisjoint(start: int, stop: int, step: nat, r: int, k1: int, k2: int)
    requires step >= 1
    requires InWindow(Starts(start, stop, step), k1, r, stop, step)
    requires InWindow(Starts(start, stop, step), k2, r, stop, step)
    ensures k1 == k2
    decreases stop - start
  {
    var s := Starts(start, stop, step);
    var tail := Starts(start + step, stop, step);
    assert s == [start] + tail;
    if k1 > 0 && k2 > 0 {
      assert InWindow(tail, k1 - 1, r, stop, step);
      StartsDisjoint(start + step, stop, step, r, k1 - 1, k2 - 1);
    }
  }

  /** Total number of rows the windows hold, as `evaluate` weighs them. */
  function Covered(starts: seq<int>, stop: int, step: nat): int
  {
    if |starts| == 0 then 0 else Min(step, stop - starts[0]) + Covered(starts[1..], stop, step)
  }

  /** The windows hold `stop - start` rows in all: each row once. */
  lemma {:induction false} StartsTotal(start: int, stop: int, step: nat)
    requires step >= 1 && start <= stop
    ensures Covered(Starts(start, stop, step), stop, step) == stop - start
    decreases stop - start
  {
    if start < stop {
      if start + step <= stop {
        StartsTotal(start + step, stop, step);
      } else {
        assert Starts(start + step, stop, step) == [];
      }
    }
  }

  /** The window loop of `evaluate(model, data_source)`: one `get_batch` per
      start in `range(0, len(data_source) - 1, bptt)`, and the sum of the
      windows' `len(data)` that weighs their losses. The model call and the
      loss are not modelled. */
  method EvaluateWindows(source: seq<seq<int>>) returns (batches: seq<Batch>, weight: int)
    requires IsMatrix(source)
    ensures var starts := Starts(0, |source| - 1, Bptt);
            |batches| == |starts|
            && forall k :: 0 <= k < |starts| ==> starts[k] < |source| - 1 && batches[k] == GetBatch(source, starts[k])
    ensures weight == if |source| == 0 then 0 else |source| - 1
  {
    ghost var all := Starts(0, |source| - 1, Bptt);
    ghost var done: seq<int> := [];
    batches, weight := [], 0;
    var i := 0;
    while i < |source| - 1
      invariant 0 <= i
      invariant all == done + Starts(i, |source| - 1, Bptt)
      invariant |batches| == |done|
      invariant forall k :: 0 <= k < |done| ==> 0 <= done[k] < |source| - 1 && batches[k] == GetBatch(source, done[k])
      invariant weight == Min(i, if |source| == 0 then 0 else |source| - 1)
      decreases |source| - 1 - i
    {
      var w := GetBatch(source, i);
      batches := batches + [w];
      weight := weight + |w.data|;
      done := done + [i];
      i := i + Bptt;
    }
  }

  /** Row `r` is in batch `k` of the `evaluate` loop: it lies among that
      batch's data rows, at position `r - start`. */
  ghost predicate InBatch(source: seq<seq<int>>, k: int, r: int)
  {
    IsMatrix(source)
    && var s := Starts(0, |source| - 1, Bptt);
       0 <= k < |s| && s[k] <= r < s[k] + |GetBatch(source, s[k]).data|
       && GetBatch(source, s[k]).data[r - s[k]] == source[r]
  }

  /** The row-counting windows are exactly the batches `get_batch` returns. */
  lemma WindowIsBatch(source: seq<seq<int>>, k: int, r: int)
    requires IsMatrix(source)
    ensures InWindow(Starts(0, |source| - 1, Bptt), k, r, |source| - 1, Bptt) <==> InBatch(source, k, r)
  {
  }

  /** Every row but the last is a data row of exactly one batch of the loop. */
  lemma RowInOneBatch(source: seq<seq<int>>, r: int)
    requires IsMatrix(source) && 0 <= r < |source| - 1
    ensures exists k :: InBatch(source, k, r)
    ensures forall k1, k2 :: InBatch(source, k1, r) && InBatch(source, k2, r) ==> k1 == k2
  {
    var s := Starts(0, |source| - 1, Bptt);
    StartsCover(0, |source| - 1, Bptt, r);
    var k :| InWindow(s, k, r, |source| - 1, Bptt);
    WindowIsBatch(source, k, r);
    forall k1, k2 | InBatch(source, k1, r) && InBatch(source, k2, r) ensures k1 == k2 {
      WindowIsBatch(source, k1, r);
      WindowIsBatch(source, k2, r);
      StartsDisjoint(0, |source| - 1, Bptt, r, k1, k2);
    }
  }

  /** Five rows, start 3: `min(25, 5 - 1 - 3) = 1`, a one-row window. */
  lemma FiveRowsFromThree(source: seq<seq<int>>)
    requires IsMatrix(source) && |source| == 5
    ensures |GetBatch(source, 3).data| == 1
  {
  }
}
