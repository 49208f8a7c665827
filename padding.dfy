/** Right-padding a batch of id sequences to the width of its longest member. */
module Padding {

  /** A batch of id sequences, one per sentence. */
  type Rows = seq<seq<int>>

  /** The length of the longest sentence: Python's `max` over the lengths,
      which has no value for an empty batch. */
  function MaxLength(batch: Rows): (r: nat)
    requires |batch| > 0
    ensures forall k :: 0 <= k < |batch| ==> |batch[k]| <= r
    ensures exists k :: 0 <= k < |batch| && |batch[k]| == r
  {
    if |batch| == 1 then |batch[0]|
    else
      var m := MaxLength(batch[1..]);
      assert forall k :: 1 <= k < |batch| ==> batch[k] == batch[1..][k - 1];
      if |batch[0]| >= m then |batch[0]| else m
  }

  /** `[x] * n`. */
  function Repeat<T>(x: T, n: nat): seq<T> {
    seq(n, _ => x)
  }

  /** One sentence padded on the right to `width`. */
  function PadRow(s: seq<int>, width: nat, pad: int): (r: seq<int>)
    requires |s| <= width
    ensures |r| == width
    ensures r[..|s|] == s
    ensures forall j :: |s| <= j < width ==> r[j] == pad
  {
    s + Repeat(pad, width - |s|)
  }

  /** The padded batch: every sentence padded to the batch's maximum length. */
  function PadAll(batch: Rows, pad: int): Rows
    requires |batch| > 0
  {
    seq(|batch|, k requires 0 <= k < |batch| => PadRow(batch[k], MaxLength(batch), pad))
  }

  /** The true length of every sentence. */
  function Lengths(batch: Rows): seq<nat> {
    seq(|batch|, k requires 0 <= k < |batch| => |batch[k]|)
  }

  /** Cuts every row back to its recorded length. */
  function Unpad(rows: Rows, lens: seq<nat>): Rows
    requires |rows| == |lens|
    requires forall k :: 0 <= k < |rows| ==> lens[k] <= |rows[k]|
  {
    if rows == [] then []
    else [rows[0][..lens[0]]] + Unpad(rows[1..], lens[1..])
  }

  /** `padded` and `lens` hold, for every sentence of `batch` in order, the
      sentence right-padded with `pad` to the batch's maximum length and the
      sentence's own length. */
  ghost predicate IsPadding(padded: Rows, lens: seq<nat>, batch: Rows, pad: int)
    requires |batch| > 0
  {
    |padded| == |batch| && |lens| == |batch| &&
    (forall k :: 0 <= k < |batch| ==>
      lens[k] == |batch[k]| && |padded[k]| == MaxLength(batch) && padded[k][..|batch[k]|] == batch[k]) &&
    (forall k, j :: 0 <= k < |batch| && |batch[k]| <= j < |padded[k]| ==> padded[k][j] == pad)
  }

  /** PadAll and Lengths are a padding of the batch. */
  lemma PadAllIsPadding(batch: Rows, pad: int)
    requires |batch| > 0
    ensures IsPadding(PadAll(batch, pad), Lengths(batch), batch, pad)
  {
    forall k | 0 <= k < |batch| {
      PaddedShape(batch, pad, k);
    }
  }

  /** A batch has exactly one padding: the one PadAll and Lengths compute. */
  lemma PaddingUnique(padded: Rows, lens: seq<nat>, batch: Rows, pad: int)
    requires |batch| > 0 && IsPadding(padded, lens, batch, pad)
    ensures padded == PadAll(batch, pad) && lens == Lengths(batch)
  {
    var w := MaxLength(batch);
    forall k | 0 <= k < |batch| ensures padded[k] == PadAll(batch, pad)[k] {
      var p := PadAll(batch, pad)[k];
      PaddedShape(batch, pad, k);
      forall j | 0 <= j < w ensures padded[k][j] == p[j] {
        if j < |batch[k]| {
          assert padded[k][j] == padded[k][..|batch[k]|][j];
          assert p[j] == p[..|batch[k]|][j];
        }
      }
    }
  }

  /** Every padded row is exactly as wide as the longest sentence, starts
      with its sentence unchanged and continues with pad ids only; no true
      length exceeds that width. */
  lemma PaddedShape(batch: Rows, pad: int, k: int)
    requires |batch| > 0 && 0 <= k < |batch|
    ensures |PadAll(batch, pad)| == |batch| && |Lengths(batch)| == |batch|
    ensures Lengths(batch)[k] == |batch[k]| <= MaxLength(batch)
    ensures |PadAll(batch, pad)[k]| == MaxLength(batch)
    ensures PadAll(batch, pad)[k][..|batch[k]|] == batch[k]
    ensures forall j :: |batch[k]| <= j < MaxLength(batch) ==> PadAll(batch, pad)[k][j] == pad
  {
  }

  /** Cutting each padded row back to its recorded length gives the batch back. */
  lemma {:induction false} UnpadPadAt(rows: Rows, lens: seq<nat>, batch: Rows)
    requires |rows| == |lens| == |batch|
    requires forall k :: 0 <= k < |rows| ==> lens[k] == |batch[k]| <= |rows[k]|
    requires forall k :: 0 <= k < |rows| ==> rows[k][..|batch[k]|] == batch[k]
    ensures Unpad(rows, lens) == batch
  {
    if rows != [] {
      UnpadPadAt(rows[1..], lens[1..], batch[1..]);
    }
  }

  lemma UnpadPadded(batch: Rows, pad: int)
    requires |batch| > 0
    ensures Unpad(PadAll(batch, pad), Lengths(batch)) == batch
  {
    var rows := PadAll(batch, pad);
    forall k | 0 <= k < |batch|
      ensures Lengths(batch)[k] == |batch[k]| <= |rows[k]| && rows[k][..|batch[k]|] == batch[k]
    {
      PaddedShape(batch, pad, k);
    }
    UnpadPadAt(rows, Lengths(batch), batch);
  }

  /** Padding an already padded batch changes nothing. */
  lemma PadIdempotent(batch: Rows, pad: int)
    requires |batch| > 0
    ensures PadAll(PadAll(batch, pad), pad) == PadAll(batch, pad)
  {
    var rows := PadAll(batch, pad);
    var w := MaxLength(batch);
    assert |rows[0]| == w;
    assert MaxLength(rows) == w;
    forall k | 0 <= k < |rows| ensures PadAll(rows, pad)[k] == rows[k] {
      assert |rows[k]| == w;
      assert PadRow(rows[k], w, pad) == rows[k];
    }
  }

  /** Sentences of lengths 3, 5 and 2 are padded to width 5: the first gets
      two pad ids, the second none and the third three. */
  lemma PadThreeFiveTwo(batch: Rows, pad: int)
    requires |batch| == 3 && |batch[0]| == 3 && |batch[1]| == 5 && |batch[2]| == 2
    ensures MaxLength(batch) == 5
    ensures PadAll(batch, pad) == [batch[0] + [pad, pad], batch[1], batch[2] + [pad, pad, pad]]
  {
    assert |batch[1]| == 5;
    assert MaxLength(batch) == 5;
    var r := PadAll(batch, pad);
    assert Repeat(pad, 2) == [pad, pad] && Repeat(pad, 0) == [] && Repeat(pad, 3) == [pad, pad, pad];
    assert r[0] == PadRow(batch[0], 5, pad) == batch[0] + [pad, pad];
    assert r[1] == PadRow(batch[1], 5, pad) == batch[1];
    assert r[2] == PadRow(batch[2], 5, pad) == batch[2] + [pad, pad, pad];
  }
}
