/** Cutting parallel datasets into consecutive fixed-size batches. */
module Batching {
  import opened Padding

  /** One yielded batch: the padded source rows, the padded target rows and
      the true lengths of each side. */
  datatype Batch = Batch(xs: Rows, ys: Rows, xLens: seq<nat>, yLens: seq<nat>)

  /** The consecutive full chunks of `n` elements of `s`; a shorter tail is dropped. */
  function Chunks<T>(s: seq<T>, n: nat): (r: seq<seq<T>>)
    requires n > 0
    ensures |r| == |s| / n
    ensures forall k :: 0 <= k < |r| ==> |r[k]| == n
    decreases |s|
  {
    if |s| < n then
      DivSmall(|s|, n);
      []
    else
      DivModStep(|s|, n);
      [s[..n]] + Chunks(s[n..], n)
  }

  /** Chunk k is the k-th run of `n` consecutive elements. */
  lemma {:induction false} ChunkAt<T>(s: seq<T>, n: nat, k: nat)
    requires n > 0 && k < |s| / n
    ensures (k + 1) * n <= |s|
    ensures Chunks(s, n)[k] == s[k * n..(k + 1) * n]
    decreases k
  {
    if |s| < n {
      DivSmall(|s|, n);
    } else {
      DivModStep(|s|, n);
      if k > 0 {
        ChunkAt(s[n..], n, k - 1);
        ChunkShiftAt(s, n, k);
      }
    }
  }

  /** Chunk k - 1 of `s[n..]` is chunk k of `s`. */
  lemma ChunkShiftAt<T>(s: seq<T>, n: nat, k: nat)
    requires 0 < n <= |s| && 1 <= k && (k - 1 + 1) * n <= |s| - n
    ensures (k + 1) * n <= |s|
    ensures s[n..][(k - 1) * n..(k - 1 + 1) * n] == s[k * n..(k + 1) * n]
  {
    MulStep(k - 1, n);
    MulStep(k, n);
    var a, b := (k - 1) * n, k * n;
    assert s[n..][a..b] == s[n + a..n + b];
  }

  lemma MulLess(a: int, b: int, n: int)
    requires n > 0
    ensures a < b <==> a * n < b * n
  {
    if a < b {
      MulDiff(b, a, n);
    } else if b < a {
      MulDiff(a, b, n);
    }
  }

  lemma MulStep(j: int, n: int)
    ensures j * n + n == (j + 1) * n
  {
  }

  /** Division is determined by quotient and remainder. */
  lemma DivModUnique(a: int, n: int, q: int, r: int)
    requires n > 0 && 0 <= r < n && a == q * n + r
    ensures a / n == q && a % n == r
  {
    var q', r' := a / n, a % n;
    assert a == q' * n + r';
    if q != q' {
      var lo, hi := if q < q' then q else q', if q < q' then q' else q;
      MulDiff(hi, lo, n);
      assert false;
    }
  }

  /** Two quotients that differ by at least one give products at least `n` apart. */
  lemma MulDiff(hi: int, lo: int, n: int)
    requires hi > lo && n > 0
    ensures hi * n - lo * n >= n
  {
    MulDistributes(hi, lo, n);
    MulAtLeast(hi - lo, n);
  }

  lemma MulDistributes(hi: int, lo: int, n: int)
    ensures hi * n - lo * n == (hi - lo) * n
  {
  }

  lemma MulAtLeast(d: int, n: int)
    requires d >= 1 && n > 0
    ensures d * n >= n
  {
  }

  lemma DivSmall(a: nat, n: nat)
    requires 0 <= a < n
    ensures a / n == 0 && a % n == a
  {
    DivModUnique(a, n, 0, a);
  }

  lemma DivModStep(a: nat, n: nat)
    requires 0 < n <= a
    ensures (a - n) / n == a / n - 1 && (a - n) % n == a % n
  {
    var q, r := (a - n) / n, (a - n) % n;
    assert a - n == q * n + r;
    assert a == (q + 1) * n + r;
    DivModUnique(a, n, q + 1, r);
  }

  /** The elements of all the pieces, in order. */
  function Concat<T>(pieces: seq<seq<T>>): seq<T> {
    if pieces == [] then [] else pieces[0] + Concat(pieces[1..])
  }

  /** Laid end to end, the chunks are `s` without its last `|s| % n` elements. */
  lemma {:induction false} ConcatChunks<T>(s: seq<T>, n: nat)
    requires n > 0
    ensures Concat(Chunks(s, n)) == s[..|s| - |s| % n]
    decreases |s|
  {
    if |s| < n {
      DivSmall(|s|, n);
    } else {
      ConcatChunks(s[n..], n);
      DivModStep(|s|, n);
      assert Chunks(s, n)[1..] == Chunks(s[n..], n);
      assert s[..n] + s[n..][..|s| - n - |s| % n] == s[..|s| - |s| % n];
    }
  }

  /** The batch built from one source chunk and one target chunk. */
  function MakeBatch(xChunk: Rows, yChunk: Rows, xPad: int, yPad: int): Batch
    requires |xChunk| > 0 && |yChunk| > 0
  {
    Batch(PadAll(xChunk, xPad), PadAll(yChunk, yPad), Lengths(xChunk), Lengths(yChunk))
  }

  /** Every batch that one pass over (X, Y) yields, in order. */
  function AllBatches(X: Rows, Y: Rows, size: nat, xPad: int, yPad: int): seq<Batch>
    requires size > 0 && |X| == |Y|
  {
    var cx, cy := Chunks(X, size), Chunks(Y, size);
    seq(|cx|, k requires 0 <= k < |cx| => MakeBatch(cx[k], cy[k], xPad, yPad))
  }

  /** A pass yields `|X| / size` batches; batch k is the padded k-th chunk of
      each side, `size` rows each, and its lengths are that chunk's lengths. */
  lemma BatchAt(X: Rows, Y: Rows, size: nat, xPad: int, yPad: int, k: int)
    requires size > 0 && |X| == |Y|
    ensures |AllBatches(X, Y, size, xPad, yPad)| == |X| / size
    ensures 0 <= k < |X| / size ==>
      (k + 1) * size <= |X| &&
      AllBatches(X, Y, size, xPad, yPad)[k] ==
        MakeBatch(X[k * size..(k + 1) * size], Y[k * size..(k + 1) * size], xPad, yPad)
  {
    if 0 <= k < |X| / size {
      ChunkAt(X, size, k);
      ChunkAt(Y, size, k);
    }
  }

  /** Every batch of a pass holds `size` rows and `size` lengths on each side. */
  lemma BatchSizes(X: Rows, Y: Rows, size: nat, xPad: int, yPad: int)
    requires size > 0 && |X| == |Y|
    ensures forall k :: 0 <= k < |AllBatches(X, Y, size, xPad, yPad)| ==>
      |AllBatches(X, Y, size, xPad, yPad)[k].xs| == size == |AllBatches(X, Y, size, xPad, yPad)[k].ys| &&
      |AllBatches(X, Y, size, xPad, yPad)[k].xLens| == size == |AllBatches(X, Y, size, xPad, yPad)[k].yLens|
  {
  }

  /** A cursor `i = m * size` still below the end of the full chunks is at
      chunk m, and the batch built from the next `size` examples is batch m. */
  lemma NextChunk(X: Rows, Y: Rows, size: nat, xPad: int, yPad: int, m: nat, i: nat)
    requires size > 0 && |X| == |Y|
    requires i == m * size && i < |X| - |X| % size
    ensures m < |X| / size && i + size <= |X| && i + size == (m + 1) * size
    ensures AllBatches(X, Y, size, xPad, yPad)[m] == MakeBatch(X[i..i + size], Y[i..i + size], xPad, yPad)
  {
    CursorInRange(|X|, size, m, i);
    BatchAt(X, Y, size, xPad, yPad, m);
    var lo, hi := m * size, (m + 1) * size;
    assert lo == i && hi == i + size;
    assert AllBatches(X, Y, size, xPad, yPad)[m] == MakeBatch(X[lo..hi], Y[lo..hi], xPad, yPad);
  }

  /** A cursor `i = m * size` below the end of the full chunks of a sequence
      of length `len` leaves room for one more chunk. */
  lemma CursorInRange(len: nat, size: nat, m: nat, i: nat)
    requires size > 0 && i == m * size && i < len - len % size
    ensures m < len / size && i + size <= len && i + size == (m + 1) * size
  {
    var q := len / size;
    assert len - len % size == q * size;
    MulLess(m, q, size);
    MulStep(m, size);
    MulLess(m + 1, q + 1, size);
    MulStep(q, size);
  }

  /** The batch padded from the `size` examples at cursor `i = m * size`
      is batch m, and appending it extends the first m batches to m + 1. */
  lemma NextBatchStep(X: Rows, Y: Rows, size: nat, xPad: int, yPad: int, m: nat, i: nat, done: seq<Batch>,
                      xs: Rows, ys: Rows, xLens: seq<nat>, yLens: seq<nat>)
    requires size > 0 && |X| == |Y|
    requires i == m * size && i < |X| - |X| % size
    requires i + size <= |X|
    requires done == AllBatches(X, Y, size, xPad, yPad)[..m]
    requires xs == PadAll(X[i..i + size], xPad) && xLens == Lengths(X[i..i + size])
    requires ys == PadAll(Y[i..i + size], yPad) && yLens == Lengths(Y[i..i + size])
    ensures m < |X| / size && i + size == (m + 1) * size
    ensures done + [Batch(xs, ys, xLens, yLens)] == AllBatches(X, Y, size, xPad, yPad)[..m + 1]
  {
    var all := AllBatches(X, Y, size, xPad, yPad);
    NextChunk(X, Y, size, xPad, yPad, m, i);
    assert Batch(xs, ys, xLens, yLens) == all[m];
    assert all[..m + 1] == all[..m] + [all[m]];
  }

  /** A cursor `i = m * size` that has reached the end of the full chunks
      has passed all `|X| / size` of them. */
  lemma PastLastChunk(X: Rows, size: nat, m: nat, i: nat)
    requires size > 0 && m <= |X| / size
    requires i == m * size && i >= |X| - |X| % size
    ensures m == |X| / size
  {
    var q := |X| / size;
    assert |X| - |X| % size == q * size;
    MulLess(m, q, size);
  }

  /** Cutting the source rows of every batch back to their lengths and laying
      them end to end gives X without its last `|X| % size` examples, and
      likewise for Y: nothing is reordered or altered, only the remainder is lost. */
  lemma BatchesRecoverData(X: Rows, Y: Rows, size: nat, xPad: int, yPad: int)
    requires size > 0 && |X| == |Y|
    ensures var b := AllBatches(X, Y, size, xPad, yPad);
      (forall k :: 0 <= k < |b| ==>
        |b[k].xs| == |b[k].xLens| && |b[k].ys| == |b[k].yLens| &&
        (forall i :: 0 <= i < |b[k].xs| ==> b[k].xLens[i] <= |b[k].xs[i]|) &&
        (forall i :: 0 <= i < |b[k].ys| ==> b[k].yLens[i] <= |b[k].ys[i]|)) &&
      Concat(seq(|b|, k requires 0 <= k < |b| => Unpad(b[k].xs, b[k].xLens))) == X[..|X| - |X| % size] &&
      Concat(seq(|b|, k requires 0 <= k < |b| => Unpad(b[k].ys, b[k].yLens))) == Y[..|Y| - |Y| % size]
  {
    var b := AllBatches(X, Y, size, xPad, yPad);
    var cx, cy := Chunks(X, size), Chunks(Y, size);
    forall k | 0 <= k < |b|
      ensures |b[k].xs| == |b[k].xLens| && |b[k].ys| == |b[k].yLens|
      ensures forall i :: 0 <= i < |b[k].xs| ==> b[k].xLens[i] <= |b[k].xs[i]|
      ensures forall i :: 0 <= i < |b[k].ys| ==> b[k].yLens[i] <= |b[k].ys[i]|
      ensures Unpad(b[k].xs, b[k].xLens) == cx[k] && Unpad(b[k].ys, b[k].yLens) == cy[k]
    {
      forall i | 0 <= i < |cx[k]| ensures b[k].xLens[i] <= |b[k].xs[i]| {
        PaddedShape(cx[k], xPad, i);
      }
      forall i | 0 <= i < |cy[k]| ensures b[k].yLens[i] <= |b[k].ys[i]| {
        PaddedShape(cy[k], yPad, i);
      }
      UnpadPadded(cx[k], xPad);
      UnpadPadded(cy[k], yPad);
    }
    assert seq(|b|, k requires 0 <= k < |b| => Unpad(b[k].xs, b[k].xLens)) == cx;
    assert seq(|b|, k requires 0 <= k < |b| => Unpad(b[k].ys, b[k].yLens)) == cy;
    ConcatChunks(X, size);
    ConcatChunks(Y, size);
  }

  /** 105 examples in batches of 10: ten batches, the last five examples dropped. */
  lemma HundredAndFiveInTens(X: Rows, Y: Rows, xPad: int, yPad: int)
    requires |X| == |Y| == 105
    ensures |AllBatches(X, Y, 10, xPad, yPad)| == 10
    ensures Concat(Chunks(X, 10)) == X[..100]
  {
    ConcatChunks(X, 10);
  }
}
