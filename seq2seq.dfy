/** The bookkeeping of the bidirectional-RNN sequence-to-sequence model:
    reserved-symbol registration, batch padding, batch iteration, the first
    validation batch of training, the teacher-forcing shift of the decoder
    input and the encoding of an inference input. The computation graph and
    the session that runs it are not part of this model. */
module Seq2SeqBirnn {
  import opened Wrappers
  import opened Vocabulary
  import opened Padding
  import opened Batching

  /** What is fed to the encoder at inference: the id rows and their lengths. */
  datatype Feed = Feed(rows: Rows, lens: seq<nat>)

  /** A decoder input row under teacher forcing: `<GO>` followed by the target
      row without its last id. Slicing off the last element of an empty row
      leaves it empty, so an empty row becomes `[go]`. */
  function DecoderInputRow(go: int, row: seq<int>): (r: seq<int>)
    ensures |r| == if row == [] then 1 else |row|
    ensures r[0] == go
    ensures forall t :: 1 <= t < |r| ==> r[t] == row[t - 1]
  {
    [go] + (if row == [] then [] else row[..|row| - 1])
  }

  /** Teacher forcing lines the decoder input up with the target one step
      late: the input followed by the last target id is `<GO>` followed by
      the whole target row. */
  lemma DecoderInputShift(go: int, row: seq<int>)
    requires row != []
    ensures DecoderInputRow(go, row) + [row[|row| - 1]] == [go] + row
  {
    assert row[..|row| - 1] + [row[|row| - 1]] == row;
  }

  /** Objects are obtained from Create, which registers the reserved ids as
      the Python constructor does; the bare constructor is its first step.
      The members below that read a reserved id therefore see the id that
      Registered() ties to the vocabulary. */
  class Seq2Seq {
    const xWord2Idx: Vocab
    const yWord2Idx: Vocab
    const batchSize: nat

    var xGo: int
    var xEos: int
    var xPad: int
    var xUnk: int
    var yGo: int
    var yEos: int
    var yPad: int
    var yUnk: int

    /** Each of the eight reserved ids holds its vocabulary's id for its token. */
    ghost predicate Registered()
      reads this
    {
      HasReserved(xWord2Idx) && HasReserved(yWord2Idx) &&
      xGo == xWord2Idx[GO] && xEos == xWord2Idx[EOS] &&
      xPad == xWord2Idx[PAD] && xUnk == xWord2Idx[UNK] &&
      yGo == yWord2Idx[GO] && yEos == yWord2Idx[EOS] &&
      yPad == yWord2Idx[PAD] && yUnk == yWord2Idx[UNK]
    }

    /** Stores the vocabularies and the batch size; the reserved ids are set
        by RegisterSymbols. */
    constructor (xWord2Idx: Vocab, yWord2Idx: Vocab, batchSize: nat)
      ensures this.xWord2Idx == xWord2Idx && this.yWord2Idx == yWord2Idx
      ensures this.batchSize == batchSize
    {
      this.xWord2Idx := xWord2Idx;
      this.yWord2Idx := yWord2Idx;
      this.batchSize := batchSize;
    }

    /** Construction as a whole: it fails with the first reserved token that
        either vocabulary lacks, and otherwise yields a registered object. */
    static method Create(xWord2Idx: Vocab, yWord2Idx: Vocab, batchSize: nat)
      returns (r: Result<Seq2Seq, MissingSymbol>)
      ensures r.Failure? <==> !(HasReserved(xWord2Idx) && HasReserved(yWord2Idx))
      ensures r.Failure? ==> FirstMissing(xWord2Idx, yWord2Idx) == Some(r.error)
      ensures r.Success? ==> fresh(r.value) && r.value.Registered()
      ensures r.Success? ==> r.value.xWord2Idx == xWord2Idx && r.value.yWord2Idx == yWord2Idx
      ensures r.Success? ==> r.value.batchSize == batchSize
    {
      var model := new Seq2Seq(xWord2Idx, yWord2Idx, batchSize);
      var err := model.RegisterSymbols();
      if err.Some? {
        return Failure(err.value);
      }
      return Success(model);
    }

    /** Looks the four reserved tokens up in the source vocabulary, then in
        the target vocabulary, storing each id as it is found; the first
        absent key stops the registration. */
    method RegisterSymbols() returns (err: Option<MissingSymbol>)
      modifies this
      ensures err == FirstMissing(xWord2Idx, yWord2Idx)
      ensures err.None? ==> Registered()
    {
      FirstAbsentReserved(xWord2Idx);
      FirstAbsentReserved(yWord2Idx);
      if GO !in xWord2Idx { return Some(MissingSymbol(Source, GO)); }
      xGo := xWord2Idx[GO];
      if EOS !in xWord2Idx { return Some(MissingSymbol(Source, EOS)); }
      xEos := xWord2Idx[EOS];
      if PAD !in xWord2Idx { return Some(MissingSymbol(Source, PAD)); }
      xPad := xWord2Idx[PAD];
      if UNK !in xWord2Idx { return Some(MissingSymbol(Source, UNK)); }
      xUnk := xWord2Idx[UNK];

      if GO !in yWord2Idx { return Some(MissingSymbol(Target, GO)); }
      yGo := yWord2Idx[GO];
      if EOS !in yWord2Idx { return Some(MissingSymbol(Target, EOS)); }
      yEos := yWord2Idx[EOS];
      if PAD !in yWord2Idx { return Some(MissingSymbol(Target, PAD)); }
      yPad := yWord2Idx[PAD];
      if UNK !in yWord2Idx { return Some(MissingSymbol(Target, UNK)); }
      yUnk := yWord2Idx[UNK];
      return None;
    }

    /** Pads every sentence on the right with `padInt` up to the length of
        the longest one, and records every sentence's own length. */
    static method PadSentenceBatch(sentenceBatch: Rows, padInt: int)
      returns (paddedSeqs: Rows, seqLens: seq<nat>)
      requires |sentenceBatch| > 0
      ensures paddedSeqs == PadAll(sentenceBatch, padInt) && seqLens == Lengths(sentenceBatch)
      ensures |paddedSeqs| == |sentenceBatch| && |seqLens| == |sentenceBatch|
    {
      paddedSeqs, seqLens := [], [];
      var maxSentenceLen := MaxLength(sentenceBatch);
      for i := 0 to |sentenceBatch|
        invariant |paddedSeqs| == i && |seqLens| == i
        invariant forall k :: 0 <= k < i ==>
          paddedSeqs[k] == PadRow(sentenceBatch[k], maxSentenceLen, padInt) &&
          seqLens[k] == |sentenceBatch[k]|
      {
        var sentence := sentenceBatch[i];
        paddedSeqs := paddedSeqs + [sentence + Repeat(padInt, maxSentenceLen - |sentence|)];
        seqLens := seqLens + [|sentence|];
      }
    }

    /** All the batches one pass over the parallel datasets yields: the
        consecutive full chunks of `batchSize` examples of each side, padded
        with that side's pad id (the registered `<PAD>` id when none is given). */
    method NextBatch(X: Rows, Y: Rows, xPadInt: Option<int>, yPadInt: Option<int>)
      returns (batches: seq<Batch>)
      requires batchSize > 0 && |X| == |Y|
      ensures batches == AllBatches(X, Y, batchSize, xPadInt.GetOr(xPad), yPadInt.GetOr(yPad))
      ensures |batches| == |X| / batchSize
      ensures forall k :: 0 <= k < |batches| ==>
        |batches[k].xs| == batchSize == |batches[k].ys| &&
        |batches[k].xLens| == batchSize == |batches[k].yLens|
    {
      var xp := xPadInt.GetOr(xPad);
      var yp := yPadInt.GetOr(yPad);
      ghost var all := AllBatches(X, Y, batchSize, xp, yp);
      var end := |X| - |X| % batchSize;
      batches := [];
      var i := 0;
      while i < end
        invariant 0 <= |batches| <= |X| / batchSize
        invariant i == |batches| * batchSize
        invariant batches == all[..|batches|]
      {
        CursorInRange(|X|, batchSize, |batches|, i);
        var xBatch := X[i..i + batchSize];
        var yBatch := Y[i..i + batchSize];
        var paddedXBatch, xBatchLens := PadSentenceBatch(xBatch, xp);
        var paddedYBatch, yBatchLens := PadSentenceBatch(yBatch, yp);
        NextBatchStep(X, Y, batchSize, xp, yp, |batches|, i, batches,
                      paddedXBatch, paddedYBatch, xBatchLens, yBatchLens);
        batches := batches + [Batch(paddedXBatch, paddedYBatch, xBatchLens, yBatchLens)];
        i := i + batchSize;
      }
      PastLastChunk(X, batchSize, |batches|, i);
      BatchSizes(X, Y, batchSize, xp, yp);
    }

    /** The validation batch training reports its loss on: the first batch
        of the validation data, with the registered pad ids. It does not
        exist when the data hold fewer than `batchSize` examples. */
    method FitValidationBatch(xTest: Rows, yTest: Rows) returns (first: Option<Batch>)
      requires batchSize > 0 && |xTest| == |yTest|
      ensures first.Some? <==> |xTest| >= batchSize
      ensures first.Some? ==>
        first.value == MakeBatch(xTest[..batchSize], yTest[..batchSize], xPad, yPad)
      ensures first.Some? && Registered() ==>
        first.value == MakeBatch(xTest[..batchSize], yTest[..batchSize], xWord2Idx[PAD], yWord2Idx[PAD])
    {
      var batches := NextBatch(xTest, yTest, None, None);
      if |xTest| < batchSize {
        DivSmall(|xTest|, batchSize);
      } else {
        DivModStep(|xTest|, batchSize);
      }
      if |batches| == 0 {
        first := None;
      } else {
        first := Some(batches[0]);
      }
    }

    /** The decoder input of a target batch under teacher forcing: every row
        shifted right by one, with the registered `<GO>` id in front. */
    function ProcessedDecoderInput(Y: Rows): (r: Rows)
      reads this
      ensures |r| == |Y|
      ensures forall k :: 0 <= k < |Y| ==>
        |r[k]| == (if Y[k] == [] then 1 else |Y[k]|) && r[k][0] == yGo
      ensures forall k, t :: 0 <= k < |Y| && 1 <= t < |r[k]| ==> r[k][t] == Y[k][t - 1]
    {
      var go := yGo;
      seq(|Y|, k requires 0 <= k < |Y| => DecoderInputRow(go, Y[k]))
    }

    /** The encoder feed for one input: the tokens mapped through the source
        vocabulary with `<UNK>` for a token it lacks, repeated `batchSize`
        times, with the input's length as every row's length. */
    function InferInput(inputWord: seq<string>): (feed: Feed)
      reads this
      ensures |feed.rows| == batchSize && |feed.lens| == batchSize
      ensures forall r :: 0 <= r < batchSize ==>
        |feed.rows[r]| == |inputWord| && feed.lens[r] == |inputWord|
      ensures forall r, j :: 0 <= r < batchSize && 0 <= j < |inputWord| ==>
        feed.rows[r][j] == if inputWord[j] in xWord2Idx then xWord2Idx[inputWord[j]] else xUnk
    {
      var inputIndices := Tokenize(xWord2Idx, xUnk, inputWord);
      Feed(Repeat(inputIndices, batchSize), Repeat(|inputIndices|, batchSize))
    }

    /** Reading the fed ids back through an inverse of the source vocabulary
        gives the input with every unknown token turned into `<UNK>`. */
    lemma InferInputRoundTrip(inv: InverseVocab, inputWord: seq<string>)
      requires Registered() && InvertsTokens(xWord2Idx, inv)
      ensures forall r :: 0 <= r < batchSize ==>
        Detokenize(inv, InferInput(inputWord).rows[r]) == Some(Canonical(xWord2Idx, inputWord))
    {
      TokenRoundTrip(xWord2Idx, inv, inputWord);
      assert forall r :: 0 <= r < batchSize ==>
        InferInput(inputWord).rows[r] == Tokenize(xWord2Idx, xWord2Idx[UNK], inputWord);
    }
  }
}
