# Sequence bookkeeping of a bidirectional-RNN seq2seq model

This project models the hand-written part of the `Seq2Seq` class in
`nlp-models/tensorflow/seq2seq_birnn.py`. That class trains and runs a
sequence-to-sequence network with a bidirectional LSTM encoder. The model
covers what the class itself computes:

- **Reserved-symbol registration.** The `<GO>`, `<EOS>`, `<PAD>` and `<UNK>`
  ids are looked up in the source and target token-to-id maps. The first
  missing key aborts construction.
- **Batch padding.** A batch of id sequences is right-padded to its longest
  member. The true lengths are returned beside it.
- **Batch iteration.** The parallel datasets are cut into consecutive full
  batches; the remainder is dropped. Each side is padded with its own pad id,
  which defaults to the registered `<PAD>` id.
- **Training's validation batch.** Training reports its loss on the first
  batch of the validation data only.
- **The decoder input under teacher forcing.** `<GO>` is followed by the target
  row without its last id.
- **The encoder feed at inference.** The input tokens are mapped through the
  source vocabulary with `<UNK>` as the fallback, and the row is repeated
  `batch_size` times.

Files:

- `wrappers.dfy`: `Option` and `Result`.
- `vocabulary.dfy`: the reserved tokens, the search for a missing one, and
  token/id conversion with its round trips.
- `padding.dfy`: maximum length, row padding, the padded batch and its lengths,
  and what characterises them.
- `batching.dfy`: chunking, the batches of one pass, and how the data are
  recovered from them.
- `seq2seq.dfy`: the class `Seq2Seq` with its eight reserved-id fields,
  construction, `RegisterSymbols`, `PadSentenceBatch` and `NextBatch` (both
  imperative, with loops), the first validation batch, the decoder input and the
  inference feed.

An empty batch is not padded to width zero: `max` of an empty list raises
ValueError, so `PadSentenceBatch`, `MaxLength` and `PadAll` require a
non-empty batch. When X and Y have equal length, batch iteration with
`batch_size > 0` never pads an empty batch.

Construction is `Seq2Seq.Create`. It stands for the whole Python constructor,
and it returns `Failure` with the first missing reserved token where Python
raises `KeyError`. An object that `Create` returns is `Registered()`.

The generator `next_batch` is modelled as `NextBatch`. That method returns the
list of every batch one pass yields. Taking the first batch, as training does,
gives the same value as advancing the generator once. An exhausted generator
(`StopIteration`) is `None`.

An inference input that is a Python string iterates as its one-character
strings. `InferInput` takes that sequence of tokens. On an empty input it feeds
`batch_size` empty rows of length 0.

## Model

| member | source | states |
|---|---|---|
| Vocabulary.FirstAbsent | nlp-models/tensorflow/seq2seq_birnn.py:27-30 | None exactly when every token is a key; otherwise an absent token, and every token before its position is present (where a run of subscripts stops with KeyError) |
| Vocabulary.FirstMissing | nlp-models/tensorflow/seq2seq_birnn.py:26-35 | None exactly when both vocabularies hold all four reserved tokens; a source-side failure names a reserved token the source map lacks, and every reserved token before it in `<GO>`, `<EOS>`, `<PAD>`, `<UNK>` order is present; a target-side failure happens only when the source map is complete, and names the first reserved token the target map lacks in that order |
| Vocabulary.Tokenize | nlp-models/tensorflow/seq2seq_birnn.py:194 | one id per token; a token in the map gets its mapped id, any other token the unknown id |
| Vocabulary.Detokenize | nlp-models/tensorflow/seq2seq_birnn.py:201 | defined exactly when every id is a key of the id-to-token map, and then maps each id to its token in order |
| Vocabulary.TokenRoundTrip | nlp-models/tensorflow/seq2seq_birnn.py:194 | token to id to token gives the input with every out-of-vocabulary token replaced by `<UNK>`, when the id-to-token map inverts the vocabulary |
| Vocabulary.KnownTokenRoundTrip | nlp-models/tensorflow/seq2seq_birnn.py:194 | in-vocabulary tokens survive token to id to token unchanged |
| Vocabulary.IdRoundTrip | nlp-models/tensorflow/seq2seq_birnn.py:194 | id to token to id is the identity on known ids |
| Padding.MaxLength | nlp-models/tensorflow/seq2seq_birnn.py:144 | the result bounds every sentence length and is the length of some sentence |
| Padding.PadRow | nlp-models/tensorflow/seq2seq_birnn.py:146 | the padded row has the target width, starts with the sentence unchanged, and holds only the pad id after it |
| Padding.PaddedShape | nlp-models/tensorflow/seq2seq_birnn.py:144-147 | one padded row and one length per sentence; row k is as wide as the longest sentence, starts with sentence k, continues with pad ids only; length k is that sentence's length and is at most the width |
| Padding.PadAllIsPadding | nlp-models/tensorflow/seq2seq_birnn.py:144-147 | the computed padded batch and lengths meet the padding characterisation |
| Padding.PaddingUnique | nlp-models/tensorflow/seq2seq_birnn.py:144-147 | any rows and lengths meeting the padding characterisation are the computed ones |
| Padding.UnpadPadded | nlp-models/tensorflow/seq2seq_birnn.py:146-147 | cutting every padded row back to its recorded length gives the original batch |
| Padding.PadIdempotent | nlp-models/tensorflow/seq2seq_birnn.py:146 | padding an already padded batch changes nothing |
| Padding.PadThreeFiveTwo | nlp-models/tensorflow/seq2seq_birnn.py:144-147 | sentences of lengths 3, 5, 2 pad to width 5 with two, zero and three pad ids |
| Batching.Chunks | nlp-models/tensorflow/seq2seq_birnn.py:158-160 | `len / n` chunks, each of exactly n elements |
| Batching.ChunkAt | nlp-models/tensorflow/seq2seq_birnn.py:158-160 | chunk k is elements `k*n` to `(k+1)*n` |
| Batching.ConcatChunks | nlp-models/tensorflow/seq2seq_birnn.py:158 | the chunks laid end to end are the input without its last `len % n` elements |
| Batching.BatchAt | nlp-models/tensorflow/seq2seq_birnn.py:158-166 | one pass yields `len(X) / size` batches, and batch k is the padded pair built from `X[k*size..(k+1)*size]` and `Y[k*size..(k+1)*size]` |
| Batching.BatchSizes | nlp-models/tensorflow/seq2seq_birnn.py:159-162 | every batch of a pass holds `size` padded rows and `size` lengths on each side |
| Batching.BatchesRecoverData | nlp-models/tensorflow/seq2seq_birnn.py:158-166 | un-padding every batch's rows and concatenating them gives X and Y without their last `len % size` examples, in order |
| Batching.HundredAndFiveInTens | nlp-models/tensorflow/seq2seq_birnn.py:158 | 105 examples in batches of 10 give 10 batches, and the last 5 examples are dropped |
| Seq2SeqBirnn.DecoderInputRow | nlp-models/tensorflow/seq2seq_birnn.py:76-77 | the row starts with `<GO>`, keeps the target row's length (1 for an empty row), and position t holds target position t-1 |
| Seq2SeqBirnn.DecoderInputShift | nlp-models/tensorflow/seq2seq_birnn.py:76-77 | the decoder input followed by the last target id is `<GO>` followed by the whole target row |
| Seq2SeqBirnn.Seq2Seq.constructor | nlp-models/tensorflow/seq2seq_birnn.py:11-19 | stores the two vocabularies and the batch size |
| Seq2SeqBirnn.Seq2Seq.Create | nlp-models/tensorflow/seq2seq_birnn.py:7-23 | fails exactly when a reserved token is missing from either vocabulary, naming the first one; otherwise returns a fresh object with all eight reserved ids registered |
| Seq2SeqBirnn.Seq2Seq.RegisterSymbols | nlp-models/tensorflow/seq2seq_birnn.py:26-35 | reports the first missing reserved key, source map first and then target map; without one, each of the eight fields holds its map's id for its token |
| Seq2SeqBirnn.Seq2Seq.PadSentenceBatch | nlp-models/tensorflow/seq2seq_birnn.py:141-148 | returns exactly the padded batch and the length list, one entry per sentence, in input order |
| Seq2SeqBirnn.Seq2Seq.NextBatch | nlp-models/tensorflow/seq2seq_birnn.py:152-166 | returns every batch of one pass, `len(X) / batch_size` of them, each with `batch_size` rows and lengths on both sides; an omitted pad id is the object's registered `<PAD>` id for that side |
| Seq2SeqBirnn.Seq2Seq.FitValidationBatch | nlp-models/tensorflow/seq2seq_birnn.py:171-172 | a validation batch exists exactly when the validation data hold at least `batch_size` examples, and it is the padded first `batch_size` examples with the pad fields, which for a registered object are the vocabularies' `<PAD>` ids |
| Seq2SeqBirnn.Seq2Seq.ProcessedDecoderInput | nlp-models/tensorflow/seq2seq_birnn.py:75-78 | one decoder row per target row, each starting with the registered `<GO>` id and holding the target row shifted right by one |
| Seq2SeqBirnn.Seq2Seq.InferInput | nlp-models/tensorflow/seq2seq_birnn.py:194-197 | `batch_size` identical rows, each as long as the input, mapping each token to its source id or to the registered `<UNK>` id; every fed length is the input length |
| Seq2SeqBirnn.Seq2Seq.InferInputRoundTrip | nlp-models/tensorflow/seq2seq_birnn.py:194-201 | reading a fed row back through an inverse of the source vocabulary gives the input with unknown tokens as `<UNK>` |

## Left out

- Graph construction is not modelled. That covers `build_graph`, `add_input_layer`, `lstm_cell`, `add_encoder_layer`, `prepare_decoder_components`, `add_decoder_layer` and `add_backward_path`. They are calls into TensorFlow (embeddings, LSTM cells, dynamic decoding, sequence loss, gradient clipping, Adam), with floating-point numerics and automatic differentiation.
- The constructor's `rnn_size`, `n_layers`, `grad_clip`, embedding sizes and session are not fields of the model. The sizes and `grad_clip` are used only by graph construction. The session is used only by the `sess.run` calls in `fit` and `infer`, which are left out.
- Greedy decoding is not modelled. The argmax per step, the stop at `<EOS>` and the cap of twice the source length are done by TensorFlow's decoder, not by this class.
- The training loop in `fit` is not modelled: the epochs, the `sess.run` steps, the loss values and the reporting every `display_step` batches. These are foreign execution with float results. Only the choice of the validation batch is modelled.
- Printing in `fit` and `infer` is not modelled. That is I/O; only the id-to-token mapping that `infer` prints is modelled, as `Detokenize`.
- `np.array` conversion of the padded batches is not modelled, and neither is the 32-bit width of the placeholders. Batches are sequences of unbounded integers.
- NextBatch: requires `len(X) == len(Y)`. The code slices Y with X's indices. A shorter Y gives short target batches, and then ValueError (`max` of an empty list) once a target slice is empty. A longer Y is accepted and its tail ignored; the model does not cover that case.
- FitValidationBatch: requires `len(X_test) == len(Y_test)`, the equal-length rule of `next_batch`. Training draws only the first batch, so the code also accepts a `Y_test` of a different length that holds at least `batch_size` examples and gives the same first batch; the requires excludes that accepted case, which the model does not cover.
- NextBatch and FitValidationBatch: require `batch_size > 0`. With 0 the code's `len(X) % batch_size` raises ZeroDivisionError.
- Seq2SeqBirnn.Seq2Seq.PadSentenceBatch: its postcondition ties the result to `PadAll` and `Lengths`. Row widths, the unchanged prefix and the pad-only suffix are proved about those functions in `PaddedShape`, `PadAllIsPadding` and `PaddingUnique`, not repeated in the method's own postcondition.
- Seq2SeqBirnn.Seq2Seq.RegisterSymbols: says nothing about the fields already assigned before a missing key stops it. Python discards that half-built object.
- Nothing in the code checks that vocabulary ids are dense or unique, and the operations do not assume it. The token round-trip lemmas (`TokenRoundTrip`, `KnownTokenRoundTrip`, `InferInputRoundTrip`) take an id-to-token map that inverts the vocabulary, and such a map exists only when ids are unique, so they say nothing about a vocabulary with duplicate ids.
- Padding.MaxLength, Padding.PadAll and Seq2SeqBirnn.Seq2Seq.PadSentenceBatch: require a non-empty batch, because `max` of an empty list raises ValueError; the model does not describe that error.
