/** Token-to-id vocabularies, the four reserved symbols each of them must
    hold, and the conversions between token sequences and id sequences. */
module Vocabulary {
  import opened Wrappers

  /** A token-to-id map (`X_word2idx` or `Y_word2idx`). */
  type Vocab = map<string, int>

  /** An id-to-token map (`X_idx2word` or `Y_idx2word`). */
  type InverseVocab = map<int, string>

  const GO: string := "<GO>"
  const EOS: string := "<EOS>"
  const PAD: string := "<PAD>"
  const UNK: string := "<UNK>"

  /** The reserved tokens, in the order in which they are looked up. */
  const Reserved: seq<string> := [GO, EOS, PAD, UNK]

  /** Which of the two vocabularies a reserved token was looked up in. */
  datatype Side = Source | Target

  /** The key whose absence aborts construction. */
  datatype MissingSymbol = MissingSymbol(side: Side, token: string)

  predicate HasReserved(m: Vocab) {
    GO in m && EOS in m && PAD in m && UNK in m
  }

  /** The first of `tokens` that is not a key of `m`: the key on which a
      sequence of `m[t]` subscripts stops with a KeyError. */
  function FirstAbsent(m: Vocab, tokens: seq<string>): (r: Option<string>)
    ensures r.None? <==> forall i :: 0 <= i < |tokens| ==> tokens[i] in m
    ensures r.Some? ==> r.value !in m
    ensures r.Some? ==>
      exists i :: 0 <= i < |tokens| && tokens[i] == r.value && forall j :: 0 <= j < i ==> tokens[j] in m
  {
    if tokens == [] then None
    else if tokens[0] !in m then Some(tokens[0])
    else
      var r := FirstAbsent(m, tokens[1..]);
      if r.Some? then
        ghost var i :| 0 <= i < |tokens[1..]| && tokens[1..][i] == r.value && forall j :: 0 <= j < i ==> tokens[1..][j] in m;
        assert tokens[i + 1] == r.value;
        r
      else r
  }

  lemma ReservedLookups(m: Vocab)
    ensures HasReserved(m) <==> forall i :: 0 <= i < |Reserved| ==> Reserved[i] in m
  {
    assert Reserved[0] == GO && Reserved[1] == EOS && Reserved[2] == PAD && Reserved[3] == UNK;
  }

  /** The search for an absent reserved token, written out token by token. */
  lemma FirstAbsentReserved(m: Vocab)
    ensures FirstAbsent(m, Reserved) ==
      if GO !in m then Some(GO)
      else if EOS !in m then Some(EOS)
      else if PAD !in m then Some(PAD)
      else if UNK !in m then Some(UNK)
      else None
  {
    assert Reserved[1..] == [EOS, PAD, UNK] && [EOS, PAD, UNK][1..] == [PAD, UNK];
    assert [PAD, UNK][1..] == [UNK] && [UNK][1..] == [];
    if GO in m {
      assert FirstAbsent(m, Reserved) == FirstAbsent(m, [EOS, PAD, UNK]);
      if EOS in m {
        assert FirstAbsent(m, [EOS, PAD, UNK]) == FirstAbsent(m, [PAD, UNK]);
        if PAD in m {
          assert FirstAbsent(m, [PAD, UNK]) == FirstAbsent(m, [UNK]);
          if UNK in m {
            assert FirstAbsent(m, [UNK]) == FirstAbsent(m, []);
          }
        }
      }
    }
  }

  lemma ReservedDistinct()
    ensures forall i, j :: 0 <= i < j < |Reserved| ==> Reserved[i] != Reserved[j]
  {
    assert Reserved == [GO, EOS, PAD, UNK];
    assert GO[1] == 'G' && EOS[1] == 'E' && PAD[1] == 'P' && UNK[1] == 'U';
  }

  /** The failure of the eight reserved-symbol lookups: the source
      vocabulary is searched first, then the target vocabulary. */
  function FirstMissing(x: Vocab, y: Vocab): (r: Option<MissingSymbol>)
    ensures r.None? <==> HasReserved(x) && HasReserved(y)
    ensures r.Some? && r.value.side == Source ==>
      r.value.token in Reserved && r.value.token !in x
    ensures r.Some? && r.value.side == Target ==>
      HasReserved(x) && r.value.token in Reserved && r.value.token !in y
    ensures r.Some? && r.value.side == Source ==>
      forall j :: 0 <= j < |Reserved| && Reserved[j] == r.value.token ==>
        forall i :: 0 <= i < j ==> Reserved[i] in x
    ensures r.Some? && r.value.side == Target ==>
      forall j :: 0 <= j < |Reserved| && Reserved[j] == r.value.token ==>
        forall i :: 0 <= i < j ==> Reserved[i] in y
  {
    ReservedLookups(x);
    ReservedLookups(y);
    FirstAbsentReserved(x);
    FirstAbsentReserved(y);
    ReservedDistinct();
    match FirstAbsent(x, Reserved)
    case Some(t) => Some(MissingSymbol(Source, t))
    case None =>
      match FirstAbsent(y, Reserved)
      case Some(t) => Some(MissingSymbol(Target, t))
      case None => None
  }

  /** Python's `m.get(t, default)`. */
  function Lookup(m: Vocab, t: string, default: int): int {
    if t in m then m[t] else default
  }

  /** Maps every token to its id, falling back to `unk` for a token the
      vocabulary does not hold. */
  function Tokenize(m: Vocab, unk: int, tokens: seq<string>): (ids: seq<int>)
    ensures |ids| == |tokens|
    ensures forall i :: 0 <= i < |tokens| ==>
      (tokens[i] in m ==> ids[i] == m[tokens[i]]) &&
      (tokens[i] !in m ==> ids[i] == unk)
  {
    if tokens == [] then []
    else [Lookup(m, tokens[0], unk)] + Tokenize(m, unk, tokens[1..])
  }

  /** Maps every id back to its token; None when some id is not a key
      (the KeyError of `inv[i]`). */
  function Detokenize(inv: InverseVocab, ids: seq<int>): (r: Option<seq<string>>)
    ensures r.Some? <==> forall i :: 0 <= i < |ids| ==> ids[i] in inv
    ensures r.Some? ==> |r.value| == |ids|
    ensures r.Some? ==> forall i :: 0 <= i < |ids| ==> r.value[i] == inv[ids[i]]
  {
    if ids == [] then Some([])
    else if ids[0] !in inv then None
    else
      match Detokenize(inv, ids[1..])
      case None => None
      case Some(rest) => Some([inv[ids[0]]] + rest)
  }

  /** `inv` undoes `m` on every token of `m`. */
  predicate InvertsTokens(m: Vocab, inv: InverseVocab) {
    forall t :: t in m ==> m[t] in inv && inv[m[t]] == t
  }

  /** `m` undoes `inv` on every id of `inv`. */
  predicate InvertsIds(m: Vocab, inv: InverseVocab) {
    forall id :: id in inv ==> inv[id] in m && m[inv[id]] == id
  }

  /** What a token sequence reads as after a trip through the ids: every
      token the vocabulary lacks becomes `<UNK>`. */
  function Canonical(m: Vocab, tokens: seq<string>): (r: seq<string>)
    ensures |r| == |tokens|
    ensures forall i :: 0 <= i < |tokens| ==>
      r[i] == if tokens[i] in m then tokens[i] else UNK
  {
    if tokens == [] then []
    else [if tokens[0] in m then tokens[0] else UNK] + Canonical(m, tokens[1..])
  }

  /** token -> id -> token keeps every in-vocabulary token and turns every
      other token into `<UNK>`, when the unknown id is the one `<UNK>` has. */
  lemma TokenRoundTrip(m: Vocab, inv: InverseVocab, tokens: seq<string>)
    requires InvertsTokens(m, inv) && UNK in m
    ensures Detokenize(inv, Tokenize(m, m[UNK], tokens)) == Some(Canonical(m, tokens))
  {
    var ids := Tokenize(m, m[UNK], tokens);
    forall i | 0 <= i < |ids| ensures ids[i] in inv && inv[ids[i]] == Canonical(m, tokens)[i] {
      if tokens[i] in m {
        assert ids[i] == m[tokens[i]];
      } else {
        assert ids[i] == m[UNK];
      }
    }
  }

  /** In-vocabulary tokens survive the round trip unchanged. */
  lemma KnownTokenRoundTrip(m: Vocab, inv: InverseVocab, tokens: seq<string>)
    requires InvertsTokens(m, inv) && UNK in m
    requires forall i :: 0 <= i < |tokens| ==> tokens[i] in m
    ensures Detokenize(inv, Tokenize(m, m[UNK], tokens)) == Some(tokens)
  {
    TokenRoundTrip(m, inv, tokens);
    assert Canonical(m, tokens) == tokens;
  }

  /** id -> token -> id is the identity on ids that `inv` knows. */
  lemma IdRoundTrip(m: Vocab, inv: InverseVocab, unk: int, ids: seq<int>)
    requires InvertsIds(m, inv)
    requires forall i :: 0 <= i < |ids| ==> ids[i] in inv
    ensures Detokenize(inv, ids).Some?
    ensures Tokenize(m, unk, Detokenize(inv, ids).value) == ids
  {
    var tokens := Detokenize(inv, ids).value;
    forall i | 0 <= i < |ids| ensures Tokenize(m, unk, tokens)[i] == ids[i] {
      assert tokens[i] == inv[ids[i]];
    }
  }
}
