/** The added tokens by name, and when the graph's answer for an ordinary text is taken
    (ai/scripts/build_mobile_bundle.py). */
module StitchMeaning {
  import opened Wrappers
  import opened SpecialTokens

  /** Each added token cuts a text in two and becomes its own id, wherever it stands. */
  lemma TokensAre(a: string, b: string)
    ensures Split(a + ("<s>" + b)) == Split(a) + [Special(0)] + Split(b)
    ensures Split(a + ("<pad>" + b)) == Split(a) + [Special(1)] + Split(b)
    ensures Split(a + ("</s>" + b)) == Split(a) + [Special(2)] + Split(b)
    ensures Split(a + ("<unk>" + b)) == Split(a) + [Special(3)] + Split(b)
    ensures Split(a + ("<mask>" + b)) == Split(a) + [Special(250001)] + Split(b)
  {
    hide Split;
    SplitAround(a, 0, b);
    SplitAround(a, 1, b);
    SplitAround(a, 2, b);
    SplitAround(a, 3, b);
    SplitAround(a, 4, b);
  }

  /** The graph wraps what it returns in BOS 0 and EOS 2. */
  ghost predicate IsWrapped(ids: seq<int>) {
    exists inner: seq<int> :: ids == [0] + inner + [2]
  }

  lemma WrappedMeans(ids: seq<int>)
    ensures Wrapped(ids) <==> IsWrapped(ids)
    ensures Wrapped(ids) ==> ids == [0] + ids[1..|ids| - 1] + [2]
  {
    if Wrapped(ids) {
      assert ids == [0] + ids[1..|ids| - 1] + [2];
    }
  }

  /** A text without tokens is asked about in one piece, and its ids are taken without the wrapper. */
  lemma PlainText(text: string, inner: seq<int>, tokenize: Tokenizer)
    requires text != "" && (forall i: nat :: !TokenAt(text, i)) && tokenize(text) == [0] + inner + [2]
    ensures Content(Split(text), tokenize) == Ok(inner)
  {
    SplitTextOnly(text);
    hide Split, TokenAt;
    var ids := tokenize(text);
    assert ids[1..|ids| - 1] == inner;
    OnePiece(Text(text), tokenize);
  }

  lemma OnePiece(p: Piece, tokenize: Tokenizer)
    ensures Content([p], tokenize) == PieceIds(p, tokenize)
  {
    assert [p][..0] == [];
    assert Content([], tokenize) == Ok([]);
    if PieceIds(p, tokenize).Ok? {
      assert [] + PieceIds(p, tokenize).value == PieceIds(p, tokenize).value;
    } else {
      OnlyError([p], tokenize);
    }
  }

  /** Stitching fails exactly if the graph does not wrap its answer for some ordinary piece. */
  lemma {:induction false} ContentFailsIff(pieces: seq<Piece>, tokenize: Tokenizer)
    ensures Content(pieces, tokenize).Err? <==> exists p :: p in pieces && p.Text? && !IsWrapped(tokenize(p.text))
  {
    if pieces != [] {
      var rest, last := pieces[..|pieces| - 1], pieces[|pieces| - 1];
      assert pieces == rest + [last];
      ContentFailsIff(rest, tokenize);
      if last.Text? {
        WrappedMeans(tokenize(last.text));
      }
      hide IsWrapped, Wrapped;
    }
  }
}
