/** Splitting text at the added tokens and stitching token ids back together
    (ai/scripts/build_mobile_bundle.py).  Every lstrip/rstrip flag of the token table is
    False, so no whitespace is ever stripped. */
module SpecialTokens {
  import opened Wrappers
  import opened Collections
  import opened Substrings

  const COUNT := 5

  /** The table of added tokens, in its own order. */
  function Token(k: nat): string
    requires k < COUNT
  {
    if k == 0 then "<s>"
    else if k == 1 then "<pad>"
    else if k == 2 then "</s>"
    else if k == 3 then "<unk>"
    else "<mask>"
  }

  function Id(k: nat): nat
    requires k < COUNT
  {
    if k == 4 then 250001 else k
  }

  const BOS := 0
  const PAD := 1
  const EOS := 2

  datatype Piece = Text(text: string) | Special(token: nat)

  // ---------------------------------------------------------------- splitting

  /** The first table entry from `k` on that starts at position `i`, or COUNT for none. */
  function MatchFrom(text: string, i: nat, k: nat): (r: nat)
    requires k <= COUNT
    ensures k <= r <= COUNT
    ensures r < COUNT ==> StartsAt(text, Token(r), i)
    ensures forall j :: k <= j < r ==> !StartsAt(text, Token(j), i)
    decreases COUNT - k
  {
    if k == COUNT then COUNT else if StartsAt(text, Token(k), i) then k else MatchFrom(text, i, k + 1)
  }

  predicate TokenAt(text: string, i: nat) {
    exists k :: 0 <= k < COUNT && StartsAt(text, Token(k), i)
  }

  /** The first position from `i` on where a token starts, or the length of the text. */
  function NextToken(text: string, i: nat): (r: nat)
    requires i <= |text|
    ensures i <= r <= |text|
    decreases |text| - i
  {
    if i == |text| || TokenAt(text, i) then i else NextToken(text, i + 1)
  }

  lemma {:induction false} NextTokenIs(text: string, i: nat)
    requires i <= |text|
    ensures var r := NextToken(text, i);
            (r < |text| ==> TokenAt(text, r)) && forall j :: i <= j < r ==> !TokenAt(text, j)
    decreases |text| - i
  {
    hide TokenAt;
    if i < |text| && !TokenAt(text, i) {
      NextTokenIs(text, i + 1);
    }
  }

  function Ordinary(text: string): seq<Piece> {
    if text == "" then [] else [Text(text)]
  }

  /** The text up to the first token, the token, and the split of what follows. */
  function Split(text: string): seq<Piece>
    decreases |text|
  {
    var i := NextToken(text, 0);
    if i == |text| then Ordinary(text)
    else
      NextTokenIs(text, 0);
      var k := MatchFrom(text, i, 0);
      Ordinary(text[..i]) + [Special(Id(k))] + Split(text[i + |Token(k)|..])
  }

  /** `split_special_tokens`: one pass with a cursor. */
  method SplitSpecialTokens(text: string) returns (pieces: seq<Piece>)
    ensures pieces == Split(text)
  {
    hide Split, MatchFrom, Token, Id;
    pieces := [];
    var ordinaryStart, cursor := 0, 0;
    assert text[0..] == text && pieces + Split(text) == Split(text);
    while cursor < |text|
      invariant 0 <= ordinaryStart <= cursor <= |text|
      invariant pieces + Split(text[ordinaryStart..]) == Split(text)
      invariant forall j :: ordinaryStart <= j < cursor ==> !TokenAt(text, j)
      decreases |text| - cursor
    {
      var k := MatchFrom(text, cursor, 0);
      if k == COUNT {
        cursor := cursor + 1;
        continue;
      }
      TokenFound(text, cursor, k);
      SplitAtToken(text, ordinaryStart, cursor, k);
      var ordinary := text[ordinaryStart..cursor];
      ghost var before := pieces;
      RegroupPieces(before, Ordinary(ordinary), [Special(Id(k))], Split(text[cursor + |Token(k)|..]));
      if ordinary != "" {
        pieces := pieces + [Text(ordinary)];
      }
      pieces := pieces + [Special(Id(k))];
      assert pieces == before + Ordinary(ordinary) + [Special(Id(k))];
      cursor := cursor + |Token(k)|;
      ordinaryStart := cursor;
    }
    SplitWithoutToken(text, ordinaryStart);
    var ordinary := text[ordinaryStart..];
    if ordinary != "" {
      pieces := pieces + [Text(ordinary)];
    }
  }

  lemma RegroupPieces<T>(a: seq<T>, b: seq<T>, c: seq<T>, d: seq<T>)
    ensures a + (b + c + d) == (a + b + c) + d
  {}

  lemma TokenFound(text: string, i: nat, k: nat)
    requires i < |text| && k < COUNT && k == MatchFrom(text, i, 0)
    ensures StartsAt(text, Token(k), i) && TokenAt(text, i) && |Token(k)| >= 3
  {
    TokenShape(k);
  }

  lemma ShiftToken(text: string, s: nat, i: nat)
    requires s <= |text|
    ensures TokenAt(text[s..], i) <==> TokenAt(text, s + i)
  {
    forall k | 0 <= k < COUNT ensures StartsAt(text[s..], Token(k), i) <==> StartsAt(text, Token(k), s + i) {
      ShiftStart(text, Token(k), s, i);
    }
  }

  lemma SplitAtToken(text: string, s: nat, c: nat, k: nat)
    requires s <= c < |text| && k < COUNT && k == MatchFrom(text, c, 0)
    requires forall j :: s <= j < c ==> !TokenAt(text, j)
    ensures c + |Token(k)| <= |text|
    ensures Split(text[s..]) == Ordinary(text[s..c]) + [Special(Id(k))] + Split(text[c + |Token(k)|..])
  {
    hide Token, Id, StartsAt;
    var rest := text[s..];
    FirstTokenShifts(text, s, c, k);
    assert rest[..c - s] == text[s..c];
    TokenFits(text, c, k);
    assert rest[c - s + |Token(k)|..] == text[c + |Token(k)|..];
  }

  lemma TokenFits(text: string, i: nat, k: nat)
    requires k < COUNT && StartsAt(text, Token(k), i)
    ensures i + |Token(k)| <= |text|
  {}

  lemma FirstTokenShifts(text: string, s: nat, c: nat, k: nat)
    requires s <= c < |text| && k < COUNT && k == MatchFrom(text, c, 0)
    requires forall j :: s <= j < c ==> !TokenAt(text, j)
    ensures NextToken(text[s..], 0) == c - s < |text[s..]|
    ensures MatchFrom(text[s..], c - s, 0) == k
  {
    hide Token, StartsAt, NextToken, MatchFrom;
    var rest := text[s..];
    forall i: nat ensures TokenAt(rest, i) <==> TokenAt(text, s + i) {
      ShiftToken(text, s, i);
    }
    assert TokenAt(text, c);
    assert TokenAt(rest, c - s);
    forall j | 0 <= j < COUNT ensures StartsAt(rest, Token(j), c - s) <==> StartsAt(text, Token(j), c) {
      ShiftStart(text, Token(j), s, c - s);
    }
    NextTokenIs(rest, 0);
    var r := MatchFrom(rest, c - s, 0);
    assert r == k;
  }

  lemma SplitWithoutToken(text: string, s: nat)
    requires s <= |text| && forall j :: s <= j < |text| ==> !TokenAt(text, j)
    ensures Split(text[s..]) == Ordinary(text[s..])
  {
    hide Token, StartsAt;
    var rest := text[s..];
    forall i: nat | i < |rest| ensures !TokenAt(rest, i) {
      ShiftToken(text, s, i);
    }
    NextTokenIs(rest, 0);
    assert NextToken(rest, 0) == |rest|;
  }

  // ---------------------------------------------------------------- splitting is a bijection

  ghost predicate KnownId(id: nat) {
    exists k :: 0 <= k < COUNT && Id(k) == id
  }

  function TokenText(id: nat): string {
    if id < 4 then Token(id) else Token(4)
  }

  lemma TokenTextOfId(k: nat)
    requires k < COUNT
    ensures TokenText(Id(k)) == Token(k)
  {}

  function RenderPiece(p: Piece): string {
    match p
    case Text(t) => t
    case Special(id) => TokenText(id)
  }

  function Render(pieces: seq<Piece>): string {
    if pieces == [] then "" else RenderPiece(pieces[0]) + Render(pieces[1..])
  }

  ghost predicate NormalPiece(p: Piece) {
    match p
    case Text(t) => t != "" && forall i: nat :: !TokenAt(t, i)
    case Special(id) => KnownId(id)
  }

  /** No empty text, no token inside a text, no two texts in a row. */
  ghost predicate Normal(pieces: seq<Piece>) {
    && (forall i :: 0 <= i < |pieces| ==> NormalPiece(pieces[i]))
    && (forall i, j :: 0 <= i < |pieces| && j == i + 1 < |pieces| ==> pieces[i].Special? || pieces[j].Special?)
  }

  lemma ConcatAssociates<T>(a: seq<T>, b: seq<T>, c: seq<T>)
    ensures (a + b) + c == a + (b + c)
  {}

  lemma {:induction false} RenderConcat(a: seq<Piece>, b: seq<Piece>)
    ensures Render(a + b) == Render(a) + Render(b)
  {
    hide RenderPiece;
    if a == [] {
      assert a + b == b;
      assert [] + Render(b) == Render(b);
    } else {
      RenderConcat(a[1..], b);
      assert (a + b)[1..] == a[1..] + b && (a + b)[0] == a[0];
      ConcatAssociates(RenderPiece(a[0]), Render(a[1..]), Render(b));
    }
  }

  lemma RenderOne(p: Piece, b: seq<Piece>)
    ensures Render([p]) == RenderPiece(p)
    ensures Render([p] + b) == RenderPiece(p) + Render(b)
  {
    hide RenderPiece;
    assert [p][1..] == [] && ([p] + b)[1..] == b;
    assert RenderPiece(p) + [] == RenderPiece(p);
  }

  lemma RenderThree(a: seq<Piece>, k: nat, b: seq<Piece>)
    requires k < COUNT
    ensures Render(a + [Special(Id(k))] + b) == Render(a) + (Token(k) + Render(b))
  {
    hide Render, Token, Id, TokenText;
    ConcatAssociates(a, [Special(Id(k))], b);
    RenderConcat(a, [Special(Id(k))] + b);
    RenderOne(Special(Id(k)), b);
    TokenTextOfId(k);
  }

  /** Nothing is lost: rendering the pieces gives the text back. */
  lemma {:induction false} RenderSplit(text: string)
    ensures Render(Split(text)) == text
    decreases |text|
  {
    hide Token, Id, StartsAt, TokenAt, Render, MatchFrom, NextToken;
    var i := NextToken(text, 0);
    NextTokenIs(text, 0);
    RenderOrdinary(text[..i]);
    if i == |text| {
      assert text[..i] == text;
    } else {
      var k := MatchFrom(text, i, 0);
      KnownTokenAt(text, i);
      var rest := text[i + |Token(k)|..];
      RenderSplit(rest);
      RenderThree(Ordinary(text[..i]), k, Split(rest));
      CutAtToken(text, i, k);
    }
  }

  lemma KnownTokenAt(text: string, i: nat)
    requires i < |text| && TokenAt(text, i)
    ensures var k := MatchFrom(text, i, 0);
            k < COUNT && StartsAt(text, Token(k), i) && i + |Token(k)| <= |text| && |Token(k)| >= 3
  {
    hide Token;
    TokenShape(MatchFrom(text, i, 0));
  }

  lemma CutAtToken(text: string, i: nat, k: nat)
    requires k < COUNT && StartsAt(text, Token(k), i)
    ensures i + |Token(k)| <= |text|
    ensures text == text[..i] + (Token(k) + text[i + |Token(k)|..])
  {
    hide Token;
    assert text[i..i + |Token(k)|] == Token(k);
  }

  lemma RenderOrdinary(text: string)
    ensures Render(Ordinary(text)) == text
  {
    RenderOne(Text(text), []);
  }

  /** '<' opens a token and occurs nowhere else in it; '>' closes it likewise. */
  lemma TokenShape(k: nat)
    requires k < COUNT
    ensures |Token(k)| >= 3 && Token(k)[0] == '<' && Token(k)[|Token(k)| - 1] == '>'
    ensures forall i :: 0 < i < |Token(k)| ==> Token(k)[i] != '<'
    ensures forall i :: 0 <= i < |Token(k)| - 1 ==> Token(k)[i] != '>'
  {}

  /** At most one token starts at a position. */
  lemma OneTokenAt(text: string, i: nat, j: nat, k: nat)
    requires j < COUNT && k < COUNT && StartsAt(text, Token(j), i) && StartsAt(text, Token(k), i)
    ensures j == k
  {
    hide Token;
    TokenShape(j);
    TokenShape(k);
    var a, b := Token(j), Token(k);
    forall x | 0 <= x < |a| && x < |b| ensures a[x] == b[x] {
      assert text[i..i + |a|][x] == text[i..i + |b|][x];
    }
    var shorter := if |a| <= |b| then |a| else |b|;
    assert a[shorter - 1] == b[shorter - 1];
    assert a == b;
    TokensDiffer(j, k);
  }

  lemma TokensDiffer(j: nat, k: nat)
    requires j < COUNT && k < COUNT && Token(j) == Token(k)
    ensures j == k
  {
    assert Token(j)[1] == Token(k)[1];
  }

  /** A text without tokens stays without tokens in front of a token, or of nothing. */
  lemma NoStraddling(t: string, rest: string, i: nat)
    requires i < |t| && !TokenAt(t, i)
    requires rest == "" || rest[0] == '<'
    ensures !TokenAt(t + rest, i)
  {
    hide Token;
    forall k | 0 <= k < COUNT ensures !StartsAt(t + rest, Token(k), i) {
      TokenShape(k);
      assert !StartsAt(t, Token(k), i);
      NoStraddle(t, rest, Token(k), i);
    }
  }

  /** Splitting undoes rendering on every normal piece list. */
  lemma {:induction false} SplitRender(pieces: seq<Piece>)
    requires Normal(pieces)
    ensures Split(Render(pieces)) == pieces
    decreases |pieces|
  {
    hide Split, Id, Token, Render, RenderPiece, TokenText;
    if pieces == [] {
      SplitEmpty();
    } else {
      var tail := pieces[1..];
      TailNormal(pieces);
      SplitRender(tail);
      assert pieces == [pieces[0]] + tail;
      RenderOne(pieces[0], tail);
      match pieces[0] {
        case Special(id) =>
          var k: nat :| k < COUNT && Id(k) == id;
          SpecialRenders(k);
          SplitSpecialFirst(k, Render(tail));
        case Text(t) =>
          if tail == [] {
            SplitTextOnly(t);
          } else {
            assert tail[0] == pieces[1] && pieces[1].Special?;
            var k: nat :| k < COUNT && Id(k) == tail[0].token;
            assert tail == [tail[0]] + tail[1..];
            RenderOne(tail[0], tail[1..]);
            SpecialRenders(k);
            SplitTextFirst(t, k, Render(tail[1..]));
          }
          TextRenders(t);
      }
    }
  }

  lemma SplitEmpty()
    ensures Split(Render([])) == []
  {}

  lemma SpecialRenders(k: nat)
    requires k < COUNT
    ensures RenderPiece(Special(Id(k))) == Token(k)
  {
    TokenTextOfId(k);
  }

  lemma TextRenders(t: string)
    ensures RenderPiece(Text(t)) == t
  {}

  lemma TailNormal(pieces: seq<Piece>)
    requires Normal(pieces) && pieces != []
    ensures NormalPiece(pieces[0]) && Normal(pieces[1..])
  {}

  /** The first token found is the one that is there. */
  lemma SplitAtFirst(text: string, n: nat, k: nat)
    requires k < COUNT && n < |text| && StartsAt(text, Token(k), n)
    requires forall j :: 0 <= j < n ==> !TokenAt(text, j)
    ensures n + |Token(k)| <= |text|
    ensures Split(text) == Ordinary(text[..n]) + [Special(Id(k))] + Split(text[n + |Token(k)|..])
  {
    TokenHere(text, k, n);
    KnownTokenAt(text, n);
    OneTokenAt(text, n, MatchFrom(text, n, 0), k);
    SplitAtToken(text, 0, n, k);
    assert text[0..] == text && text[0..n] == text[..n];
  }

  lemma SplitSpecialFirst(k: nat, rest: string)
    requires k < COUNT
    ensures Split(Token(k) + rest) == [Special(Id(k))] + Split(rest)
  {
    hide Token, Id, Split;
    TokenShape(k);
    var text := Token(k) + rest;
    assert text[0..0 + |Token(k)|] == Token(k);
    SplitAtFirst(text, 0, k);
    assert text[0 + |Token(k)|..] == rest;
    assert text[..0] == "" && Ordinary("") == [];
    assert [] + [Special(Id(k))] + Split(rest) == [Special(Id(k))] + Split(rest);
  }

  lemma SplitTextOnly(t: string)
    requires NormalPiece(Text(t))
    ensures t + Render([]) == t && Split(t) == [Text(t)]
  {
    hide TokenAt;
    NextTokenIs(t, 0);
    assert NextToken(t, 0) == |t|;
  }

  lemma SplitTextFirst(t: string, k: nat, rest: string)
    requires NormalPiece(Text(t)) && k < COUNT
    ensures Split(t + (Token(k) + rest)) == [Text(t)] + Split(Token(k) + rest)
  {
    hide Token, Id, Split, TokenAt;
    TokenShape(k);
    var tail := Token(k) + rest;
    var text := t + tail;
    forall i: nat | i < |t| ensures !TokenAt(text, i) {
      NoStraddling(t, tail, i);
    }
    assert text[|t|..|t| + |Token(k)|] == Token(k);
    SplitAtFirst(text, |t|, k);
    assert text[..|t|] == t && text[|t| + |Token(k)|..] == rest;
    SplitSpecialFirst(k, rest);
    ConcatAssociates([Text(t)], [Special(Id(k))], Split(rest));
  }

  lemma TokenHere(text: string, k: nat, i: nat)
    requires k < COUNT && StartsAt(text, Token(k), i)
    ensures TokenAt(text, i)
  {}

  /** The pieces of a text are normal. */
  lemma {:induction false} SplitIsNormal(text: string)
    ensures Normal(Split(text))
    decreases |text|
  {
    hide TokenAt, Token, Id, MatchFrom, NextToken;
    var i := NextToken(text, 0);
    NextTokenIs(text, 0);
    PrefixHasNoToken(text, i);
    if i == |text| {
      assert text[..i] == text;
    } else {
      KnownTokenAt(text, i);
      var k := MatchFrom(text, i, 0);
      SplitIsNormal(text[i + |Token(k)|..]);
      JoinNormal(Ordinary(text[..i]), Id(k), Split(text[i + |Token(k)|..]));
    }
  }

  lemma PrefixHasNoToken(text: string, i: nat)
    requires i <= |text| && forall j :: 0 <= j < i ==> !TokenAt(text, j)
    ensures forall j: nat :: !TokenAt(text[..i], j)
  {
    hide Token;
    forall j: nat, k | 0 <= k < COUNT ensures !StartsAt(text[..i], Token(k), j) {
      TokenShape(k);
      if j < i {
        assert !TokenAt(text, j);
        if j + |Token(k)| <= i {
          assert text[..i][j..j + |Token(k)|] == text[j..j + |Token(k)|];
        }
      }
    }
  }

  lemma JoinNormal(a: seq<Piece>, id: nat, b: seq<Piece>)
    requires Normal(a) && Normal(b) && KnownId(id)
    ensures Normal(a + [Special(id)] + b)
  {
    var all := a + [Special(id)] + b;
    forall i, j | 0 <= i < |all| && j == i + 1 < |all| ensures all[i].Special? || all[j].Special? {
      if j < |a| {
        assert all[i] == a[i] && all[j] == a[j];
      } else if i > |a| {
        assert all[i] == b[i - |a| - 1] && all[j] == b[j - |a| - 1];
      }
    }
  }

  /** A token in the middle splits a text into the splits of its two sides. */
  lemma SplitAround(t1: string, k: nat, t2: string)
    requires k < COUNT
    ensures Split(t1 + (Token(k) + t2)) == Split(t1) + [Special(Id(k))] + Split(t2)
  {
    hide Split, Token, Id, Render, Normal;
    SplitIsNormal(t1);
    SplitIsNormal(t2);
    JoinNormal(Split(t1), Id(k), Split(t2));
    RenderSplit(t1);
    RenderSplit(t2);
    RenderThree(Split(t1), k, Split(t2));
    SplitRender(Split(t1) + [Special(Id(k))] + Split(t2));
  }

  // ---------------------------------------------------------------- stitching

  datatype StitchError = NoRoomForWrapper | BadSegmentWrapper

  /** Ids the SentencePiece graph returns for an ordinary text. */
  type Tokenizer = string -> seq<int>

  predicate Wrapped(ids: seq<int>) {
    |ids| >= 2 && ids[0] == BOS && ids[|ids| - 1] == EOS
  }

  /** Ids of one piece, without the graph's own BOS and EOS. */
  function PieceIds(p: Piece, tokenize: Tokenizer): Result<seq<int>, StitchError> {
    match p
    case Special(id) => Ok([id])
    case Text(t) =>
      var ids := tokenize(t);
      if Wrapped(ids) then Ok(ids[1..|ids| - 1]) else Err(BadSegmentWrapper)
  }

  function Joined(a: Result<seq<int>, StitchError>, b: Result<seq<int>, StitchError>): Result<seq<int>, StitchError> {
    if a.Err? then a else if b.Err? then b else Ok(a.value + b.value)
  }

  /** Ids of a piece list, before truncation. */
  function Content(pieces: seq<Piece>, tokenize: Tokenizer): Result<seq<int>, StitchError> {
    if pieces == [] then Ok([])
    else Joined(Content(pieces[..|pieces| - 1], tokenize), PieceIds(pieces[|pieces| - 1], tokenize))
  }

  /** `stitch_graph_tokenization`.  The output is BOS, the longest prefix of the content that
      fits, EOS right after it, and only padding behind. */
  method Stitch(text: string, tokenize: Tokenizer, maxLength: int, pad: bool)
    returns (r: Result<seq<int>, StitchError>)
    ensures maxLength < 2 ==> r == Err(NoRoomForWrapper)
    ensures maxLength >= 2 ==> (r.Err? <==> Content(Split(text), tokenize).Err?)
    ensures maxLength >= 2 && r.Err? ==> r.error == BadSegmentWrapper
    ensures r.Ok? ==>
      var content := Content(Split(text), tokenize).value;
      var kept := if |content| <= maxLength - 2 then |content| else maxLength - 2;
      && |r.value| == (if pad then maxLength else kept + 2)
      && r.value[..kept + 2] == [BOS] + content[..kept] + [EOS]
      && (forall i :: kept + 2 <= i < |r.value| ==> r.value[i] == PAD)
  {
    if maxLength < 2 {
      return Err(NoRoomForWrapper);
    }
    var pieces := SplitSpecialTokens(text);
    var content := CollectContent(pieces, tokenize);
    if content.Err? {
      return content;
    }
    hide Split, Content;
    var kept := if |content.value| <= maxLength - 2 then |content.value| else maxLength - 2;
    var tokens := [BOS] + content.value[..kept] + [EOS];
    ghost var body := tokens;
    if pad {
      tokens := tokens + Repeat(PAD, maxLength - |tokens|);
    }
    assert tokens[..kept + 2] == body;
    return Ok(tokens);
  }

  method CollectContent(pieces: seq<Piece>, tokenize: Tokenizer) returns (r: Result<seq<int>, StitchError>)
    ensures r == Content(pieces, tokenize)
    ensures r.Err? ==> r.error == BadSegmentWrapper
  {
    var content: seq<int> := [];
    for n := 0 to |pieces|
      invariant Content(pieces[..n], tokenize) == Ok(content)
    {
      assert pieces[..n + 1][..n] == pieces[..n];
      match pieces[n] {
        case Special(id) =>
          content := content + [id];
        case Text(t) =>
          var ids := tokenize(t);
          if |ids| < 2 || ids[0] != BOS || ids[|ids| - 1] != EOS {
            FailureStays(pieces, n + 1, tokenize);
            return Err(BadSegmentWrapper);
          }
          content := content + ids[1..|ids| - 1];
      }
    }
    assert pieces[..|pieces|] == pieces;
    return Ok(content);
  }

  lemma {:induction false} FailureStays(pieces: seq<Piece>, n: nat, tokenize: Tokenizer)
    requires n <= |pieces| && Content(pieces[..n], tokenize).Err?
    ensures Content(pieces, tokenize).Err?
    ensures Content(pieces, tokenize) == Err(BadSegmentWrapper)
    decreases |pieces|
  {
    if n < |pieces| {
      assert pieces[..|pieces| - 1][..n] == pieces[..n];
      FailureStays(pieces[..|pieces| - 1], n, tokenize);
    } else {
      assert pieces[..n] == pieces;
      OnlyError(pieces, tokenize);
    }
  }

  lemma {:induction false} OnlyError(pieces: seq<Piece>, tokenize: Tokenizer)
    requires Content(pieces, tokenize).Err?
    ensures Content(pieces, tokenize) == Err(BadSegmentWrapper)
  {
    if Content(pieces[..|pieces| - 1], tokenize).Err? {
      OnlyError(pieces[..|pieces| - 1], tokenize);
    }
  }

  lemma {:induction false} ContentConcat(a: seq<Piece>, b: seq<Piece>, tokenize: Tokenizer)
    ensures Content(a + b, tokenize) == Joined(Content(a, tokenize), Content(b, tokenize))
    decreases |b|
  {
    hide PieceIds;
    if b == [] {
      assert a + b == a;
      if Content(a, tokenize).Ok? {
        assert Content(a, tokenize).value + [] == Content(a, tokenize).value;
      }
    } else {
      var rest, last := b[..|b| - 1], b[|b| - 1];
      ContentConcat(a, rest, tokenize);
      assert (a + b)[..|a + b| - 1] == a + rest && (a + b)[|a + b| - 1] == last;
      JoinedAssociates(Content(a, tokenize), Content(rest, tokenize), PieceIds(last, tokenize));
    }
  }

  lemma JoinedAssociates(a: Result<seq<int>, StitchError>, b: Result<seq<int>, StitchError>,
                         c: Result<seq<int>, StitchError>)
    ensures Joined(Joined(a, b), c) == Joined(a, Joined(b, c))
  {
    if a.Ok? && b.Ok? && c.Ok? {
      ConcatAssociates(a.value, b.value, c.value);
    }
  }

  /** Before truncation, the ids of `t1`, a special token and `t2` are the ids of `t1`, the
      token's id, and the ids of `t2`: the graph is never asked across a token. */
  lemma ContentAroundToken(t1: string, k: nat, t2: string, tokenize: Tokenizer)
    requires k < COUNT
    ensures Content(Split(t1 + (Token(k) + t2)), tokenize)
         == Joined(Joined(Content(Split(t1), tokenize), Ok([Id(k)])), Content(Split(t2), tokenize))
  {
    SplitAround(t1, k, t2);
    hide Split, Token, Id;
    ContentConcat(Split(t1) + [Special(Id(k))], Split(t2), tokenize);
    assert (Split(t1) + [Special(Id(k))])[..|Split(t1)|] == Split(t1);
  }
}
