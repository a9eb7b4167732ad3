/** Which `$` lines of a stream run, told from the chunks alone. */
module EmulatorLines {
  import opened Text
  import opened Emulator
  import opened EmulatorProperties

  // ---------- where chunks start ----------

  /** A line of the text starts at `o` with `$`. */
  predicate DollarAt(text: string, o: nat) {
    o < |text| && text[o] == '$' && (o == 0 || text[o - 1] == '\n')
  }

  ghost predicate ChunkAt(chunks: seq<string>, k: nat, o: nat) {
    k < |chunks| && chunks[k] != "" && |Concat(chunks[..k])| == o && !Contains(chunks[k], DOLLAR_LINE)
  }

  /** A chunk starts exactly at `o`, and no later line of that chunk starts with `$`. */
  ghost predicate StartsChunk(chunks: seq<string>, o: nat) {
    exists k: nat :: ChunkAt(chunks, k, o)
  }

  lemma {:induction false} ConcatAppend(a: seq<string>, b: seq<string>)
    ensures Concat(a + b) == Concat(a) + Concat(b)
    decreases |a|
  {
    if a == [] {
      assert a + b == b;
    } else {
      assert (a + b)[1..] == a[1..] + b;
      ConcatAppend(a[1..], b);
      Assoc(a[0], Concat(a[1..]), Concat(b));
    }
  }

  lemma {:induction false} NextOffset(chunks: seq<string>, k: nat)
    requires k < |chunks|
    ensures Concat(chunks[..k + 1]) == Concat(chunks[..k]) + chunks[k]
  {
    assert chunks[..k + 1] == chunks[..k] + [chunks[k]];
    ConcatAppend(chunks[..k], [chunks[k]]);
    assert [chunks[k]][1..] == [] && chunks[k] + "" == chunks[k];
  }

  lemma {:induction false} OffsetsGrow(chunks: seq<string>, j: nat, k: nat)
    requires j < k <= |chunks|
    ensures |Concat(chunks[..j])| + |chunks[j]| <= |Concat(chunks[..k])|
    decreases k
  {
    NextOffset(chunks, k - 1);
    if j < k - 1 {
      OffsetsGrow(chunks, j, k - 1);
    }
  }

  /** Only the chunk that holds the character at `o` can start there. */
  lemma {:induction false} OnlyItsChunkStarts(chunks: seq<string>, k: nat, o: nat)
    requires k < |chunks| && |Concat(chunks[..k])| <= o < |Concat(chunks[..k])| + |chunks[k]|
    ensures StartsChunk(chunks, o) <==> o == |Concat(chunks[..k])| && !Contains(chunks[k], DOLLAR_LINE)
  {
    hide Contains;
    if o == |Concat(chunks[..k])| && !Contains(chunks[k], DOLLAR_LINE) {
      assert ChunkAt(chunks, k, o);
    }
    if StartsChunk(chunks, o) {
      var j: nat :| ChunkAt(chunks, j, o);
      if j < k {
        OffsetsGrow(chunks, j, k);
      } else if k < j {
        OffsetsGrow(chunks, k, j);
      }
    }
  }

  // ---------- each piece is taken as the chunks say ----------

  /** `open` says that the stream starts, or a command ended, right before the piece. Then a `$` line
      is taken as a command exactly when it starts a chunk; otherwise it always is. */
  ghost predicate RightPiece(chunks: seq<string>, before: string, open: bool, piece: Piece) {
    && Raw(piece) != ""
    && if CommandLine(piece).Some? then open ==> StartsChunk(chunks, |before|)
       else LineStart(before) && Raw(piece)[0] == '$' ==> open && !StartsChunk(chunks, |before|)
  }

  ghost predicate RightPieces(chunks: seq<string>, before: string, open: bool, pieces: seq<Piece>)
    decreases |pieces|
  {
    pieces != [] ==>
      && RightPiece(chunks, before, open, pieces[0])
      && RightPieces(chunks, before + Raw(pieces[0]), pieces[0].Command?, pieces[1..])
  }

  /** Whether a command ended right after the pieces. */
  function OpenAfter(open: bool, pieces: seq<Piece>): bool {
    if pieces == [] then open else pieces[|pieces| - 1].Command?
  }

  lemma {:induction false} RightCons(chunks: seq<string>, before: string, open: bool, first: Piece, rest: seq<Piece>)
    requires RightPiece(chunks, before, open, first)
    requires RightPieces(chunks, before + Raw(first), first.Command?, rest)
    ensures RightPieces(chunks, before, open, [first] + rest)
  {
    hide RightPiece, Raw;
    assert ([first] + rest)[1..] == rest;
  }

  lemma {:induction false} RightAppend(chunks: seq<string>, before: string, open: bool, a: seq<Piece>, b: seq<Piece>)
    requires RightPieces(chunks, before, open, a)
    requires RightPieces(chunks, before + AllRaw(a), OpenAfter(open, a), b)
    ensures RightPieces(chunks, before, open, a + b)
    decreases |a|
  {
    if a == [] {
      assert before + AllRaw(a) == before;
      assert a + b == b;
    } else {
      hide RightPiece, Raw;
      Assoc(before, Raw(a[0]), AllRaw(a[1..]));
      assert RightPiece(chunks, before, open, a[0]) && RightPieces(chunks, before + Raw(a[0]), a[0].Command?, a[1..]);
      hide RightPieces, AllRaw;
      RightAppend(chunks, before + Raw(a[0]), a[0].Command?, a[1..], b);
      RightCons(chunks, before, open, a[0], a[1..] + b);
      ConsAppend(a, b);
    }
  }

  lemma {:induction false} RightPieceAt(chunks: seq<string>, before: string, open: bool, pieces: seq<Piece>, i: nat)
    requires RightPieces(chunks, before, open, pieces) && i < |pieces|
    ensures RightPiece(chunks, before + AllRaw(pieces[..i]), if i == 0 then open else pieces[i - 1].Command?, pieces[i])
    decreases i
  {
    hide RightPiece;
    if i == 0 {
      assert before + AllRaw(pieces[..0]) == before;
    } else {
      RightPieceAt(chunks, before + Raw(pieces[0]), pieces[0].Command?, pieces[1..], i - 1);
      assert pieces[1..][..i - 1] == pieces[..i][1..];
      Assoc(before, Raw(pieces[0]), AllRaw(pieces[1..][..i - 1]));
    }
  }

  // ---------- during one chunk ----------

  /** `buffer` and `c` end alike. */
  predicate SameEnd(buffer: string, c: string) {
    if |c| <= |buffer| then buffer[|buffer| - |c|..] == c else buffer == c[|c| - |buffer|..]
  }

  lemma {:induction false} SameEndOfSuffix(buffer: string, c: string, i: nat)
    requires SameEnd(buffer, c) && i <= |buffer|
    ensures SameEnd(buffer[i..], c)
  {
  }

  lemma {:induction false} SameBytesIsSame(buffer: string, c: string)
    requires SameEnd(buffer, c) && ByteLen(buffer) == ByteLen(c)
    ensures buffer == c
  {
    if |c| <= |buffer| {
      var x := buffer[..|buffer| - |c|];
      assert buffer == x + c;
      ByteLenAppend(x, c);
    } else {
      var x := c[..|c| - |buffer|];
      assert c == x + buffer;
      ByteLenAppend(x, buffer);
    }
  }

  predicate FirstIsDollar(buffer: string) {
    buffer != "" && buffer[0] == '$'
  }

  /** The buffer's newlines stand at `q` or later in the stream. */
  predicate NewlinesFrom(buffer: string, start: nat, q: nat) {
    forall j :: 0 <= j < |buffer| && buffer[j] == '\n' ==> q <= start + j
  }

  /** So do the starts of its later `$` lines. */
  predicate DollarsFrom(buffer: string, start: nat, q: nat) {
    forall j :: 0 <= j < |buffer| - 1 && buffer[j] == '\n' && buffer[j + 1] == '$' ==> q <= start + j + 1
  }

  /** While chunk `k` is worked on. */
  ghost predicate InChunk(chunks: seq<string>, k: nat, p: Parser, before: string, open: bool) {
    && k < |chunks| && !p.codeMode && (open ==> LineStart(before))
    && var q := |Concat(chunks[..k])|;
       && |before| + |p.buffer| == q + |chunks[k]| && SameEnd(p.buffer, chunks[k])
       && match p.state
          case InExecuteBlock => false
          case InCommand => NewlinesFrom(p.buffer, |before|, q) && (open ==> StartsChunk(chunks, |before|))
          case Normal =>
            && DollarsFrom(p.buffer, |before|, q)
            && (open && FirstIsDollar(p.buffer) && |before| < q ==> !StartsChunk(chunks, |before|))
            && (!open ==> p.buffer != "" && !(LineStart(before) && FirstIsDollar(p.buffer)))
  }

  /** Between two chunks, with `q` characters fed. */
  ghost predicate AtRest(chunks: seq<string>, q: nat, p: Parser, before: string, open: bool) {
    && !p.codeMode && (open ==> LineStart(before)) && |before| + |p.buffer| == q
    && match p.state
       case InExecuteBlock => false
       case InCommand => open ==> StartsChunk(chunks, |before|)
       case Normal =>
         && (open && FirstIsDollar(p.buffer) ==> !StartsChunk(chunks, |before|))
         && (!open ==> p.buffer != "" && !(LineStart(before) && FirstIsDollar(p.buffer)))
  }

  lemma {:induction false} LacksMeans(text: string, j: nat)
    requires !Contains(text, DOLLAR_LINE) && j + 1 < |text|
    ensures !(text[j] == '\n' && text[j + 1] == '$')
  {
    NewlineThenDollar(text, j);
  }

  lemma {:induction false} ChunkArrives(chunks: seq<string>, k: nat, p: Parser, before: string, open: bool)
    requires k < |chunks| && AtRest(chunks, |Concat(chunks[..k])|, p, before, open) && Settled(p, before)
    ensures InChunk(chunks, k, p.(buffer := p.buffer + chunks[k]), before, open)
  {
    hide StartsChunk, Contains;
    var q := |Concat(chunks[..k])|;
    var buffer := p.buffer + chunks[k];
    if p.state.Normal? {
      forall j | 0 <= j < |buffer| - 1 && buffer[j] == '\n' && buffer[j + 1] == '$' ensures q <= |before| + j + 1 {
        if j + 1 < |p.buffer| {
          LacksMeans(p.buffer, j);
        }
      }
    }
  }

  /** A `$` that the loop leaves at the front of the buffer does not start a chunk. */
  lemma {:induction false} NotTakenMeans(chunks: seq<string>, k: nat, p: Parser, before: string, open: bool)
    requires InChunk(chunks, k, p, before, open) && p.state.Normal? && open && FirstIsDollar(p.buffer)
    requires Contains(p.buffer, DOLLAR_LINE) || ByteLen(p.buffer) != ByteLen(chunks[k])
    ensures !StartsChunk(chunks, |before|)
  {
    hide Contains, StartsChunk;
    if |before| >= |Concat(chunks[..k])| {
      OnlyItsChunkStarts(chunks, k, |before|);
      if |before| == |Concat(chunks[..k])| {
        assert p.buffer == chunks[k];
      }
    }
  }

  /** What one turn has to give. */
  ghost predicate RightTurn(chunks: seq<string>, k: nat, before: string, open: bool, turn: Turn)
    requires k < |chunks|
  {
    && (turn.piece.Some? ==> RightPiece(chunks, before, open, turn.piece.value))
    && var after := before + if turn.piece.Some? then Raw(turn.piece.value) else "";
       var open' := if turn.piece.Some? then turn.piece.value.Command? else open;
       if turn.goOn then InChunk(chunks, k, turn.next, after, open')
       else AtRest(chunks, |Concat(chunks[..k])| + |chunks[k]|, turn.next, after, open')
  }

  lemma {:induction false} CommandTurnIsRight(chunks: seq<string>, k: nat, p: Parser, before: string, open: bool)
    requires p.state.InCommand? && InChunk(chunks, k, p, before, open)
    ensures RightTurn(chunks, k, before, open, CommandTurn(p))
  {
    hide StartsChunk;
    var newline := FindFrom(p.buffer, "\n", 0);
    if newline.Some? {
      FoundAt(p.buffer, "\n");
      SameEndOfSuffix(p.buffer, chunks[k], newline.value + 1);
    } else {
      assert before + "" == before;
    }
  }

  /** The text before a `$` line, as a piece. */
  lemma {:induction false} LinesAreRight(chunks: seq<string>, k: nat, p: Parser, before: string, open: bool, i: nat)
    requires p.state.Normal? && InChunk(chunks, k, p, before, open)
    requires i < |p.buffer| && p.buffer[i] == '\n' && Contains(p.buffer, DOLLAR_LINE)
    ensures RightPiece(chunks, before, open, Lines(p.buffer[..i] + "\n"))
  {
    hide StartsChunk, Contains;
    var raw := p.buffer[..i] + "\n";
    assert raw[0] == p.buffer[0];
    if LineStart(before) && raw[0] == '$' {
      NotTakenMeans(chunks, k, p, before, open);
    }
  }

  /** The parser with that `$` line at the front of its buffer. */
  lemma {:induction false} DollarLineIsInFront(chunks: seq<string>, k: nat, p: Parser, before: string, open: bool, i: nat)
    requires p.state.Normal? && InChunk(chunks, k, p, before, open)
    requires i + 1 < |p.buffer| && p.buffer[i] == '\n' && p.buffer[i + 1] == '$'
    ensures InChunk(chunks, k, p.(buffer := p.buffer[i + 1..], state := InCommand), before + (p.buffer[..i] + "\n"), false)
  {
    hide StartsChunk;
    SameEndOfSuffix(p.buffer, chunks[k], i + 1);
  }

  lemma {:induction false} LinesTurnIsRight(chunks: seq<string>, k: nat, p: Parser, before: string, open: bool, i: nat)
    requires p.state.Normal? && InChunk(chunks, k, p, before, open)
    requires FindFrom(p.buffer, DOLLAR_LINE, 0) == Some(i)
    ensures RightTurn(chunks, k, before, open, DollarTurn(p, ByteLen(chunks[k])))
  {
    FoundAt(p.buffer, DOLLAR_LINE);
    FindFromSpec(p.buffer, DOLLAR_LINE, 0);
    hide FindFrom, InChunk, RightPiece;
    NewlineThenDollar(p.buffer, i);
    assert "$" + p.buffer[i + 2..] == p.buffer[i + 1..];
    LinesAreRight(chunks, k, p, before, open, i);
    DollarLineIsInFront(chunks, k, p, before, open, i);
  }

  lemma {:induction false} HeldRaw(before: string, buffer: string, cut: nat)
    requires 0 < cut < |buffer|
    ensures AllRaw([Held(buffer[..cut])]) == buffer[..cut] && buffer[..cut][0] == buffer[0]
    ensures (before + buffer[..cut])[|before| + cut - 1] == buffer[cut - 1]
  {
    assert [Held(buffer[..cut])][1..] == [];
    assert buffer[..cut] + "" == buffer[..cut];
  }

  lemma {:induction false} HoldBackTurnIsRight(chunks: seq<string>, k: nat, p: Parser, before: string, open: bool)
    requires p.state.Normal? && InChunk(chunks, k, p, before, open)
    requires !Contains(p.buffer, DOLLAR_LINE)
    requires FirstIsDollar(p.buffer) ==> ByteLen(p.buffer) != ByteLen(chunks[k])
    ensures RightTurn(chunks, k, before, open, HoldBackTurn(p))
  {
    hide StartsChunk, Contains;
    if open && FirstIsDollar(p.buffer) {
      NotTakenMeans(chunks, k, p, before, open);
    }
    assert before + "" == before;
    if HoldBackTurn(p).piece.Some? {
      var cut := |p.buffer| - HoldBack(p);
      LacksMeans(p.buffer, cut - 1);
      HeldRaw(before, p.buffer, cut);
    }
  }

  lemma {:induction false} DollarTurnIsRight(chunks: seq<string>, k: nat, p: Parser, before: string, open: bool)
    requires p.state.Normal? && InChunk(chunks, k, p, before, open) && Aligned(p, before, ByteLen(chunks[k]))
    ensures RightTurn(chunks, k, before, open, DollarTurn(p, ByteLen(chunks[k])))
  {
    hide StartsChunk, HoldBackTurn;
    var dollar := FindFrom(p.buffer, DOLLAR_LINE, 0);
    assert p.buffer != "" ==> p.buffer[..1] == [p.buffer[0]];
    if dollar.Some? {
      LinesTurnIsRight(chunks, k, p, before, open, dollar.value);
    } else {
      LacksWhenNotFound(p.buffer, DOLLAR_LINE);
      hide Contains;
      if StartsWith(p.buffer, "$") && ByteLen(p.buffer) == ByteLen(chunks[k]) {
        SameBytesIsSame(p.buffer, chunks[k]);
        assert before + "" == before;
        assert [p.buffer[0]] == "$";
        OnlyItsChunkStarts(chunks, k, |before|);
      } else {
        assert FirstIsDollar(p.buffer) ==> StartsWith(p.buffer, "$");
        HoldBackTurnIsRight(chunks, k, p, before, open);
      }
    }
  }

  lemma {:induction false} TurnIsRight(chunks: seq<string>, k: nat, p: Parser, before: string, open: bool)
    requires InChunk(chunks, k, p, before, open) && Aligned(p, before, ByteLen(chunks[k]))
    ensures RightTurn(chunks, k, before, open, Take(p, ByteLen(chunks[k])))
  {
    hide RightTurn, Aligned, CommandTurn, DollarTurn;
    if p.state.InCommand? {
      CommandTurnIsRight(chunks, k, p, before, open);
    } else {
      DollarTurnIsRight(chunks, k, p, before, open);
    }
  }

  lemma {:induction false} RightOne(chunks: seq<string>, before: string, open: bool, turn: Turn)
    requires turn.piece.Some? ==> RightPiece(chunks, before, open, turn.piece.value)
    ensures RightPieces(chunks, before, open, Pieces(turn))
    ensures before + AllRaw(Pieces(turn)) == before + if turn.piece.Some? then Raw(turn.piece.value) else ""
    ensures OpenAfter(open, Pieces(turn)) == if turn.piece.Some? then turn.piece.value.Command? else open
  {
    AllRawOne(turn);
    hide RightPiece;
    if turn.piece.Some? {
      assert Pieces(turn)[1..] == [];
    }
  }

  lemma {:induction false} OpenAfterAppend(open: bool, a: seq<Piece>, b: seq<Piece>)
    ensures OpenAfter(open, a + b) == OpenAfter(OpenAfter(open, a), b)
  {
  }

  lemma {:induction false} ProcessIsRight(chunks: seq<string>, k: nat, p: Parser, before: string, open: bool)
    requires InChunk(chunks, k, p, before, open) && Aligned(p, before, ByteLen(chunks[k]))
    ensures var (pieces, end) := Process(p, ByteLen(chunks[k]));
            && RightPieces(chunks, before, open, pieces)
            && AtRest(chunks, |Concat(chunks[..k])| + |chunks[k]|, end, before + AllRaw(pieces), OpenAfter(open, pieces))
    decreases |p.buffer|, if p.state.Normal? then 1 else 0
  {
    var bytes := ByteLen(chunks[k]);
    var turn := Take(p, bytes);
    TurnIsRight(chunks, k, p, before, open);
    TurnIsGood(p, before, bytes);
    RightOne(chunks, before, open, turn);
    var after := before + AllRaw(Pieces(turn));
    hide Aligned, InChunk, AtRest, RightPiece, RightPieces, AllRaw, Take, OpenAfter;
    if turn.goOn {
      ProcessIsRight(chunks, k, turn.next, after, OpenAfter(open, Pieces(turn)));
      var (pieces, end) := Process(turn.next, bytes);
      RightAppend(chunks, before, open, Pieces(turn), pieces);
      AllRawAppend(Pieces(turn), pieces);
      OpenAfterAppend(open, Pieces(turn), pieces);
      Assoc(before, AllRaw(Pieces(turn)), AllRaw(pieces));
    }
  }

  lemma {:induction false} DrainIsRight(chunks: seq<string>, p: Parser, before: string, open: bool, q: nat)
    requires AtRest(chunks, q, p, before, open)
    ensures RightPieces(chunks, before, open, Drain(p).0)
  {
    hide StartsChunk;
    if p.buffer != "" {
      var pieces := Drain(p).0;
      assert RightPiece(chunks, before, open, pieces[0]);
      assert pieces[1..] == [];
    }
  }

  lemma {:induction false} ParseIsRight(chunks: seq<string>, k: nat, p: Parser, before: string, open: bool)
    requires k <= |chunks| && AtRest(chunks, |Concat(chunks[..k])|, p, before, open) && Settled(p, before)
    ensures RightPieces(chunks, before, open, ParseAll(p, chunks[k..]))
    decreases |chunks| - k
  {
    hide AtRest, Settled, RightPiece, RightPieces, AllRaw, Process, InChunk, OpenAfter;
    if k == |chunks| {
      DrainIsRight(chunks, p, before, open, |Concat(chunks[..k])|);
    } else {
      assert chunks[k..][0] == chunks[k] && chunks[k..][1..] == chunks[k + 1..];
      var fed := p.(buffer := p.buffer + chunks[k]);
      ChunkArrives(chunks, k, p, before, open);
      SettledIsAligned(p, before, chunks[k]);
      ProcessIsRight(chunks, k, fed, before, open);
      ProcessIsGood(fed, before, ByteLen(chunks[k]));
      NextOffset(chunks, k);
      var (pieces, next) := Feed(p, chunks[k]);
      ParseIsRight(chunks, k + 1, next, before + AllRaw(pieces), OpenAfter(open, pieces));
      RightAppend(chunks, before, open, pieces, ParseAll(next, chunks[k + 1..]));
    }
  }

  // ---------- from pieces to lines ----------

  /** The pieces of a stream outside code mode. */
  function PiecesOf(chunks: seq<string>): seq<Piece> {
    ParseAll(NewParser(false), chunks)
  }

  function StartOf(pieces: seq<Piece>, i: nat): nat
    requires i <= |pieces|
  {
    |AllRaw(pieces[..i])|
  }

  /** All there is to know about one piece. */
  lemma {:induction false} PieceIsRight(chunks: seq<string>, i: nat)
    requires i < |PiecesOf(chunks)|
    ensures var pieces := PiecesOf(chunks);
            var before, after := AllRaw(pieces[..i]), AllRaw(pieces[i + 1..]);
            && GoodPiece(before, pieces[i], false) && Concat(chunks) == before + Raw(pieces[i]) + after
            && (CutOff(pieces[i]) ==> after == "")
            && RightPiece(chunks, before, i == 0 || pieces[i - 1].Command?, pieces[i])
  {
    PieceInStream(false, chunks, i);
    NewIsSettled(false);
    assert chunks[0..] == chunks && chunks[..0] == [];
    assert AtRest(chunks, 0, NewParser(false), "", true);
    ParseIsRight(chunks, 0, NewParser(false), "", true);
    hide ParseAll, RightPiece, GoodPiece, RightPieces;
    RightPieceAt(chunks, "", true, PiecesOf(chunks), i);
    assert "" + AllRaw(PiecesOf(chunks)[..i]) == AllRaw(PiecesOf(chunks)[..i]);
  }

  lemma {:induction false} NextStart(pieces: seq<Piece>, i: nat)
    requires i < |pieces|
    ensures AllRaw(pieces[..i + 1]) == AllRaw(pieces[..i]) + Raw(pieces[i])
  {
    hide Raw;
    assert pieces[..i + 1] == pieces[..i] + [pieces[i]];
    AllRawAppend(pieces[..i], [pieces[i]]);
    assert [pieces[i]][1..] == [];
    assert Raw(pieces[i]) + "" == Raw(pieces[i]);
  }

  lemma {:induction false} StartsGrow(pieces: seq<Piece>, i: nat, j: nat)
    requires i <= j <= |pieces|
    ensures StartOf(pieces, i) <= StartOf(pieces, j)
    decreases j
  {
    if i < j {
      NextStart(pieces, j - 1);
      StartsGrow(pieces, i, j - 1);
    }
  }

  /** No piece is empty, so no two start alike. */
  lemma {:induction false} StartsDiffer(chunks: seq<string>, i: nat, j: nat)
    requires i < j <= |PiecesOf(chunks)|
    ensures StartOf(PiecesOf(chunks), i) < StartOf(PiecesOf(chunks), j)
  {
    var pieces := PiecesOf(chunks);
    PieceIsRight(chunks, i);
    hide PiecesOf, AllRaw, GoodPiece;
    NextStart(pieces, i);
    StartsGrow(pieces, i + 1, j);
  }

  /** The piece that holds the character at `o`. */
  lemma {:induction false} PieceHolding(pieces: seq<Piece>, n: nat, o: nat) returns (i: nat)
    requires n <= |pieces| && o < StartOf(pieces, n)
    ensures i < n && StartOf(pieces, i) <= o < StartOf(pieces, i) + |Raw(pieces[i])|
    decreases n
  {
    assert pieces[..0] == [];
    NextStart(pieces, n - 1);
    if StartOf(pieces, n - 1) <= o {
      i := n - 1;
    } else {
      i := PieceHolding(pieces, n - 1, o);
    }
  }

  /** A piece has no `$` line but at its start. */
  lemma {:induction false} NoLineInside(before: string, piece: Piece, j: nat)
    requires GoodPiece(before, piece, false) && 0 < j < |Raw(piece)|
    ensures !(Raw(piece)[j - 1] == '\n' && Raw(piece)[j] == '$')
  {
    hide Contains;
    if CommandLine(piece).None? {
      LacksMeans(Raw(piece), j - 1);
    }
  }

  /** Every `$` line starts a piece. */
  lemma {:induction false} LineStartsPiece(chunks: seq<string>, o: nat) returns (i: nat)
    requires DollarAt(Concat(chunks), o)
    ensures i < |PiecesOf(chunks)| && StartOf(PiecesOf(chunks), i) == o
  {
    var pieces, text := PiecesOf(chunks), Concat(chunks);
    PiecesTileTheStream(false, chunks);
    assert pieces[..|pieces|] == pieces;
    i := PieceHolding(pieces, |pieces|, o);
    PieceIsRight(chunks, i);
    hide PiecesOf, GoodPiece, RightPiece, AllRaw;
    var before, raw := AllRaw(pieces[..i]), Raw(pieces[i]);
    if o > |before| {
      var j := o - |before|;
      assert text[o] == raw[j] && text[o - 1] == raw[j - 1];
      NoLineInside(before, pieces[i], j);
    }
  }

  /** The `$` line at `o` is taken as a command, whole or cut off by the end of the stream. */
  ghost predicate Taken(chunks: seq<string>, o: nat) {
    exists i: nat :: i < |PiecesOf(chunks)| && StartOf(PiecesOf(chunks), i) == o && CommandLine(PiecesOf(chunks)[i]).Some?
  }

  /** Where the line that holds position `e` starts. */
  function StartOfLine(text: string, e: nat): (p: nat)
    requires e <= |text|
    ensures p <= e && (p == 0 || text[p - 1] == '\n') && forall j :: p <= j < e ==> text[j] != '\n'
  {
    if e == 0 || text[e - 1] == '\n' then e else StartOfLine(text, e - 1)
  }

  lemma {:induction false} StartOfLineIs(text: string, e: nat, p: nat)
    requires p <= e <= |text| && (p == 0 || text[p - 1] == '\n') && forall j :: p <= j < e ==> text[j] != '\n'
    ensures StartOfLine(text, e) == p
    decreases e
  {
    if p < e {
      StartOfLineIs(text, e - 1, p);
    }
  }

  /** Whether the `$` line at `o` runs, from the chunks alone: after a `$` line that runs, and at the
      start of the stream, it has to start a chunk that has no second `$` line; after any other line
      it always runs. */
  ghost predicate Runs(chunks: seq<string>, o: nat)
    requires DollarAt(Concat(chunks), o)
    decreases o
  {
    if o == 0 then StartsChunk(chunks, 0)
    else
      var p := StartOfLine(Concat(chunks), o - 1);
      DollarAt(Concat(chunks), p) && Runs(chunks, p) ==> StartsChunk(chunks, o)
  }

  /** A piece that starts with a `$` line is a command exactly as the chunks say. */
  lemma {:induction false} CommandIffStarts(chunks: seq<string>, i: nat)
    requires i < |PiecesOf(chunks)| && DollarAt(Concat(chunks), StartOf(PiecesOf(chunks), i))
    ensures var pieces := PiecesOf(chunks);
            CommandLine(pieces[i]).Some? <==>
              (i == 0 || pieces[i - 1].Command? ==> StartsChunk(chunks, StartOf(pieces, i)))
  {
    var pieces, text := PiecesOf(chunks), Concat(chunks);
    PieceIsRight(chunks, i);
    hide PiecesOf, GoodPiece, StartsChunk, AllRaw, Raw;
    var before := AllRaw(pieces[..i]);
    assert text[|before|] == Raw(pieces[i])[0];
    assert before != "" ==> text[|before| - 1] == before[|before| - 1];
  }

  /** A `$` line and its newline, in the text. */
  lemma {:induction false} LineStands(before: string, line: string, after: string)
    requires LineStart(before) && DollarLine(line)
    ensures var text := before + line + "\n" + after;
            && |before| + |line| < |text| && StartOfLine(text, |before| + |line|) == |before| && DollarAt(text, |before|)
  {
    var text := before + line + "\n" + after;
    assert before != "" ==> text[|before| - 1] == before[|before| - 1];
    forall j | |before| <= j < |before| + |line| ensures text[j] == line[j - |before|] {}
    StartOfLineIs(text, |before| + |line|, |before|);
  }

  /** A newline at `o - 1` whose line is this one ends this line. */
  lemma {:induction false} LineEnds(before: string, line: string, rest: string, o: nat)
    requires DollarLine(line) && 0 < o < |before + line + rest|
    requires var text := before + line + rest; text[o - 1] == '\n' && StartOfLine(text, o - 1) == |before|
    ensures rest != "" && (rest[0] == '\n' ==> o == |before| + |line| + 1)
  {
    var text := before + line + rest;
    forall j | |before| <= j < |before| + |line| ensures text[j] == line[j - |before|] {}
    assert o - 1 >= |before| + |line|;
    assert text[|before| + |line|] == rest[0];
  }

  /** A command that ends right before `o` is the line before it. */
  lemma {:induction false} CommandBefore(chunks: seq<string>, i: nat)
    requires i < |PiecesOf(chunks)| && PiecesOf(chunks)[i].Command?
    ensures var p, o := StartOf(PiecesOf(chunks), i), StartOf(PiecesOf(chunks), i + 1);
            p < o <= |Concat(chunks)| && StartOfLine(Concat(chunks), o - 1) == p && DollarAt(Concat(chunks), p)
  {
    var pieces := PiecesOf(chunks);
    PieceIsRight(chunks, i);
    NextStart(pieces, i);
    var before, after, line := AllRaw(pieces[..i]), AllRaw(pieces[i + 1..]), pieces[i].line;
    hide PiecesOf, RightPiece, AllRaw, DollarAt, StartOfLine;
    Assoc(before, line, "\n");
    LineStands(before, line, after);
  }

  /** A command whose line ends right before `o` ends there itself. */
  lemma {:induction false} LineBefore(chunks: seq<string>, j: nat, o: nat)
    requires j < |PiecesOf(chunks)| && CommandLine(PiecesOf(chunks)[j]).Some?
    requires 0 < o < |Concat(chunks)| && Concat(chunks)[o - 1] == '\n'
    requires StartOfLine(Concat(chunks), o - 1) == StartOf(PiecesOf(chunks), j)
    ensures PiecesOf(chunks)[j].Command? && StartOf(PiecesOf(chunks), j + 1) == o
  {
    var pieces := PiecesOf(chunks);
    PieceIsRight(chunks, j);
    NextStart(pieces, j);
    var before, after, line := AllRaw(pieces[..j]), AllRaw(pieces[j + 1..]), CommandLine(pieces[j]).value;
    var rest := if pieces[j].Command? then "\n" + after else "";
    assert Concat(chunks) == before + line + rest by {
      Assoc(before, line, "\n");
      Assoc(before + line, "\n", after);
    }
    hide PiecesOf, RightPiece, AllRaw, Raw, StartOfLine;
    LineEnds(before, line, rest, o);
  }

  lemma {:induction false} SamePiece(chunks: seq<string>, i: nat, j: nat)
    requires i <= |PiecesOf(chunks)| && j <= |PiecesOf(chunks)|
    requires StartOf(PiecesOf(chunks), i) == StartOf(PiecesOf(chunks), j)
    ensures i == j
  {
    hide PiecesOf, StartOf;
    if i < j {
      StartsDiffer(chunks, i, j);
    } else if j < i {
      StartsDiffer(chunks, j, i);
    }
  }

  lemma {:induction false} TakenMeans(chunks: seq<string>, i: nat)
    requires i < |PiecesOf(chunks)|
    ensures Taken(chunks, StartOf(PiecesOf(chunks), i)) <==> CommandLine(PiecesOf(chunks)[i]).Some?
  {
    hide PiecesOf, StartOf;
    var o := StartOf(PiecesOf(chunks), i);
    if Taken(chunks, o) {
      var j: nat :| j < |PiecesOf(chunks)| && StartOf(PiecesOf(chunks), j) == o && CommandLine(PiecesOf(chunks)[j]).Some?;
      SamePiece(chunks, i, j);
    }
  }

  /** A `$` line that was taken and ends right before piece `i` is the piece before it. */
  lemma {:induction false} TakenIsBefore(chunks: seq<string>, i: nat)
    requires 0 < i < |PiecesOf(chunks)|
    requires var o := StartOf(PiecesOf(chunks), i);
      && 0 < o < |Concat(chunks)| && Concat(chunks)[o - 1] == '\n' && Taken(chunks, StartOfLine(Concat(chunks), o - 1))
    ensures PiecesOf(chunks)[i - 1].Command?
  {
    hide PiecesOf, StartOfLine, Concat, StartOf;
    var o := StartOf(PiecesOf(chunks), i);
    var p := StartOfLine(Concat(chunks), o - 1);
    var j: nat :| j < |PiecesOf(chunks)| && StartOf(PiecesOf(chunks), j) == p && CommandLine(PiecesOf(chunks)[j]).Some?;
    LineBefore(chunks, j, o);
    SamePiece(chunks, j + 1, i);
  }

  /** A piece that does not start the stream comes right after a command exactly when the line before
      it is a `$` line that was taken. */
  lemma {:induction false} OpenMeans(chunks: seq<string>, i: nat)
    requires 0 < i < |PiecesOf(chunks)| && DollarAt(Concat(chunks), StartOf(PiecesOf(chunks), i))
    ensures 0 < StartOf(PiecesOf(chunks), i) <= |Concat(chunks)|
    ensures var p := StartOfLine(Concat(chunks), StartOf(PiecesOf(chunks), i) - 1);
            PiecesOf(chunks)[i - 1].Command? <==> DollarAt(Concat(chunks), p) && Taken(chunks, p)
  {
    hide PiecesOf, StartOfLine, Concat;
    var o := StartOf(PiecesOf(chunks), i);
    StartsDiffer(chunks, 0, i);
    assert 0 < o < |Concat(chunks)| && Concat(chunks)[o - 1] == '\n';
    hide StartOf, Taken;
    if PiecesOf(chunks)[i - 1].Command? {
      CommandBefore(chunks, i - 1);
      TakenMeans(chunks, i - 1);
    } else if Taken(chunks, StartOfLine(Concat(chunks), o - 1)) {
      TakenIsBefore(chunks, i);
    }
  }

  /** Which `$` lines run, for every stream and every way of cutting it into chunks: the line at `o` is
      taken as a command exactly when the chunks say so. */
  lemma {:induction false} WhichLinesRun(chunks: seq<string>, o: nat)
    requires DollarAt(Concat(chunks), o)
    ensures Taken(chunks, o) <==> Runs(chunks, o)
    decreases o
  {
    var i := LineStartsPiece(chunks, o);
    CommandIffStarts(chunks, i);
    TakenMeans(chunks, i);
    assert PiecesOf(chunks)[..0] == [];
    hide PiecesOf, Taken, StartsChunk, DollarAt, AllRaw;
    if i > 0 {
      OpenMeans(chunks, i);
      var p := StartOfLine(Concat(chunks), o - 1);
      if DollarAt(Concat(chunks), p) {
        WhichLinesRun(chunks, p);
      }
    }
  }

  /** The line at `o` starts the stream or follows a `$` line directly. */
  predicate Critical(text: string, o: nat)
    requires o <= |text|
  {
    o == 0 || DollarAt(text, StartOfLine(text, o - 1))
  }

  /** Every `$` line runs exactly when each of them that starts the stream or directly follows another
      starts a chunk that has no second one. */
  lemma {:induction false} AllLinesRunIff(chunks: seq<string>)
    ensures (forall o: nat :: DollarAt(Concat(chunks), o) ==> Taken(chunks, o)) <==>
            (forall o: nat :: DollarAt(Concat(chunks), o) && Critical(Concat(chunks), o) ==> StartsChunk(chunks, o))
  {
    hide StartsChunk, Taken;
    var text := Concat(chunks);
    if forall o: nat :: DollarAt(text, o) ==> Taken(chunks, o) {
      forall o: nat | DollarAt(text, o) && Critical(text, o) ensures StartsChunk(chunks, o) {
        WhichLinesRun(chunks, o);
        if o > 0 {
          WhichLinesRun(chunks, StartOfLine(text, o - 1));
        }
      }
    }
    if forall o: nat :: DollarAt(text, o) && Critical(text, o) ==> StartsChunk(chunks, o) {
      forall o: nat | DollarAt(text, o) ensures Taken(chunks, o) {
        WhichLinesRun(chunks, o);
      }
    }
  }

  // ---------- what runs, as a function of the chunks ----------

  /** The rest of the line at `o`. */
  function LineFrom(text: string, o: nat): string
    requires o <= |text|
    decreases |text| - o
  {
    if o == |text| || text[o] == '\n' then "" else [text[o]] + LineFrom(text, o + 1)
  }

  lemma {:induction false} LineFromIs(text: string, o: nat, e: nat)
    requires o <= e <= |text| && (e == |text| || text[e] == '\n') && forall j :: o <= j < e ==> text[j] != '\n'
    ensures LineFrom(text, o) == text[o..e]
    decreases e - o
  {
    if o < e {
      LineFromIs(text, o + 1, e);
      assert text[o..e] == [text[o]] + text[o + 1..e];
    }
  }

  lemma {:induction false} WholeLineIs(text: string, o: nat, line: string)
    requires WholeDollarLine(text, o, line)
    ensures DollarAt(text, o) && LineFrom(text, o) == line
  {
    assert text[o] == text[o..o + |line|][0];
    forall j | o <= j < o + |line| ensures text[j] != '\n' {
      assert text[j] == text[o..o + |line|][j - o];
    }
    LineFromIs(text, o, o + |line|);
  }

  /** The commands of the `$` lines from `o` on that run, in order; empty ones run nothing. */
  ghost function CommandsFrom(chunks: seq<string>, o: nat): seq<EmulatorAction>
    requires o <= |Concat(chunks)|
    decreases |Concat(chunks)| - o
  {
    var text := Concat(chunks);
    if o == |text| then []
    else (if DollarAt(text, o) && Runs(chunks, o) then ShellUnlessEmpty(LineFrom(text, o)[1..]) else []) + CommandsFrom(chunks, o + 1)
  }

  lemma {:induction false} NothingRunsBetween(chunks: seq<string>, a: nat, b: nat)
    requires a <= b <= |Concat(chunks)| && forall o: nat :: a <= o < b ==> !DollarAt(Concat(chunks), o)
    ensures CommandsFrom(chunks, a) == CommandsFrom(chunks, b)
    decreases b - a
  {
    hide Concat, DollarAt, Runs, ShellUnlessEmpty, LineFrom;
    if a < b {
      NothingRunsBetween(chunks, a + 1, b);
      assert [] + CommandsFrom(chunks, a + 1) == CommandsFrom(chunks, a + 1);
    }
  }

  /** No `$` line starts inside a piece. */
  lemma {:induction false} NothingStartsInside(chunks: seq<string>, i: nat, o: nat)
    requires i < |PiecesOf(chunks)| && StartOf(PiecesOf(chunks), i) < o < StartOf(PiecesOf(chunks), i + 1)
    ensures !DollarAt(Concat(chunks), o)
  {
    hide PiecesOf, DollarAt, StartOf;
    if DollarAt(Concat(chunks), o) {
      var j := LineStartsPiece(chunks, o);
      if j <= i {
        StartsGrow(PiecesOf(chunks), j, i);
      } else {
        StartsGrow(PiecesOf(chunks), i + 1, j);
      }
    }
  }

  lemma {:induction false} TextsRunNothing(actions: seq<EmulatorAction>)
    requires forall a <- actions :: a.Text?
    ensures Commands(actions) == []
    decreases |actions|
  {
    if actions != [] {
      TextsRunNothing(actions[1..]);
    }
  }

  /** What a piece runs is what its first position says. */
  lemma {:induction false} PieceRuns(chunks: seq<string>, i: nat)
    requires i < |PiecesOf(chunks)|
    ensures var pieces, text := PiecesOf(chunks), Concat(chunks);
            var o := StartOf(pieces, i);
            && o < |text|
            && Commands(Emitted(pieces[i])) ==
               if DollarAt(text, o) && Runs(chunks, o) then ShellUnlessEmpty(LineFrom(text, o)[1..]) else []
  {
    var pieces, text := PiecesOf(chunks), Concat(chunks);
    var o := StartOf(pieces, i);
    PieceIsRight(chunks, i);
    OnlyWholeLinesRun(chunks, i);
    hide PiecesOf, Concat, StartOf, WholeDollarLine, Emitted, Runs, GoodPiece;
    TakenMeans(chunks, i);
    hide Taken;
    if DollarAt(text, o) {
      WhichLinesRun(chunks, o);
    }
    hide DollarAt;
    if CommandLine(pieces[i]).Some? {
      WholeLineIs(text, o, CommandLine(pieces[i]).value);
      CommandsOfCommand(CommandLine(pieces[i]).value[1..]);
    } else {
      TextsRunNothing(Emitted(pieces[i]));
    }
  }

  lemma {:induction false} CommandsOfPiece(chunks: seq<string>, i: nat)
    requires i < |PiecesOf(chunks)|
    ensures var pieces := PiecesOf(chunks);
            && StartOf(pieces, i) < StartOf(pieces, i + 1) <= |Concat(chunks)|
            && CommandsFrom(chunks, StartOf(pieces, i)) ==
               Commands(Emitted(pieces[i])) + CommandsFrom(chunks, StartOf(pieces, i + 1))
  {
    hide PiecesOf, Concat, StartOf, Runs, DollarAt, LineFrom, Emitted, Commands, ShellUnlessEmpty;
    var o, next := StartOf(PiecesOf(chunks), i), StartOf(PiecesOf(chunks), i + 1);
    StartsDiffer(chunks, i, i + 1);
    StartsInside(chunks, i + 1);
    PieceRuns(chunks, i);
    forall p: nat | o + 1 <= p < next ensures !DollarAt(Concat(chunks), p) {
      NothingStartsInside(chunks, i, p);
    }
    NothingRunsBetween(chunks, o + 1, next);
  }

  lemma {:induction false} StartsInside(chunks: seq<string>, i: nat)
    requires i <= |PiecesOf(chunks)|
    ensures StartOf(PiecesOf(chunks), i) <= |Concat(chunks)|
    ensures i == |PiecesOf(chunks)| ==> StartOf(PiecesOf(chunks), i) == |Concat(chunks)|
  {
    var pieces := PiecesOf(chunks);
    PiecesTileTheStream(false, chunks);
    assert pieces[..|pieces|] == pieces;
    StartsGrow(pieces, i, |pieces|);
  }

  lemma {:induction false} CommandsFromPiece(chunks: seq<string>, i: nat)
    requires i <= |PiecesOf(chunks)| && StartOf(PiecesOf(chunks), i) <= |Concat(chunks)|
    ensures Commands(AllEmitted(PiecesOf(chunks)[i..])) == CommandsFrom(chunks, StartOf(PiecesOf(chunks), i))
    decreases |PiecesOf(chunks)| - i
  {
    var pieces := PiecesOf(chunks);
    if i == |pieces| {
      StartsInside(chunks, i);
      assert pieces[i..] == [];
      NoCommandsYet();
    } else {
      CommandsOfPiece(chunks, i);
      hide PiecesOf, Concat, StartOf, CommandsFrom, Emitted, Commands;
      CommandsFromPiece(chunks, i + 1);
      assert pieces[i..][1..] == pieces[i + 1..];
      CommandsAppend(Emitted(pieces[i]), AllEmitted(pieces[i + 1..]));
    }
  }

  /** For every stream and every way of cutting it into chunks, the commands that run are those of the
      `$` lines that the chunks let run, in order. */
  lemma {:induction false} ChunksRunTheseCommands(chunks: seq<string>)
    ensures Commands(AllEmitted(PiecesOf(chunks))) == CommandsFrom(chunks, 0)
  {
    assert PiecesOf(chunks)[0..] == PiecesOf(chunks) && PiecesOf(chunks)[..0] == [];
    CommandsFromPiece(chunks, 0);
  }
}
