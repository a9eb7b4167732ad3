/** What the streaming parser guarantees for every way of cutting its input into chunks. */
module EmulatorProperties {
  import opened Text
  import opened Emulator

  // ---------- the pieces tile the input ----------

  lemma {:induction false} FoundAt(text: string, pattern: string)
    requires FindFrom(text, pattern, 0).Some?
    ensures var i := FindFrom(text, pattern, 0).value;
            text == text[..i] + pattern + text[i + |pattern|..]
  {
    var i := FindFrom(text, pattern, 0).value;
    FindFromSpec(text, pattern, 0);
    OccursMeans(text, pattern, i);
    assert text == text[..i] + text[i..i + |pattern|] + text[i + |pattern|..];
  }

  lemma {:induction false} AllRawOne(turn: Turn)
    ensures AllRaw(Pieces(turn)) == if turn.piece.Some? then Raw(turn.piece.value) else ""
  {
    if turn.piece.Some? {
      assert Pieces(turn)[1..] == [];
    }
  }

  lemma {:induction false} DollarTurnTiles(p: Parser, chunkBytes: nat)
    ensures var turn := DollarTurn(p, chunkBytes); AllRaw(Pieces(turn)) + turn.next.buffer == p.buffer
  {
    hide FindFrom, ByteLen, StartsWith, EndsWith, AllRaw;
    AllRawOne(DollarTurn(p, chunkBytes));
    var dollar := FindFrom(p.buffer, DOLLAR_LINE, 0);
    if dollar.Some? {
      FoundAt(p.buffer, DOLLAR_LINE);
      assert p.buffer[..dollar.value] + "\n" + ("$" + p.buffer[dollar.value + 2..]) == p.buffer;
    }
  }

  lemma {:induction false} FenceTurnTiles(p: Parser)
    ensures var turn := FenceTurn(p); AllRaw(Pieces(turn)) + turn.next.buffer == p.buffer
  {
    hide FindFrom, EndsWith;
    AllRawOne(FenceTurn(p));
    if FindFrom(p.buffer, FENCE, 0).Some? {
      FoundAt(p.buffer, FENCE);
    }
  }

  lemma {:induction false} Assoc(a: string, b: string, c: string)
    ensures (a + b) + c == a + (b + c)
  {
  }

  lemma {:induction false} ExecuteTurnTiles(p: Parser)
    ensures var turn := ExecuteTurn(p); AllRaw(Pieces(turn)) + turn.next.buffer == p.buffer
  {
    hide FindFrom;
    AllRawOne(ExecuteTurn(p));
    if FindFrom(p.buffer, CLOSER, 0).Some? {
      FoundAt(p.buffer, CLOSER);
      var i := FindFrom(p.buffer, CLOSER, 0).value;
      var rest := p.buffer[i + 4..];
      if StartsWith(rest, "\n") {
        Assoc(p.buffer[..i] + CLOSER, "\n", rest[1..]);
        assert rest == "\n" + rest[1..];
      } else {
        assert p.buffer[..i] + CLOSER + "" == p.buffer[..i] + CLOSER;
      }
    }
  }

  lemma {:induction false} TurnTiles(p: Parser, chunkBytes: nat)
    ensures var turn := Take(p, chunkBytes); AllRaw(Pieces(turn)) + turn.next.buffer == p.buffer
  {
    hide DollarTurn, FenceTurn, ExecuteTurn;
    match p.state {
      case InCommand =>
        AllRawOne(CommandTurn(p));
        if FindFrom(p.buffer, "\n", 0).Some? {
          FoundAt(p.buffer, "\n");
        }
      case InExecuteBlock => ExecuteTurnTiles(p);
      case Normal =>
        FenceTurnTiles(p);
        DollarTurnTiles(p, chunkBytes);
    }
  }

  lemma {:induction false} ProcessTiles(p: Parser, chunkBytes: nat)
    ensures var (pieces, end) := Process(p, chunkBytes); AllRaw(pieces) + end.buffer == p.buffer
    decreases |p.buffer|, if p.state.Normal? then 1 else 0
  {
    hide Take, Raw;
    var turn := Take(p, chunkBytes);
    TurnTiles(p, chunkBytes);
    if turn.goOn {
      ProcessTiles(turn.next, chunkBytes);
      var (pieces, end) := Process(turn.next, chunkBytes);
      AllRawAppend(Pieces(turn), pieces);
      assert AllRaw(Pieces(turn)) + AllRaw(pieces) + end.buffer == AllRaw(Pieces(turn)) + (AllRaw(pieces) + end.buffer);
    }
  }

  lemma {:induction false} DrainTiles(p: Parser)
    ensures AllRaw(Drain(p).0) == p.buffer
  {
    if p.buffer != "" {
      assert Drain(p).0[1..] == [];
    }
  }

  lemma {:induction false} ParseTiles(p: Parser, chunks: seq<string>, pieces: seq<Piece>, text: string)
    requires pieces == ParseAll(p, chunks) && text == p.buffer + Concat(chunks)
    ensures AllRaw(pieces) == text
    decreases |chunks|
  {
    hide Process, Drain, AllRaw;
    if chunks == [] {
      DrainTiles(p);
    } else {
      var (taken, next) := Feed(p, chunks[0]);
      ProcessTiles(p.(buffer := p.buffer + chunks[0]), ByteLen(chunks[0]));
      var rest := ParseAll(next, chunks[1..]);
      ParseTiles(next, chunks[1..], rest, next.buffer + Concat(chunks[1..]));
      AllRawAppend(taken, rest);
      Assoc(AllRaw(taken), next.buffer, Concat(chunks[1..]));
      Assoc(p.buffer, chunks[0], Concat(chunks[1..]));
    }
  }

  function NewParser(codeMode: bool): Parser {
    Parser("", Normal, codeMode)
  }

  /** Nothing is lost, repeated or reordered: in both modes, for every chunking, the pieces taken
      from the buffer tile the stream exactly. */
  lemma {:induction false} PiecesTileTheStream(codeMode: bool, chunks: seq<string>)
    ensures AllRaw(ParseAll(NewParser(codeMode), chunks)) == Concat(chunks)
  {
    assert "" + Concat(chunks) == Concat(chunks);
    ParseTiles(NewParser(codeMode), chunks, ParseAll(NewParser(codeMode), chunks), Concat(chunks));
  }

  // ---------- only whole lines run ----------

  predicate LineStart(before: string) {
    before == "" || before[|before| - 1] == '\n'
  }

  /** The pattern that no text handed on may contain. */
  function Sought(codeMode: bool): string {
    if codeMode then FENCE else DOLLAR_LINE
  }

  predicate DollarLine(line: string) {
    line != "" && line[0] == '$' && forall i :: 0 <= i < |line| ==> line[i] != '\n'
  }

  /** An opening fence stands at the end of the text. */
  predicate Fenced(before: string) {
    EndsWith(before, FENCE) || EndsWith(before, OPENER)
  }

  /** What holds of a piece that comes after `before` in the stream. */
  ghost predicate GoodPiece(before: string, piece: Piece, codeMode: bool) {
    match piece
    case Lines(raw) => !Contains(raw, Sought(codeMode))
    case Held(raw) => !Contains(raw, Sought(codeMode))
    case Command(line) => DollarLine(line) && (codeMode || LineStart(before))
    case LastCommand(line) => DollarLine(line) && (codeMode || LineStart(before))
    case BeforeFence(text) => codeMode && !Contains(text, FENCE)
    case BeforeOpener(raw) => codeMode && !Contains(raw, FENCE)
    case Code(code, _) => codeMode && Fenced(before) && !Contains(code, CLOSER)
    case LastCode(code) => codeMode && Fenced(before) && !Contains(code, CLOSER)
  }

  ghost predicate GoodPieces(before: string, pieces: seq<Piece>, codeMode: bool)
    decreases |pieces|
  {
    pieces != [] ==>
      GoodPiece(before, pieces[0], codeMode) && GoodPieces(before + Raw(pieces[0]), pieces[1..], codeMode)
  }

  lemma {:induction false} GoodPiecesCons(before: string, first: Piece, rest: seq<Piece>, codeMode: bool)
    requires GoodPiece(before, first, codeMode) && GoodPieces(before + Raw(first), rest, codeMode)
    ensures GoodPieces(before, [first] + rest, codeMode)
  {
    hide GoodPiece, Raw;
    assert ([first] + rest)[1..] == rest;
  }

  lemma {:induction false} GoodPiecesSplit(before: string, a: seq<Piece>, codeMode: bool)
    requires GoodPieces(before, a, codeMode) && a != []
    ensures GoodPiece(before, a[0], codeMode) && GoodPieces(before + Raw(a[0]), a[1..], codeMode)
    ensures before + AllRaw(a) == before + Raw(a[0]) + AllRaw(a[1..])
  {
    hide GoodPiece, Raw;
    Assoc(before, Raw(a[0]), AllRaw(a[1..]));
  }

  lemma {:induction false} ConsAppend(a: seq<Piece>, b: seq<Piece>)
    requires a != []
    ensures a + b == [a[0]] + (a[1..] + b)
  {
  }

  lemma {:induction false} GoodPiecesAppend(before: string, a: seq<Piece>, b: seq<Piece>, codeMode: bool)
    requires GoodPieces(before, a, codeMode) && GoodPieces(before + AllRaw(a), b, codeMode)
    ensures GoodPieces(before, a + b, codeMode)
    decreases |a|
  {
    if a == [] {
      assert before + AllRaw(a) == before;
      assert a + b == b;
    } else {
      hide GoodPieces, GoodPiece, AllRaw, Raw;
      GoodPiecesSplit(before, a, codeMode);
      GoodPiecesAppend(before + Raw(a[0]), a[1..], b, codeMode);
      GoodPiecesCons(before, a[0], a[1..] + b, codeMode);
      ConsAppend(a, b);
    }
  }

  lemma {:induction false} GoodPieceAt(before: string, pieces: seq<Piece>, codeMode: bool, i: nat)
    requires GoodPieces(before, pieces, codeMode) && i < |pieces|
    ensures GoodPiece(before + AllRaw(pieces[..i]), pieces[i], codeMode)
    decreases i
  {
    hide GoodPiece;
    if i == 0 {
      assert before + AllRaw(pieces[..0]) == before;
    } else {
      GoodPieceAt(before + Raw(pieces[0]), pieces[1..], codeMode, i - 1);
      assert pieces[1..][..i - 1] == pieces[..i][1..];
      Assoc(before, Raw(pieces[0]), AllRaw(pieces[1..][..i - 1]));
    }
  }

  /** What the loop keeps: a command sits at the front of the buffer, and outside code mode nothing
      but the start of a line can be taken for one. */
  predicate Aligned(p: Parser, before: string, chunkBytes: nat) {
    match p.state
    case InExecuteBlock => p.codeMode && Fenced(before)
    case InCommand => p.buffer != "" && p.buffer[0] == '$' && (p.codeMode || LineStart(before))
    case Normal => p.codeMode || LineStart(before) || (p.buffer != "" && ByteLen(p.buffer) != chunkBytes)
  }

  /** What holds of the parser between two chunks. */
  ghost predicate Settled(p: Parser, before: string) {
    match p.state
    case InExecuteBlock => p.codeMode && Fenced(before) && !Contains(p.buffer, CLOSER)
    case InCommand => DollarLine(p.buffer) && (p.codeMode || LineStart(before))
    case Normal => !Contains(p.buffer, Sought(p.codeMode)) && (p.codeMode || LineStart(before) || p.buffer != "")
  }

  lemma {:induction false} ByteLenAppend(a: string, b: string)
    ensures ByteLen(a + b) == ByteLen(a) + ByteLen(b)
    ensures a != "" ==> ByteLen(a) > 0
    decreases |a|
  {
    if a == "" {
      assert a + b == b;
    } else {
      assert (a + b)[1..] == a[1..] + b;
      ByteLenAppend(a[1..], b);
    }
  }

  lemma {:induction false} SettledIsAligned(p: Parser, before: string, chunk: string)
    requires Settled(p, before)
    ensures Aligned(p.(buffer := p.buffer + chunk), before, ByteLen(chunk))
  {
    ByteLenAppend(p.buffer, chunk);
  }

  lemma {:induction false} LacksWhenNotFound(text: string, pattern: string)
    requires FindFrom(text, pattern, 0).None?
    ensures !Contains(text, pattern)
  {
    FindFromSpec(text, pattern, 0);
  }

  /** The part of a text before its first match, and any longer part that does not reach the match's end. */
  lemma {:induction false} PrefixLacks(text: string, pattern: string, end: nat)
    requires end <= |text|
    requires FindFrom(text, pattern, 0).Some? ==> end < FindFrom(text, pattern, 0).value + |pattern|
    ensures !Contains(text[..end], pattern)
  {
    FindFromSpec(text, pattern, 0);
    assert text[0..end] == text[..end];
    SliceLacks(text, pattern, 0, end);
  }

  lemma {:induction false} NoNewlineBefore(text: string, end: nat)
    requires end <= |text| && (FindFrom(text, "\n", 0).Some? ==> end <= FindFrom(text, "\n", 0).value)
    ensures forall i :: 0 <= i < end ==> text[i] != '\n'
  {
    FindFromSpec(text, "\n", 0);
    forall i | 0 <= i < end ensures text[i] != '\n' {
      if text[i] == '\n' {
        assert MatchesFrom(text, "\n", i, 1);
        assert OccursAt(text, "\n", i);
      }
    }
  }

  lemma {:induction false} GoodOne(before: string, turn: Turn, codeMode: bool)
    requires turn.piece.Some? ==> GoodPiece(before, turn.piece.value, codeMode)
    ensures GoodPieces(before, Pieces(turn), codeMode)
    ensures before + AllRaw(Pieces(turn)) == before + if turn.piece.Some? then Raw(turn.piece.value) else ""
  {
    AllRawOne(turn);
    hide GoodPiece;
    if turn.piece.Some? {
      assert Pieces(turn)[1..] == [];
    }
  }

  /** What one turn has to give: good pieces, and the loop's invariant or a settled parser. */
  ghost predicate GoodTurn(before: string, turn: Turn, codeMode: bool, chunkBytes: nat) {
    && (turn.piece.Some? ==> GoodPiece(before, turn.piece.value, codeMode))
    && var after := before + if turn.piece.Some? then Raw(turn.piece.value) else "";
       if turn.goOn then Aligned(turn.next, after, chunkBytes) else Settled(turn.next, after)
  }

  lemma {:induction false} CommandTurnIsGood(p: Parser, before: string, chunkBytes: nat)
    requires p.state.InCommand? && Aligned(p, before, chunkBytes)
    ensures GoodTurn(before, CommandTurn(p), p.codeMode, chunkBytes)
  {
    var newline := FindFrom(p.buffer, "\n", 0);
    if newline.Some? {
      FindFromSpec(p.buffer, "\n", 0);
      NoNewlineBefore(p.buffer, newline.value);
    } else {
      NoNewlineBefore(p.buffer, |p.buffer|);
      assert before + "" == before;
    }
  }

  lemma {:induction false} ExecuteTurnIsGood(p: Parser, before: string, chunkBytes: nat)
    requires p.state.InExecuteBlock? && Aligned(p, before, chunkBytes)
    ensures GoodTurn(before, ExecuteTurn(p), p.codeMode, chunkBytes)
  {
    var end := FindFrom(p.buffer, CLOSER, 0);
    if end.Some? {
      PrefixLacks(p.buffer, CLOSER, end.value);
    } else {
      LacksWhenNotFound(p.buffer, CLOSER);
      assert before + "" == before;
    }
  }

  lemma {:induction false} EndsWithItself(text: string, suffix: string)
    ensures EndsWith(text + suffix, suffix)
  {
  }

  lemma {:induction false} StaysAtEnd(before: string, text: string, suffix: string)
    requires EndsWith(text, suffix)
    ensures EndsWith(before + text, suffix)
  {
    var all := before + text;
    assert all[|all| - |suffix|..] == text[|text| - |suffix|..];
  }

  lemma {:induction false} FenceTurnIsGood(p: Parser, before: string, chunkBytes: nat)
    requires p.codeMode && FenceTurn(p).goOn
    ensures GoodTurn(before, FenceTurn(p), p.codeMode, chunkBytes)
  {
    hide FindFrom, EndsWith, Contains;
    var fence := FindFrom(p.buffer, FENCE, 0);
    if fence.Some? {
      PrefixLacks(p.buffer, FENCE, fence.value);
      var text := p.buffer[..fence.value];
      EndsWithItself(text, FENCE);
      StaysAtEnd(before, text + FENCE, FENCE);
    } else {
      LacksWhenNotFound(p.buffer, FENCE);
      StaysAtEnd(before, p.buffer, OPENER);
    }
  }

  lemma {:induction false} HoldBackTurnIsGood(p: Parser, before: string, chunkBytes: nat)
    requires p.state.Normal? && Aligned(p, before, chunkBytes)
    requires FindFrom(p.buffer, Sought(p.codeMode), 0).None?
    ensures GoodTurn(before, HoldBackTurn(p), p.codeMode, chunkBytes)
  {
    hide FindFrom, Contains, Sought;
    LacksWhenNotFound(p.buffer, Sought(p.codeMode));
    assert before + "" == before;
    if HoldBackTurn(p).piece.Some? {
      var cut := |p.buffer| - HoldBack(p);
      PrefixLacks(p.buffer, Sought(p.codeMode), cut);
      SuffixLacks(p.buffer, Sought(p.codeMode), cut);
    }
  }

  lemma {:induction false} SuffixLacks(text: string, pattern: string, from: nat)
    requires from <= |text| && !Contains(text, pattern)
    ensures !Contains(text[from..], pattern)
  {
    assert text[from..|text|] == text[from..];
    SliceLacks(text, pattern, from, |text|);
  }

  lemma {:induction false} DollarTurnIsGood(p: Parser, before: string, chunkBytes: nat)
    requires p.state.Normal? && Aligned(p, before, chunkBytes)
    requires p.codeMode ==> FindFrom(p.buffer, FENCE, 0).None?
    ensures GoodTurn(before, DollarTurn(p, chunkBytes), p.codeMode, chunkBytes)
  {
    hide FindFrom, Contains, HoldBackTurn;
    var dollar := FindFrom(p.buffer, DOLLAR_LINE, 0);
    if dollar.Some? {
      var i := dollar.value;
      FoundAt(p.buffer, DOLLAR_LINE);
      assert p.buffer[..i + 1] == p.buffer[..i] + "\n";
      PrefixLacks(p.buffer, Sought(p.codeMode), i + 1);
    } else if StartsWith(p.buffer, "$") && ByteLen(p.buffer) == chunkBytes {
      assert before + "" == before;
      assert p.buffer[..1] == "$";
      assert p.buffer[..1][0] == p.buffer[0];
    } else {
      HoldBackTurnIsGood(p, before, chunkBytes);
    }
  }

  /** A command or a code block that only the end of the stream ends. */
  predicate CutOff(piece: Piece) {
    piece.LastCommand? || piece.LastCode?
  }

  lemma {:induction false} TurnIsGood(p: Parser, before: string, chunkBytes: nat)
    requires Aligned(p, before, chunkBytes)
    ensures GoodTurn(before, Take(p, chunkBytes), p.codeMode, chunkBytes) && Take(p, chunkBytes).next.codeMode == p.codeMode
  {
    hide GoodTurn, Aligned, FindFrom;
    match p.state {
      case InCommand => CommandTurnIsGood(p, before, chunkBytes);
      case InExecuteBlock => ExecuteTurnIsGood(p, before, chunkBytes);
      case Normal =>
        if p.codeMode && FenceTurn(p).goOn {
          FenceTurnIsGood(p, before, chunkBytes);
        } else {
          DollarTurnIsGood(p, before, chunkBytes);
        }
    }
  }

  lemma {:induction false} ProcessIsGood(p: Parser, before: string, chunkBytes: nat)
    requires Aligned(p, before, chunkBytes)
    ensures var (pieces, end) := Process(p, chunkBytes);
            && GoodPieces(before, pieces, p.codeMode) && Settled(end, before + AllRaw(pieces))
            && end.codeMode == p.codeMode && forall i :: 0 <= i < |pieces| ==> !CutOff(pieces[i])
    decreases |p.buffer|, if p.state.Normal? then 1 else 0
  {
    hide Aligned, Settled, GoodPiece, GoodPieces, AllRaw;
    var turn := Take(p, chunkBytes);
    TurnIsGood(p, before, chunkBytes);
    GoodOne(before, turn, p.codeMode);
    NotLast(p, chunkBytes);
    hide Take;
    if turn.goOn {
      var after := before + AllRaw(Pieces(turn));
      ProcessIsGood(turn.next, after, chunkBytes);
      var (pieces, end) := Process(turn.next, chunkBytes);
      GoodPiecesAppend(before, Pieces(turn), pieces, p.codeMode);
      AllRawAppend(Pieces(turn), pieces);
      Assoc(before, AllRaw(Pieces(turn)), AllRaw(pieces));
    }
  }

  lemma {:induction false} NotLast(p: Parser, chunkBytes: nat)
    ensures Take(p, chunkBytes).piece.Some? ==> !CutOff(Take(p, chunkBytes).piece.value)
  {
    hide FindFrom, EndsWith, ByteLen;
  }

  lemma {:induction false} DrainIsGood(p: Parser, before: string)
    requires Settled(p, before)
    ensures GoodPieces(before, Drain(p).0, p.codeMode) && |Drain(p).0| <= 1
  {
    if p.buffer != "" {
      var pieces := Drain(p).0;
      assert GoodPiece(before, pieces[0], p.codeMode);
      assert pieces[1..] == [];
    }
  }

  /** Every chunking yields good pieces, and only the last can be a command that was cut short. */
  lemma {:induction false} ParseIsGood(p: Parser, before: string, chunks: seq<string>)
    requires Settled(p, before)
    ensures var pieces := ParseAll(p, chunks);
            GoodPieces(before, pieces, p.codeMode) && forall i :: 0 <= i < |pieces| - 1 ==> !CutOff(pieces[i])
    decreases |chunks|
  {
    hide Settled, GoodPiece, GoodPieces, AllRaw, Process;
    if chunks == [] {
      DrainIsGood(p, before);
    } else {
      SettledIsAligned(p, before, chunks[0]);
      ProcessIsGood(p.(buffer := p.buffer + chunks[0]), before, ByteLen(chunks[0]));
      var (pieces, next) := Feed(p, chunks[0]);
      ParseIsGood(next, before + AllRaw(pieces), chunks[1..]);
      GoodPiecesAppend(before, pieces, ParseAll(next, chunks[1..]), p.codeMode);
    }
  }

  lemma {:induction false} NewIsSettled(codeMode: bool)
    ensures Settled(NewParser(codeMode), "")
  {
  }

  /** Which text stands before and after a piece. */
  lemma {:induction false} PieceStandsAt(pieces: seq<Piece>, i: nat)
    requires i < |pieces|
    ensures AllRaw(pieces) == AllRaw(pieces[..i]) + Raw(pieces[i]) + AllRaw(pieces[i + 1..])
  {
    assert pieces == pieces[..i] + ([pieces[i]] + pieces[i + 1..]);
    AllRawAppend(pieces[..i], [pieces[i]] + pieces[i + 1..]);
    AllRawAppend([pieces[i]], pieces[i + 1..]);
    assert [pieces[i]][1..] == [];
    hide Raw;
    assert AllRaw([pieces[i]]) == Raw(pieces[i]);
    Assoc(AllRaw(pieces[..i]), Raw(pieces[i]), AllRaw(pieces[i + 1..]));
  }

  function CommandLine(piece: Piece): Option<string> {
    match piece
    case Command(line) => Some(line)
    case LastCommand(line) => Some(line)
    case _ => None
  }

  lemma {:induction false} TrimEndKeepsHead(s: string)
    requires s != "" && !IsWhitespace(s[0])
    ensures TrimEnd(s) == [s[0]] + TrimEnd(s[1..])
    decreases |s|
  {
    if |s| > 1 {
      if IsWhitespace(s[|s| - 1]) {
        TrimEndKeepsHead(s[..|s| - 1]);
        assert s[..|s| - 1][1..] == s[1..][..|s| - 2];
      }
    } else {
      assert s == [s[0]] + s[1..];
    }
  }

  /** A command is its line without the `$`, trimmed, wherever the parser trims first. */
  lemma {:induction false} CommandOfLine(piece: Piece)
    requires CommandLine(piece).Some? && DollarLine(CommandLine(piece).value)
    ensures Emitted(piece) == ShellUnlessEmpty(CommandLine(piece).value[1..])
  {
    var line := CommandLine(piece).value;
    assert line[..1] == "$";
    if piece.LastCommand? {
      TrimEndKeepsHead(line);
      TrimEndTwice(line[1..]);
      assert Trim(line) == [line[0]] + TrimEnd(line[1..]);
      assert Trim(line)[1..] == TrimEnd(line[1..]);
    }
  }

  /** `text` has a whole line that starts with `$` at `o`: it follows a newline or the start, and a
      newline or the end follows it. */
  predicate WholeDollarLine(text: string, o: nat, line: string) {
    && o + |line| <= |text| && text[o..o + |line|] == line && DollarLine(line)
    && (o == 0 || text[o - 1] == '\n')
    && (o + |line| == |text| || text[o + |line|] == '\n')
  }

  /** A piece of the stream, with what comes before and after it. */
  lemma {:induction false} PieceInStream(codeMode: bool, chunks: seq<string>, i: nat)
    requires i < |ParseAll(NewParser(codeMode), chunks)|
    ensures var pieces := ParseAll(NewParser(codeMode), chunks);
            var before, after := AllRaw(pieces[..i]), AllRaw(pieces[i + 1..]);
            && GoodPiece(before, pieces[i], codeMode) && Concat(chunks) == before + Raw(pieces[i]) + after
            && (CutOff(pieces[i]) ==> after == "")
  {
    var pieces := ParseAll(NewParser(codeMode), chunks);
    NewIsSettled(codeMode);
    ParseIsGood(NewParser(codeMode), "", chunks);
    hide ParseAll, GoodPiece, Raw, GoodPieces;
    GoodPieceAt("", pieces, codeMode, i);
    assert "" + AllRaw(pieces[..i]) == AllRaw(pieces[..i]);
    PiecesTileTheStream(codeMode, chunks);
    PieceStandsAt(pieces, i);
    if i == |pieces| - 1 {
      assert pieces[i + 1..] == [];
    }
  }

  /** What a piece makes run outside code mode. */
  ghost predicate RunsWholeLine(text: string, o: nat, piece: Piece) {
    var line := CommandLine(piece);
    if line.Some? then
      WholeDollarLine(text, o, line.value) && Emitted(piece) == ShellUnlessEmpty(line.value[1..])
    else
      forall a <- Emitted(piece) :: a.Text?
  }

  /** Outside code mode, however the stream is cut into chunks, a command that runs is a whole line
      of the stream that starts with `$`: no `$` inside a line is ever taken for a command. */
  lemma {:induction false} OnlyWholeLinesRun(chunks: seq<string>, i: nat)
    requires i < |ParseAll(NewParser(false), chunks)|
    ensures var pieces := ParseAll(NewParser(false), chunks);
            RunsWholeLine(Concat(chunks), |AllRaw(pieces[..i])|, pieces[i])
  {
    var pieces := ParseAll(NewParser(false), chunks);
    PieceInStream(false, chunks, i);
    hide ParseAll, RunsWholeLine, GoodPiece, AllRaw, Raw, Concat;
    GoodPieceRuns(AllRaw(pieces[..i]), pieces[i], AllRaw(pieces[i + 1..]));
  }

  lemma {:induction false} GoodPieceRuns(before: string, piece: Piece, after: string)
    requires GoodPiece(before, piece, false) && (CutOff(piece) ==> after == "")
    ensures RunsWholeLine(before + Raw(piece) + after, |before|, piece)
  {
    if CommandLine(piece).Some? {
      CommandOfLine(piece);
      hide Emitted, WholeDollarLine, Contains;
      StandsThere(before, piece, after);
    } else {
      OtherPiecesAreText(before, piece);
    }
  }

  lemma {:induction false} OtherPiecesAreText(before: string, piece: Piece)
    requires GoodPiece(before, piece, false) && CommandLine(piece).None?
    ensures forall a <- Emitted(piece) :: a.Text?
  {
    hide Trim, Contains;
  }

  lemma {:induction false} StandsThere(before: string, piece: Piece, after: string)
    requires CommandLine(piece).Some? && DollarLine(CommandLine(piece).value) && LineStart(before)
    requires piece.LastCommand? ==> after == ""
    ensures WholeDollarLine(before + Raw(piece) + after, |before|, CommandLine(piece).value)
  {
    var line := CommandLine(piece).value;
    var text := before + Raw(piece) + after;
    assert text[|before|..|before| + |line|] == line;
  }

  function CodeOf(piece: Piece): Option<string> {
    match piece
    case Code(code, _) => Some(code)
    case LastCode(code) => Some(code)
    case _ => None
  }

  /** `text` has a code block at `o`: an opening fence stands before it, no closing fence is in it, and
      a closing fence or the end follows it. */
  ghost predicate FencedCode(text: string, o: nat, code: string) {
    && o + |code| <= |text| && text[o..o + |code|] == code && !Contains(code, CLOSER)
    && Fenced(text[..o])
    && (o + |code| == |text| || OccursAt(text, CLOSER, o + |code|))
  }

  ghost predicate RunsFencedCode(text: string, o: nat, piece: Piece) {
    var code := CodeOf(piece);
    if code.Some? then FencedCode(text, o, code.value) else forall a <- Emitted(piece) :: !a.ExecuteCode?
  }

  /** In code mode, however the stream is cut into chunks, code that runs is what stands between an
      opening fence and the first closing fence after it, or the end. */
  lemma {:induction false} OnlyFencedCodeRuns(chunks: seq<string>, i: nat)
    requires i < |ParseAll(NewParser(true), chunks)|
    ensures var pieces := ParseAll(NewParser(true), chunks);
            RunsFencedCode(Concat(chunks), |AllRaw(pieces[..i])|, pieces[i])
  {
    var pieces := ParseAll(NewParser(true), chunks);
    PieceInStream(true, chunks, i);
    hide ParseAll, RunsFencedCode, GoodPiece, AllRaw, Raw, Concat;
    GoodPieceRunsCode(AllRaw(pieces[..i]), pieces[i], AllRaw(pieces[i + 1..]));
  }

  lemma {:induction false} GoodPieceRunsCode(before: string, piece: Piece, after: string)
    requires GoodPiece(before, piece, true) && (CutOff(piece) ==> after == "")
    ensures RunsFencedCode(before + Raw(piece) + after, |before|, piece)
  {
    hide Fenced, Contains, Trim, TrimEndMatches, FencedCode;
    if CodeOf(piece).Some? {
      CodeStandsThere(before, piece, after);
    }
  }

  lemma {:induction false} MiddleIs(a: string, b: string, c: string)
    ensures var all := a + b + c; all[|a|..|a| + |b|] == b && all[..|a|] == a && |all| == |a| + |b| + |c|
  {
  }

  lemma {:induction false} CodeStandsThere(before: string, piece: Piece, after: string)
    requires CodeOf(piece).Some? && Fenced(before) && !Contains(CodeOf(piece).value, CLOSER)
    requires piece.LastCode? ==> after == ""
    ensures FencedCode(before + Raw(piece) + after, |before|, CodeOf(piece).value)
  {
    hide Fenced, Contains, OccursAt;
    var code := CodeOf(piece).value;
    var text := before + Raw(piece) + after;
    if piece.Code? {
      var newline := if piece.newline then "\n" else "";
      var tail := newline + after;
      assert text == before + code + CLOSER + tail by {
        Assoc(code, CLOSER, newline);
        Assoc(before, code, CLOSER + newline);
        Assoc(before + code, CLOSER, newline);
        Assoc(before + code + CLOSER, newline, after);
      }
      MiddleIs(before + code, CLOSER, tail);
      MiddleIs(before, code, CLOSER + tail);
      Assoc(before + code, CLOSER, tail);
      OccursMeans(text, CLOSER, |before| + |code|);
    } else {
      MiddleIs(before, code, "");
      assert text == before + code + "";
    }
  }

  /** No text that is handed on contains what the mode looks for: `$` at the start of a line outside
      code mode, an opening fence in code mode. */
  lemma {:induction false} TextLacksSought(chunks: seq<string>, codeMode: bool, i: nat, a: EmulatorAction)
    requires i < |ParseAll(NewParser(codeMode), chunks)|
    requires a in Emitted(ParseAll(NewParser(codeMode), chunks)[i]) && a.Text?
    ensures !Contains(a.text, Sought(codeMode))
  {
    var pieces := ParseAll(NewParser(codeMode), chunks);
    NewIsSettled(codeMode);
    ParseIsGood(NewParser(codeMode), "", chunks);
    GoodPieceAt("", pieces, codeMode, i);
    GoodPieceText("" + AllRaw(pieces[..i]), pieces[i], codeMode, a);
  }

  lemma {:induction false} GoodPieceText(before: string, piece: Piece, codeMode: bool, a: EmulatorAction)
    requires GoodPiece(before, piece, codeMode) && a in Emitted(piece) && a.Text?
    ensures !Contains(a.text, Sought(codeMode))
  {
    hide Contains, Trim, TrimEndMatches;
    match piece {
      case BeforeOpener(raw) => TrimmedLacks(raw, OPENER, FENCE);
      case LastCommand(line) => CommandOfLine(piece);
      case Command(line) => CommandOfLine(piece);
      case _ =>
    }
  }

  lemma {:induction false} TrimmedLacks(s: string, suffix: string, pattern: string)
    requires suffix != "" && !Contains(s, pattern)
    ensures !Contains(TrimEndMatches(s, suffix), pattern)
    decreases |s|
  {
    if EndsWith(s, suffix) {
      assert s[0..|s| - |suffix|] == s[..|s| - |suffix|];
      SliceLacks(s, pattern, 0, |s| - |suffix|);
      TrimmedLacks(s[..|s| - |suffix|], suffix, pattern);
    }
  }

  /** The characters the hold-back rule keeps are enough: whatever text follows, a `$` line or an
      opening fence that it completes starts after the cut. */
  lemma {:induction false} HoldBackNeverCuts(p: Parser, chunkBytes: nat, future: string, pattern: string, at: nat)
    requires p.state.Normal? && Take(p, chunkBytes).piece.Some? && Take(p, chunkBytes).piece.value.Held?
    requires pattern == DOLLAR_LINE || (p.codeMode && pattern == FENCE)
    requires OccursAt(p.buffer + future, pattern, at)
    ensures |Take(p, chunkBytes).piece.value.raw| <= at
  {
    var cut := |Take(p, chunkBytes).piece.value.raw|;
    var text := p.buffer + future;
    if at < cut {
      OccursMeans(text, pattern, at);
      OccursMeans(p.buffer, pattern, at);
      assert text[at..at + |pattern|] == p.buffer[at..at + |pattern|];
      FindFromSpec(p.buffer, pattern, 0);
    }
  }

  // ---------- conservation of what is not whitespace ----------

  function Sig(s: string): string {
    if s == "" then "" else (if IsWhitespace(s[0]) then "" else [s[0]]) + Sig(s[1..])
  }

  lemma {:induction false} SigAppend(a: string, b: string)
    ensures Sig(a + b) == Sig(a) + Sig(b)
    decreases |a|
  {
    if a == "" {
      assert a + b == b;
    } else {
      assert (a + b)[1..] == a[1..] + b;
      SigAppend(a[1..], b);
    }
  }

  lemma {:induction false} SigTrimEnd(s: string)
    ensures Sig(TrimEnd(s)) == Sig(s)
    decreases |s|
  {
    if s != "" && IsWhitespace(s[|s| - 1]) {
      SigTrimEnd(s[..|s| - 1]);
      SigAppend(s[..|s| - 1], [s[|s| - 1]]);
      assert [s[|s| - 1]][1..] == "";
      assert s == s[..|s| - 1] + [s[|s| - 1]];
    }
  }

  lemma {:induction false} SigTrimStart(s: string)
    ensures Sig(TrimStart(s)) == Sig(s)
    decreases |s|
  {
    if s != "" && IsWhitespace(s[0]) {
      SigTrimStart(s[1..]);
    }
  }

  lemma {:induction false} SigTrim(s: string)
    ensures Sig(Trim(s)) == Sig(s)
  {
    SigTrimEnd(s);
    SigTrimStart(TrimEnd(s));
  }

  /** The non-whitespace characters a list of actions shows, with a `$` for every command. */
  function Shown(actions: seq<EmulatorAction>): string {
    if actions == [] then ""
    else
      (match actions[0]
       case Text(text) => Sig(text)
       case ShellCommand(command) => "$" + Sig(command)
       case ExecuteCode(code) => Sig(code)) + Shown(actions[1..])
  }

  /** What a piece shows; a command that is dropped because it is empty counts for its `$`. */
  function PieceShows(piece: Piece): string {
    if CommandLine(piece).Some? && Emitted(piece) == [] then "$" else Shown(Emitted(piece))
  }

  function AllShow(pieces: seq<Piece>): string {
    if pieces == [] then "" else PieceShows(pieces[0]) + AllShow(pieces[1..])
  }

  lemma {:induction false} ShownOne(a: EmulatorAction)
    ensures Shown([a]) == (match a
                           case Text(text) => Sig(text)
                           case ShellCommand(command) => "$" + Sig(command)
                           case ExecuteCode(code) => Sig(code))
  {
    assert [a][1..] == [];
  }

  lemma {:induction false} SigOfCommandLine(line: string)
    requires DollarLine(line)
    ensures Sig(line) == "$" + Sig(Trim(line[1..])) && Sig(line + "\n") == Sig(line)
  {
    SigTrim(line[1..]);
    SigAppend(line, "\n");
    assert Sig("\n") == "" by { assert "\n"[1..] == ""; }
  }

  lemma {:induction false} PieceIsConserved(before: string, piece: Piece)
    requires GoodPiece(before, piece, false)
    ensures PieceShows(piece) == Sig(Raw(piece))
  {
    hide Trim;
    if CommandLine(piece).Some? {
      var line := CommandLine(piece).value;
      CommandOfLine(piece);
      SigOfCommandLine(line);
      ShownOne(ShellCommand(Trim(line[1..])));
    } else {
      SigTrim(Raw(piece));
      ShownOne(Text(Raw(piece)));
    }
  }

  lemma {:induction false} PiecesAreConserved(before: string, pieces: seq<Piece>)
    requires GoodPieces(before, pieces, false)
    ensures AllShow(pieces) == Sig(AllRaw(pieces))
    decreases |pieces|
  {
    if pieces != [] {
      PieceIsConserved(before, pieces[0]);
      PiecesAreConserved(before + Raw(pieces[0]), pieces[1..]);
      SigAppend(Raw(pieces[0]), AllRaw(pieces[1..]));
    }
  }

  /** Outside code mode no character but whitespace is lost, repeated or reordered: for every
      chunking, what is emitted shows exactly the stream's non-whitespace characters, where an empty
      command that is dropped counts for its `$`. */
  lemma {:induction false} NothingVisibleIsLost(chunks: seq<string>)
    ensures AllShow(ParseAll(NewParser(false), chunks)) == Sig(Concat(chunks))
  {
    var pieces := ParseAll(NewParser(false), chunks);
    NewIsSettled(false);
    ParseIsGood(NewParser(false), "", chunks);
    PiecesAreConserved("", pieces);
    PiecesTileTheStream(false, chunks);
  }

  // ---------- a stream that arrives line by line ----------

  /** A line with its newline, and none inside. */
  predicate IsLine(line: string) {
    line != "" && line[|line| - 1] == '\n' && forall i :: 0 <= i < |line| - 1 ==> line[i] != '\n'
  }

  /** The commands a reader of the lines would run: the `$` lines that are not empty. */
  function CommandsOf(lines: seq<string>): seq<EmulatorAction> {
    if lines == [] then []
    else (if lines[0] != "" && lines[0][0] == '$' then ShellUnlessEmpty(lines[0][1..]) else []) + CommandsOf(lines[1..])
  }

  function Commands(actions: seq<EmulatorAction>): seq<EmulatorAction> {
    if actions == [] then [] else (if actions[0].Text? then [] else [actions[0]]) + Commands(actions[1..])
  }

  lemma {:induction false} CommandsAppend(a: seq<EmulatorAction>, b: seq<EmulatorAction>)
    ensures Commands(a + b) == Commands(a) + Commands(b)
    decreases |a|
  {
    if a == [] {
      assert a + b == b;
    } else {
      assert (a + b)[1..] == a[1..] + b;
      CommandsAppend(a[1..], b);
    }
  }

  /** Whole lines of text wait in the buffer; none starts with `$`. */
  ghost predicate TextWaits(p: Parser) {
    && p.state.Normal? && !p.codeMode && !Contains(p.buffer, DOLLAR_LINE)
    && (p.buffer != "" ==> p.buffer[0] != '$' && p.buffer[|p.buffer| - 1] == '\n')
  }

  lemma {:induction false} NewlineThenDollar(text: string, i: nat)
    ensures OccursAt(text, DOLLAR_LINE, i) <==> i + 1 < |text| && text[i] == '\n' && text[i + 1] == '$'
  {
    if i + 2 <= |text| {
      OccursMeans(text, DOLLAR_LINE, i);
      assert text[i..i + 2] == [text[i], text[i + 1]];
    }
  }

  /** Where the first `$` line of waiting text and one more line is. */
  lemma {:induction false} FirstDollarLine(waiting: string, line: string)
    requires IsLine(line) && !Contains(waiting, DOLLAR_LINE)
    requires waiting != "" ==> waiting[|waiting| - 1] == '\n'
    ensures FindFrom(waiting + line, DOLLAR_LINE, 0) ==
            if waiting != "" && line[0] == '$' then Some(|waiting| - 1) else None
  {
    var text := waiting + line;
    forall i: nat ensures OccursAt(text, DOLLAR_LINE, i) <==> waiting != "" && line[0] == '$' && i == |waiting| - 1 {
      NewlineThenDollar(text, i);
      NewlineThenDollar(waiting, i);
      assert !OccursAt(waiting, DOLLAR_LINE, i);
    }
    if waiting != "" && line[0] == '$' {
      FindFromIs(text, DOLLAR_LINE, 0, |waiting| - 1);
    } else {
      FindFromNone(text, DOLLAR_LINE, 0);
    }
  }

  /** A text line is kept in the buffer. */
  lemma {:induction false} FeedTextLine(p: Parser, line: string)
    requires TextWaits(p) && IsLine(line) && line[0] != '$'
    ensures Feed(p, line) == ([], p.(buffer := p.buffer + line)) && TextWaits(p.(buffer := p.buffer + line))
  {
    var q := p.(buffer := p.buffer + line);
    FirstDollarLine(p.buffer, line);
    LacksWhenNotFound(q.buffer, DOLLAR_LINE);
    hide FindFrom;
    assert q.buffer[..1] == [q.buffer[0]];
    assert [q.buffer[0]][0] != "$"[0];
    assert q.buffer[|q.buffer| - 1..] == "\n";
  }

  lemma {:induction false} CommandTurnOfLine(p: Parser, line: string)
    requires IsLine(line) && line[0] == '$' && p.buffer == line
    ensures CommandTurn(p) == Turn(Some(Command(line[..|line| - 1])), p.(buffer := "", state := Normal), true)
  {
    var end := |line| - 1;
    assert MatchesFrom(line, "\n", end, 1);
    forall j: nat | j < end ensures !OccursAt(line, "\n", j) {}
    FindFromIs(line, "\n", 0, end);
    assert line[end + 1..] == "";
  }

  lemma {:induction false} EmptyBufferStops(p: Parser, chunkBytes: nat)
    requires p.state.Normal? && !p.codeMode && p.buffer == ""
    ensures Process(p, chunkBytes) == ([], p)
  {
  }

  /** A turn that finds a whole `$` line, and the turn that runs it. */
  lemma {:induction false} FoundLineRuns(q: Parser, chunkBytes: nat, text: Option<Piece>, line: string)
    requires IsLine(line) && line[0] == '$'
    requires Take(q, chunkBytes) == Turn(text, Parser(line, InCommand, false), true)
    ensures Process(q, chunkBytes) == (Pieces(Take(q, chunkBytes)) + [Command(line[..|line| - 1])], NewParser(false))
  {
    var running := Parser(line, InCommand, false);
    CommandTurnOfLine(running, line);
    assert Take(running, chunkBytes) == CommandTurn(running);
    EmptyBufferStops(NewParser(false), chunkBytes);
    hide Take, CommandTurn;
    assert [Command(line[..|line| - 1])] + [] == [Command(line[..|line| - 1])];
  }

  /** The turn that meets a whole `$` line after the text that waits. */
  lemma {:induction false} DollarLineIsFound(waiting: string, line: string, chunkBytes: nat)
    requires IsLine(line) && line[0] == '$' && !Contains(waiting, DOLLAR_LINE)
    requires if waiting == "" then chunkBytes == ByteLen(line) else waiting[|waiting| - 1] == '\n'
    ensures Take(Parser(waiting + line, Normal, false), chunkBytes) ==
            Turn(if waiting == "" then None else Some(Lines(waiting)), Parser(line, InCommand, false), true)
  {
    var text := waiting + line;
    FirstDollarLine(waiting, line);
    if waiting == "" {
      assert text == line;
      assert line[..1] == "$";
    } else {
      assert text[..|waiting| - 1] + "\n" == waiting;
      assert "$" + text[|waiting| + 1..] == line;
    }
  }

  /** A `$` line that arrives whole runs, after the text that waited. */
  lemma {:induction false} FeedDollarLine(p: Parser, line: string)
    requires TextWaits(p) && IsLine(line) && line[0] == '$'
    ensures Feed(p, line).1 == NewParser(false)
    ensures Feed(p, line).0 == (if p.buffer == "" then [] else [Lines(p.buffer)]) + [Command(line[..|line| - 1])]
  {
    DollarLineIsFound(p.buffer, line, ByteLen(line));
    hide Process, Take, ByteLen;
    FoundLineRuns(p.(buffer := p.buffer + line), ByteLen(line), if p.buffer == "" then None else Some(Lines(p.buffer)), line);
  }

  /** What runs when one `$` line arrives. */
  lemma {:induction false} DollarLineRuns(p: Parser, line: string)
    requires TextWaits(p) && IsLine(line) && line[0] == '$'
    ensures Feed(p, line).1 == NewParser(false)
    ensures Commands(AllEmitted(Feed(p, line).0)) == ShellUnlessEmpty(line[1..])
  {
    FeedDollarLine(p, line);
    hide Feed;
    var text := if p.buffer == "" then [] else [Lines(p.buffer)];
    TextThenCommand(text, line);
  }

  lemma {:induction false} TextThenCommand(text: seq<Piece>, line: string)
    requires IsLine(line) && line[0] == '$' && (text == [] || (|text| == 1 && text[0].Lines?))
    ensures Commands(AllEmitted(text + [Command(line[..|line| - 1])])) == ShellUnlessEmpty(line[1..])
  {
    CommandsOfCommand(line[1..]);
    CommandOfWholeLine(line);
    if text != [] {
      CommandsOfText(text[0].raw);
      assert text == [Lines(text[0].raw)];
    }
    hide AllEmitted, Commands, ShellUnlessEmpty;
    NoCommandsYet();
    AllEmittedAppend(text, [Command(line[..|line| - 1])]);
    CommandsAppend(AllEmitted(text), ShellUnlessEmpty(line[1..]));
    assert [] + ShellUnlessEmpty(line[1..]) == ShellUnlessEmpty(line[1..]);
  }

  lemma {:induction false} NoCommandsYet()
    ensures Commands(AllEmitted([])) == []
  {
  }

  lemma {:induction false} CommandOfWholeLine(line: string)
    requires IsLine(line) && line[0] == '$'
    ensures AllEmitted([Command(line[..|line| - 1])]) == ShellUnlessEmpty(line[1..])
  {
    var body := line[..|line| - 1];
    assert body != "" by {
      assert |line| > 1;
    }
    assert body[..1] == "$";
    assert [Command(body)][1..] == [];
    assert line[1..][..|line| - 2] == body[1..];
  }

  lemma {:induction false} CommandsOfCommand(command: string)
    ensures Commands(ShellUnlessEmpty(command)) == ShellUnlessEmpty(command)
  {
    if Trim(command) != "" {
      assert ShellUnlessEmpty(command)[1..] == [];
    }
  }

  lemma {:induction false} CommandsOfText(text: string)
    ensures Commands(AllEmitted([Lines(text)])) == []
  {
    assert [Lines(text)][1..] == [];
    if Trim(text) != "" {
      assert TextUnlessBlank(text)[1..] == [];
    }
  }

  /** When the stream arrives line by line, the commands that run are exactly its `$` lines, in order. */
  lemma {:induction false} EveryDollarLineRuns(p: Parser, lines: seq<string>)
    requires TextWaits(p) && forall i :: 0 <= i < |lines| ==> IsLine(lines[i])
    ensures Commands(AllEmitted(ParseAll(p, lines))) == CommandsOf(lines)
    decreases |lines|
  {
    hide TextWaits, Feed;
    if lines == [] {
      DrainShowsNoCommand(p);
    } else {
      var line, rest := lines[0], lines[1..];
      var (pieces, next) := Feed(p, line);
      if line[0] == '$' {
        DollarLineRuns(p, line);
        EmptyWaits(p);
      } else {
        FeedTextLine(p, line);
        NoCommandsYet();
      }
      hide ShellUnlessEmpty, IsLine;
      EveryDollarLineRuns(next, rest);
      AllEmittedAppend(pieces, ParseAll(next, rest));
      CommandsAppend(AllEmitted(pieces), AllEmitted(ParseAll(next, rest)));
    }
  }

  lemma {:induction false} EmptyWaits(p: Parser)
    requires TextWaits(p)
    ensures TextWaits(NewParser(false))
  {
  }

  lemma {:induction false} DrainShowsNoCommand(p: Parser)
    requires TextWaits(p)
    ensures Commands(AllEmitted(Drain(p).0)) == []
  {
    if p.buffer != "" {
      assert Drain(p).0[1..] == [];
      assert Emitted(Held(p.buffer))[1..] == [];
      assert Emitted(Held(p.buffer)) + [] == [Text(p.buffer)];
    }
  }

  /** Which commands run does depend on the chunks: of two `$` lines that arrive together at the
      start of the stream the first is handed on as text, though both run when they arrive apart. */
  lemma {:induction false} ChunksDecideWhatRuns(first: string, second: string)
    requires IsLine(first) && first[0] == '$' && IsLine(second) && second[0] == '$'
    ensures Commands(AllEmitted(ParseAll(NewParser(false), [first + second]))) == CommandsOf([second])
    ensures Commands(AllEmitted(ParseAll(NewParser(false), [first, second]))) == CommandsOf([first, second])
  {
    var p := NewParser(false);
    EveryDollarLineRuns(p, [first, second]);
    forall i: nat ensures !OccursAt(first, DOLLAR_LINE, i) {
      NewlineThenDollar(first, i);
    }
    DollarLineIsFound(first, second, ByteLen(first + second));
    hide Take;
    FoundLineRuns(Parser(first + second, Normal, false), ByteLen(first + second), Some(Lines(first)), second);
    hide Process;
    assert p.buffer + (first + second) == first + second;
    assert [first + second][1..] == [];
    var pieces := [Lines(first)] + [Command(second[..|second| - 1])];
    assert ParseAll(p, [first + second]) == pieces + [];
    assert pieces + [] == pieces;
    TextThenCommand([Lines(first)], second);
    assert [second][1..] == [];
  }
}
