/** What runs in code mode: every opening fence that is taken opens a block, and what is executed is
    what stands in the stream at the blocks and `$` lines taken, verbatim and in order. */
module EmulatorBlocks {
  import opened Text
  import opened Emulator
  import opened EmulatorProperties
  import opened EmulatorLines

  /** The pieces of a stream in code mode. */
  function CodePieces(chunks: seq<string>): seq<Piece> {
    ParseAll(NewParser(true), chunks)
  }

  // ---------- the order of the pieces ----------

  predicate IsFence(piece: Piece) {
    piece.BeforeFence? || piece.BeforeOpener?
  }

  /** A block comes after an opening fence and nowhere else, and after text up to a `$` line comes that line. */
  predicate FitsAfter(prev: Option<Piece>, piece: Piece) {
    && Raw(piece) != ""
    && (CodeOf(piece).Some? <==> prev.Some? && IsFence(prev.value))
    && (prev.Some? && prev.value.Lines? ==> CommandLine(piece).Some?)
  }

  predicate InOrder(prev: Option<Piece>, pieces: seq<Piece>)
    decreases |pieces|
  {
    pieces != [] ==> FitsAfter(prev, pieces[0]) && InOrder(Some(pieces[0]), pieces[1..])
  }

  function LastOf(prev: Option<Piece>, pieces: seq<Piece>): Option<Piece> {
    if pieces == [] then prev else Some(pieces[|pieces| - 1])
  }

  /** The parser's state is what the last piece calls for. */
  predicate StateFits(prev: Option<Piece>, p: Parser) {
    && (p.state.InExecuteBlock? <==> prev.Some? && IsFence(prev.value))
    && (prev.Some? && prev.value.Lines? ==> p.state.InCommand?)
  }

  lemma {:induction false} InOrderAppend(prev: Option<Piece>, a: seq<Piece>, b: seq<Piece>)
    requires InOrder(prev, a) && InOrder(LastOf(prev, a), b)
    ensures InOrder(prev, a + b) && LastOf(prev, a + b) == LastOf(LastOf(prev, a), b)
    decreases |a|
  {
    hide FitsAfter;
    if a == [] {
      assert a + b == b;
    } else {
      assert (a + b)[1..] == a[1..] + b;
      InOrderAppend(Some(a[0]), a[1..], b);
    }
  }

  lemma {:induction false} InOrderOne(prev: Option<Piece>, piece: Piece)
    requires FitsAfter(prev, piece)
    ensures InOrder(prev, [piece]) && LastOf(prev, [piece]) == Some(piece)
  {
    assert [piece][1..] == [];
  }

  lemma {:induction false} TurnFits(prev: Option<Piece>, p: Parser, chunkBytes: nat)
    requires StateFits(prev, p)
    ensures var turn := Take(p, chunkBytes);
            if turn.piece.Some? then FitsAfter(prev, turn.piece.value) && StateFits(turn.piece, turn.next)
            else StateFits(prev, turn.next)
  {
    hide FindFrom, ByteLen;
  }

  lemma {:induction false} ProcessFits(prev: Option<Piece>, p: Parser, chunkBytes: nat)
    requires StateFits(prev, p)
    ensures var (pieces, end) := Process(p, chunkBytes); InOrder(prev, pieces) && StateFits(LastOf(prev, pieces), end)
    decreases |p.buffer|, if p.state.Normal? then 1 else 0
  {
    hide Take, StateFits, FitsAfter, LastOf;
    var turn := Take(p, chunkBytes);
    TurnFits(prev, p, chunkBytes);
    NoneIsInOrder(prev);
    if turn.piece.Some? {
      InOrderOne(prev, turn.piece.value);
    }
    if turn.goOn {
      var prev' := LastOf(prev, Pieces(turn));
      ProcessFits(prev', turn.next, chunkBytes);
      InOrderAppend(prev, Pieces(turn), Process(turn.next, chunkBytes).0);
    }
  }

  lemma {:induction false} NoneIsInOrder(prev: Option<Piece>)
    ensures InOrder(prev, []) && LastOf(prev, []) == prev
  {
  }

  lemma {:induction false} ParseFits(prev: Option<Piece>, p: Parser, chunks: seq<string>)
    requires StateFits(prev, p)
    ensures InOrder(prev, ParseAll(p, chunks))
    decreases |chunks|
  {
    hide Process, FitsAfter;
    if chunks == [] {
      DrainFits(prev, p);
    } else {
      ProcessFits(prev, p.(buffer := p.buffer + chunks[0]), ByteLen(chunks[0]));
      var (pieces, next) := Feed(p, chunks[0]);
      ParseFits(LastOf(prev, pieces), next, chunks[1..]);
      hide StateFits, InOrder, LastOf;
      InOrderAppend(prev, pieces, ParseAll(next, chunks[1..]));
    }
  }

  lemma {:induction false} DrainFits(prev: Option<Piece>, p: Parser)
    requires StateFits(prev, p)
    ensures InOrder(prev, Drain(p).0)
  {
    if p.buffer != "" {
      InOrderOne(prev, Drain(p).0[0]);
    }
  }

  lemma {:induction false} InOrderAt(prev: Option<Piece>, pieces: seq<Piece>, i: nat)
    requires InOrder(prev, pieces) && i < |pieces|
    ensures FitsAfter(if i == 0 then prev else Some(pieces[i - 1]), pieces[i])
    decreases i
  {
    hide FitsAfter;
    if i > 0 {
      InOrderAt(Some(pieces[0]), pieces[1..], i - 1);
    }
  }

  /** In both modes, for every chunking: no piece is empty; a block comes right after each opening fence
      that is taken, unless the stream ends there, and nowhere else; and after text up to a `$` line
      comes that line. */
  lemma {:induction false} BlocksFollowFences(codeMode: bool, chunks: seq<string>, i: nat)
    requires i < |ParseAll(NewParser(codeMode), chunks)|
    ensures var pieces := ParseAll(NewParser(codeMode), chunks);
            && Raw(pieces[i]) != ""
            && (CodeOf(pieces[i]).Some? <==> i > 0 && IsFence(pieces[i - 1]))
            && (i > 0 && pieces[i - 1].Lines? ==> CommandLine(pieces[i]).Some?)
  {
    hide ParseAll;
    ParseFits(None, NewParser(codeMode), chunks);
    InOrderAt(None, ParseAll(NewParser(codeMode), chunks), i);
  }

  // ---------- what runs, by position ----------

  lemma {:induction false} StartsApart(chunks: seq<string>, i: nat, j: nat)
    requires i < j <= |CodePieces(chunks)|
    ensures StartOf(CodePieces(chunks), i) < StartOf(CodePieces(chunks), j)
  {
    var pieces := CodePieces(chunks);
    BlocksFollowFences(true, chunks, i);
    hide CodePieces, AllRaw;
    NextStart(pieces, i);
    StartsGrow(pieces, i + 1, j);
  }

  lemma {:induction false} SameCodePiece(chunks: seq<string>, i: nat, j: nat)
    requires i <= |CodePieces(chunks)| && j <= |CodePieces(chunks)|
    requires StartOf(CodePieces(chunks), i) == StartOf(CodePieces(chunks), j)
    ensures i == j
  {
    hide CodePieces, StartOf;
    if i < j {
      StartsApart(chunks, i, j);
    } else if j < i {
      StartsApart(chunks, j, i);
    }
  }

  /** A block is taken at `o`. */
  ghost predicate BlockAt(chunks: seq<string>, o: nat) {
    exists i: nat :: i < |CodePieces(chunks)| && StartOf(CodePieces(chunks), i) == o && CodeOf(CodePieces(chunks)[i]).Some?
  }

  /** A `$` line is taken at `o`. */
  ghost predicate LineAt(chunks: seq<string>, o: nat) {
    exists i: nat :: i < |CodePieces(chunks)| && StartOf(CodePieces(chunks), i) == o && CommandLine(CodePieces(chunks)[i]).Some?
  }

  lemma {:induction false} PieceAtMeans(chunks: seq<string>, i: nat)
    requires i < |CodePieces(chunks)|
    ensures BlockAt(chunks, StartOf(CodePieces(chunks), i)) <==> CodeOf(CodePieces(chunks)[i]).Some?
    ensures LineAt(chunks, StartOf(CodePieces(chunks), i)) <==> CommandLine(CodePieces(chunks)[i]).Some?
  {
    hide CodePieces, StartOf;
    var o := StartOf(CodePieces(chunks), i);
    if BlockAt(chunks, o) {
      var j: nat :| j < |CodePieces(chunks)| && StartOf(CodePieces(chunks), j) == o && CodeOf(CodePieces(chunks)[j]).Some?;
      SameCodePiece(chunks, i, j);
    }
    if LineAt(chunks, o) {
      var j: nat :| j < |CodePieces(chunks)| && StartOf(CodePieces(chunks), j) == o && CommandLine(CodePieces(chunks)[j]).Some?;
      SameCodePiece(chunks, i, j);
    }
  }

  /** What a block that starts at `o` runs: everything up to the first closing fence after it, as it
      stands there; or, if the stream has none, the rest of the stream, trimmed. Blank code runs nothing. */
  function BlockRuns(text: string, o: nat): seq<EmulatorAction>
    requires o <= |text|
  {
    match FindFrom(text, CLOSER, o)
    case Some(e) => if o <= e <= |text| && !AllBlank(text[o..e]) then [ExecuteCode(text[o..e])] else []
    case None => if AllBlank(text[o..]) then [] else [ExecuteCode(Trim(text[o..]))]
  }

  /** What runs at `o`, where a block or a `$` line is taken, or neither. */
  function RunsAt(text: string, o: nat, block: bool, line: bool): seq<EmulatorAction>
    requires o <= |text|
  {
    if block then BlockRuns(text, o)
    else if line && LineFrom(text, o) != "" then ShellUnlessEmpty(LineFrom(text, o)[1..])
    else []
  }

  /** What the blocks and `$` lines taken from `o` on run, in order. */
  ghost function ActionsFrom(chunks: seq<string>, o: nat): seq<EmulatorAction>
    requires o <= |Concat(chunks)|
    decreases |Concat(chunks)| - o
  {
    var text := Concat(chunks);
    if o == |text| then []
    else
      RunsAt(text, o, BlockAt(chunks, o), LineAt(chunks, o)) + ActionsFrom(chunks, o + 1)
  }

  lemma {:induction false} NothingTakenBetween(chunks: seq<string>, a: nat, b: nat)
    requires a <= b <= |Concat(chunks)| && forall o: nat :: a <= o < b ==> !BlockAt(chunks, o) && !LineAt(chunks, o)
    ensures ActionsFrom(chunks, a) == ActionsFrom(chunks, b)
    decreases b - a
  {
    hide Concat, BlockAt, LineAt, BlockRuns;
    if a < b {
      NothingTakenBetween(chunks, a + 1, b);
      assert [] + ActionsFrom(chunks, a + 1) == ActionsFrom(chunks, a + 1);
    }
  }

  lemma {:induction false} NothingTakenInside(chunks: seq<string>, i: nat, o: nat)
    requires i < |CodePieces(chunks)| && StartOf(CodePieces(chunks), i) < o < StartOf(CodePieces(chunks), i + 1)
    ensures !BlockAt(chunks, o) && !LineAt(chunks, o)
  {
    hide CodePieces, StartOf;
    forall j: nat | j < |CodePieces(chunks)| ensures StartOf(CodePieces(chunks), j) != o {
      if j <= i {
        StartsGrow(CodePieces(chunks), j, i);
      } else {
        StartsGrow(CodePieces(chunks), i + 1, j);
      }
    }
  }

  /** No closing fence starts inside code that holds none and is followed by one. */
  lemma {:induction false} FirstCloser(before: string, code: string, after: string)
    requires !Contains(code, CLOSER)
    ensures FindFrom(before + code + CLOSER + after, CLOSER, |before|) == Some(|before| + |code|)
  {
    var text := before + code + CLOSER + after;
    var e := |before| + |code|;
    MiddleIs(before + code, CLOSER, after);
    MiddleIs(before, code, CLOSER + after);
    Assoc(before + code, CLOSER, after);
    OccursMeans(text, CLOSER, e);
    forall j: nat | |before| <= j < e ensures !OccursAt(text, CLOSER, j) {
      if OccursAt(text, CLOSER, j) {
        OccursMeans(text, CLOSER, j);
        CloserOverlaps(text, j, e);
        assert code[j - |before|..j - |before| + 4] == text[j..j + 4];
        OccursMeans(code, CLOSER, j - |before|);
      }
    }
    FindFromIs(text, CLOSER, |before|, e);
  }

  /** Two closing fences do not overlap. */
  lemma {:induction false} CloserOverlaps(text: string, j: nat, e: nat)
    requires j < e && e + 4 <= |text| && text[j..j + 4] == CLOSER && text[e..e + 4] == CLOSER
    ensures j + 4 <= e
  {
    assert text[e] == text[e..e + 4][0] == '\n';
    assert text[j + 1] == text[j..j + 4][1] && text[j + 2] == text[j..j + 4][2] && text[j + 3] == text[j..j + 4][3];
  }

  /** All there is to know about one piece in code mode. */
  lemma {:induction false} CodePieceIs(chunks: seq<string>, i: nat)
    requires i < |CodePieces(chunks)|
    ensures var pieces, text := CodePieces(chunks), Concat(chunks);
            var before, after := AllRaw(pieces[..i]), AllRaw(pieces[i + 1..]);
            && GoodPiece(before, pieces[i], true) && text == before + Raw(pieces[i]) + after && Raw(pieces[i]) != ""
            && (CutOff(pieces[i]) ==> after == "")
  {
    PieceInStream(true, chunks, i);
    BlocksFollowFences(true, chunks, i);
    hide ParseAll;
  }

  lemma {:induction false} NoCloser(before: string, code: string)
    requires !Contains(code, CLOSER)
    ensures FindFrom(before + code, CLOSER, |before|) == None
  {
    var text := before + code;
    forall j: nat | |before| <= j ensures !OccursAt(text, CLOSER, j) {
      if OccursAt(text, CLOSER, j) {
        OccursMeans(text, CLOSER, j);
        assert code[j - |before|..j - |before| + 4] == text[j..j + 4];
        OccursMeans(code, CLOSER, j - |before|);
      }
    }
    FindFromNone(text, CLOSER, |before|);
  }

  lemma {:induction false} ClosedBlockRuns(before: string, code: string, tail: string)
    requires !Contains(code, CLOSER)
    ensures BlockRuns(before + code + CLOSER + tail, |before|) == if Trim(code) == "" then [] else [ExecuteCode(code)]
  {
    FirstCloser(before, code, tail);
    TrimIsEmptyIffBlank(code);
    hide FindFrom, AllBlank, Trim, Contains;
    Assoc(before + code, CLOSER, tail);
    CodeStands(before, code, CLOSER + tail);
  }

  lemma {:induction false} OpenBlockRuns(before: string, code: string)
    requires !Contains(code, CLOSER)
    ensures BlockRuns(before + code, |before|) == if Trim(code) == "" then [] else [ExecuteCode(Trim(code))]
  {
    NoCloser(before, code);
    TrimIsEmptyIffBlank(code);
    hide FindFrom, AllBlank, Trim, Contains;
    assert (before + code)[|before|..] == code;
  }

  lemma {:induction false} BlockRunsIs(before: string, piece: Piece, after: string)
    requires CodeOf(piece).Some? && !Contains(CodeOf(piece).value, CLOSER) && (piece.LastCode? ==> after == "")
    ensures BlockRuns(before + Raw(piece) + after, |before|) == Emitted(piece)
  {
    hide Contains, Trim, BlockRuns;
    var code := CodeOf(piece).value;
    if piece.Code? {
      var newline := if piece.newline then "\n" else "";
      ClosedBlockRuns(before, code, newline + after);
      Assoc(code, CLOSER, newline);
      Assoc(before, code, CLOSER + newline);
      Assoc(before + code, CLOSER, newline);
      Assoc(before + code + CLOSER, newline, after);
    } else {
      OpenBlockRuns(before, code);
      assert before + Raw(piece) + after == before + code;
    }
  }

  lemma {:induction false} CodeStands(before: string, code: string, after: string)
    ensures (before + code + after)[|before|..|before| + |code|] == code
  {
  }

  lemma {:induction false} LineRunsIs(before: string, piece: Piece, after: string)
    requires CommandLine(piece).Some? && DollarLine(CommandLine(piece).value) && (piece.LastCommand? ==> after == "")
    ensures LineFrom(before + Raw(piece) + after, |before|) == CommandLine(piece).value
  {
    var line := CommandLine(piece).value;
    var text := before + Raw(piece) + after;
    var e := |before| + |line|;
    assert text[|before|..e] == line;
    forall j | |before| <= j < e ensures text[j] != '\n' {
      assert text[j] == line[j - |before|];
    }
    LineFromIs(text, |before|, e);
  }

  lemma {:induction false} OtherPiecesRunNothing(piece: Piece)
    requires CommandLine(piece).None? && CodeOf(piece).None?
    ensures Commands(Emitted(piece)) == []
  {
    hide Trim, TrimEndMatches;
    TextsRunNothing(Emitted(piece));
  }

  lemma {:induction false} CommandsOfCode(actions: seq<EmulatorAction>)
    requires |actions| <= 1 && forall a <- actions :: !a.Text?
    ensures Commands(actions) == actions
  {
    if actions != [] {
      assert actions[1..] == [] && actions == [actions[0]];
    }
  }

  /** What a piece runs is what stands at its first position. */
  lemma {:induction false} PieceRunsAt(before: string, piece: Piece, after: string)
    requires GoodPiece(before, piece, true) && (CutOff(piece) ==> after == "")
    ensures Commands(Emitted(piece)) ==
            RunsAt(before + Raw(piece) + after, |before|, CodeOf(piece).Some?, CommandLine(piece).Some?)
  {
    hide Fenced, Contains, Commands, BlockRuns, LineFrom, Emitted, ShellUnlessEmpty, Raw;
    if CodeOf(piece).Some? {
      BlockRunsIs(before, piece, after);
      NoTextFromCode(piece);
      CommandsOfCode(Emitted(piece));
    } else if CommandLine(piece).Some? {
      LineRunsIs(before, piece, after);
      CommandOfLine(piece);
      CommandsOfCommand(CommandLine(piece).value[1..]);
    } else {
      OtherPiecesRunNothing(piece);
    }
  }

  lemma {:induction false} NoTextFromCode(piece: Piece)
    requires CodeOf(piece).Some?
    ensures |Emitted(piece)| <= 1 && forall a <- Emitted(piece) :: !a.Text?
  {
  }

  lemma {:induction false} CodePieceRuns(chunks: seq<string>, i: nat)
    requires i < |CodePieces(chunks)|
    ensures var pieces, text := CodePieces(chunks), Concat(chunks);
            var o := StartOf(pieces, i);
            o < |text| && Commands(Emitted(pieces[i])) == RunsAt(text, o, BlockAt(chunks, o), LineAt(chunks, o))
  {
    CodePieceIs(chunks, i);
    PieceAtMeans(chunks, i);
    hide CodePieces, AllRaw, BlockAt, LineAt, Concat, RunsAt, Commands, Emitted, Raw, GoodPiece;
    var pieces := CodePieces(chunks);
    PieceRunsAt(AllRaw(pieces[..i]), pieces[i], AllRaw(pieces[i + 1..]));
  }

  lemma {:induction false} ActionsOfPiece(chunks: seq<string>, i: nat)
    requires i < |CodePieces(chunks)|
    ensures var pieces := CodePieces(chunks);
            && StartOf(pieces, i) < StartOf(pieces, i + 1) <= |Concat(chunks)|
            && ActionsFrom(chunks, StartOf(pieces, i)) ==
               Commands(Emitted(pieces[i])) + ActionsFrom(chunks, StartOf(pieces, i + 1))
  {
    hide CodePieces, Concat, StartOf, BlockAt, LineAt, RunsAt, Emitted, Commands;
    var o, next := StartOf(CodePieces(chunks), i), StartOf(CodePieces(chunks), i + 1);
    StartsApart(chunks, i, i + 1);
    CodeStartsInside(chunks, i + 1);
    CodePieceRuns(chunks, i);
    forall p: nat | o + 1 <= p < next ensures !BlockAt(chunks, p) && !LineAt(chunks, p) {
      NothingTakenInside(chunks, i, p);
    }
    NothingTakenBetween(chunks, o + 1, next);
  }

  lemma {:induction false} CodeStartsInside(chunks: seq<string>, i: nat)
    requires i <= |CodePieces(chunks)|
    ensures StartOf(CodePieces(chunks), i) <= |Concat(chunks)|
    ensures i == |CodePieces(chunks)| ==> StartOf(CodePieces(chunks), i) == |Concat(chunks)|
  {
    var pieces := CodePieces(chunks);
    PiecesTileTheStream(true, chunks);
    assert pieces[..|pieces|] == pieces;
    StartsGrow(pieces, i, |pieces|);
  }

  lemma {:induction false} ActionsFromPiece(chunks: seq<string>, i: nat)
    requires i <= |CodePieces(chunks)| && StartOf(CodePieces(chunks), i) <= |Concat(chunks)|
    ensures Commands(AllEmitted(CodePieces(chunks)[i..])) == ActionsFrom(chunks, StartOf(CodePieces(chunks), i))
    decreases |CodePieces(chunks)| - i
  {
    var pieces := CodePieces(chunks);
    if i == |pieces| {
      CodeStartsInside(chunks, i);
      assert pieces[i..] == [];
      NoCommandsYet();
    } else {
      ActionsOfPiece(chunks, i);
      hide CodePieces, Concat, StartOf, ActionsFrom, Emitted, Commands;
      ActionsFromPiece(chunks, i + 1);
      assert pieces[i..][1..] == pieces[i + 1..];
      CommandsAppend(Emitted(pieces[i]), AllEmitted(pieces[i + 1..]));
    }
  }

  /** In code mode, for every stream and every way of cutting it into chunks, what runs is, in order,
      the text of the blocks taken, verbatim up to the closing fence or trimmed at the end of the
      stream, and the commands of the `$` lines taken. */
  lemma {:induction false} BlocksRunVerbatim(chunks: seq<string>)
    ensures Commands(AllEmitted(ParseAll(NewParser(true), chunks))) == ActionsFrom(chunks, 0)
  {
    assert CodePieces(chunks)[0..] == CodePieces(chunks) && CodePieces(chunks)[..0] == [];
    ActionsFromPiece(chunks, 0);
  }

  // ---------- conservation in code mode ----------

  /** The opening fences that end the text. */
  function TrailingOpeners(raw: string): string {
    if EndsWith(raw, OPENER) then TrailingOpeners(raw[..|raw| - |OPENER|]) + OPENER else ""
  }

  /** The fences a piece takes with it, which are not shown. */
  function Fences(piece: Piece): string {
    match piece
    case BeforeFence(_) => FENCE
    case BeforeOpener(raw) => TrailingOpeners(raw)
    case Code(_, _) => CLOSER
    case _ => ""
  }

  function AllShowWithFences(pieces: seq<Piece>): string {
    if pieces == [] then "" else PieceShows(pieces[0]) + Sig(Fences(pieces[0])) + AllShowWithFences(pieces[1..])
  }

  lemma {:induction false} TrimmedAndOpeners(raw: string)
    ensures TrimEndMatches(raw, OPENER) + TrailingOpeners(raw) == raw
    decreases |raw|
  {
    if EndsWith(raw, OPENER) {
      TrimmedAndOpeners(raw[..|raw| - |OPENER|]);
      assert raw == raw[..|raw| - |OPENER|] + OPENER;
    }
  }

  lemma {:induction false} SigOfNewline(newline: bool)
    ensures Sig(if newline then "\n" else "") == ""
  {
    assert "\n"[1..] == "";
  }

  lemma {:induction false} TextShows(text: string)
    ensures Shown(TextUnlessBlank(text)) == Sig(text)
  {
    SigTrim(text);
    ShownOne(Text(text));
  }

  lemma {:induction false} CodeShows(piece: Piece)
    requires CodeOf(piece).Some?
    ensures Shown(Emitted(piece)) == Sig(CodeOf(piece).value)
  {
    var code := CodeOf(piece).value;
    SigTrim(code);
    ShownOne(ExecuteCode(code));
    ShownOne(ExecuteCode(Trim(code)));
  }

  lemma {:induction false} FenceIsConserved(piece: Piece)
    requires IsFence(piece)
    ensures PieceShows(piece) + Sig(Fences(piece)) == Sig(Raw(piece))
  {
    hide Trim, TrimEndMatches, TrailingOpeners, TextUnlessBlank, Shown, Sig;
    match piece {
      case BeforeFence(text) =>
        TextShows(text);
        SigAppend(text, FENCE);
      case BeforeOpener(raw) =>
        TextShows(TrimEndMatches(raw, OPENER));
        TrimmedAndOpeners(raw);
        SigAppend(TrimEndMatches(raw, OPENER), TrailingOpeners(raw));
    }
  }

  lemma {:induction false} BlockIsConserved(piece: Piece)
    requires CodeOf(piece).Some?
    ensures PieceShows(piece) + Sig(Fences(piece)) == Sig(Raw(piece))
  {
    CodeShows(piece);
    assert Sig("") == "";
    hide Emitted, Shown, Sig;
    if piece.Code? {
      var newline := if piece.newline then "\n" else "";
      SigOfNewline(piece.newline);
      SigAppend(piece.code + CLOSER, newline);
      SigAppend(piece.code, CLOSER);
      Assoc(piece.code, CLOSER, newline);
    }
  }

  lemma {:induction false} CodeModePieceIsConserved(before: string, piece: Piece)
    requires GoodPiece(before, piece, true)
    ensures PieceShows(piece) + Sig(Fences(piece)) == Sig(Raw(piece))
  {
    hide Trim, Contains, Fenced;
    if IsFence(piece) {
      FenceIsConserved(piece);
    } else if CodeOf(piece).Some? {
      BlockIsConserved(piece);
    } else {
      assert Sig("") == "";
      if CommandLine(piece).Some? {
        CommandIsConserved(piece);
      } else {
        TextShows(Raw(piece));
        ShownOne(Text(Raw(piece)));
      }
    }
  }

  lemma {:induction false} CommandIsConserved(piece: Piece)
    requires CommandLine(piece).Some? && DollarLine(CommandLine(piece).value)
    ensures PieceShows(piece) == Sig(Raw(piece))
  {
    hide Trim;
    var line := CommandLine(piece).value;
    CommandOfLine(piece);
    SigOfCommandLine(line);
    ShownOne(ShellCommand(Trim(line[1..])));
  }

  lemma {:induction false} CodeModePiecesAreConserved(before: string, pieces: seq<Piece>)
    requires GoodPieces(before, pieces, true)
    ensures AllShowWithFences(pieces) == Sig(AllRaw(pieces))
    decreases |pieces|
  {
    hide GoodPiece, PieceShows, Fences, Raw;
    if pieces != [] {
      CodeModePieceIsConserved(before, pieces[0]);
      CodeModePiecesAreConserved(before + Raw(pieces[0]), pieces[1..]);
      SigAppend(Raw(pieces[0]), AllRaw(pieces[1..]));
    }
  }

  /** In code mode no character but whitespace is lost, repeated or reordered either: with the fences
      put back, what is emitted shows exactly the stream's non-whitespace characters. */
  lemma {:induction false} NothingIsLostInCodeMode(chunks: seq<string>)
    ensures AllShowWithFences(ParseAll(NewParser(true), chunks)) == Sig(Concat(chunks))
  {
    var pieces := ParseAll(NewParser(true), chunks);
    NewIsSettled(true);
    ParseIsGood(NewParser(true), "", chunks);
    CodeModePiecesAreConserved("", pieces);
    PiecesTileTheStream(true, chunks);
  }

  /** In both modes text is shown as it stands in the stream: every text shown is a stretch of it, up
      to the fences that follow it. */
  lemma {:induction false} TextIsVerbatim(codeMode: bool, chunks: seq<string>, i: nat, a: EmulatorAction)
    requires i < |ParseAll(NewParser(codeMode), chunks)|
    requires a in Emitted(ParseAll(NewParser(codeMode), chunks)[i]) && a.Text?
    ensures var pieces, text := ParseAll(NewParser(codeMode), chunks), Concat(chunks);
            var o, e := StartOf(pieces, i), StartOf(pieces, i + 1);
            o <= e <= |text| && text[o..e] == a.text + Fences(pieces[i])
  {
    var pieces, text := ParseAll(NewParser(codeMode), chunks), Concat(chunks);
    PieceInStream(codeMode, chunks, i);
    NextStart(pieces, i);
    hide ParseAll, AllRaw, Concat;
    ShownAsItIs(AllRaw(pieces[..i]), pieces[i], codeMode, a);
    CodeStands(AllRaw(pieces[..i]), Raw(pieces[i]), AllRaw(pieces[i + 1..]));
  }

  lemma {:induction false} ShownAsItIs(before: string, piece: Piece, codeMode: bool, a: EmulatorAction)
    requires GoodPiece(before, piece, codeMode) && a in Emitted(piece) && a.Text?
    ensures Raw(piece) == a.text + Fences(piece)
  {
    hide Trim, TrimEndMatches, TrailingOpeners, Contains, Fenced;
    match piece {
      case BeforeOpener(raw) => TrimmedAndOpeners(raw);
      case LastCommand(line) => CommandOfLine(piece);
      case Command(line) => CommandOfLine(piece);
      case _ =>
    }
  }

  // ---------- text is not held back longer than it has to be ----------

  /** How many characters an opening fence or a `$` line that may be starting can take up. */
  function LongestWait(codeMode: bool): nat {
    if codeMode then |FENCE| + 1 else |DOLLAR_LINE|
  }

  lemma {:induction false} StopsWithLittle(p: Parser, chunkBytes: nat)
    ensures var turn := Take(p, chunkBytes);
            !turn.goOn && turn.next.state.Normal? && |turn.next.buffer| > LongestWait(p.codeMode) ==>
              EndsWith(turn.next.buffer, "\n")
  {
    hide FindFrom, ByteLen;
  }

  /** After a chunk, text that does not end a line waits no longer than a fence or the start of a `$`
      line may need. */
  lemma {:induction false} TextIsShownPromptly(p: Parser, chunkBytes: nat)
    ensures var end := Process(p, chunkBytes).1;
            end.state.Normal? && |end.buffer| > LongestWait(p.codeMode) ==> EndsWith(end.buffer, "\n")
    ensures Process(p, chunkBytes).1.codeMode == p.codeMode
    decreases |p.buffer|, if p.state.Normal? then 1 else 0
  {
    StopsWithLittle(p, chunkBytes);
    KeepsMode(p, chunkBytes);
    hide Take, EndsWith;
    var turn := Take(p, chunkBytes);
    if turn.goOn {
      TextIsShownPromptly(turn.next, chunkBytes);
    }
  }

  lemma {:induction false} KeepsMode(p: Parser, chunkBytes: nat)
    ensures Take(p, chunkBytes).next.codeMode == p.codeMode
  {
  }
}
