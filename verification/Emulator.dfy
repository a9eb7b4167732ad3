/** The streaming parser for text-emulated tool calls (goose-local-inference, tool_emulation.rs). */
module Emulator {
  import opened Text

  datatype EmulatorAction = Text(text: string) | ShellCommand(command: string) | ExecuteCode(code: string)

  datatype ParserState = Normal | InCommand | InExecuteBlock

  const OPENER := "```execute_typescript"
  const FENCE := "```execute_typescript\n"
  const CLOSER := "\n```"
  const DOLLAR_LINE := "\n$"
  const HOLD_BACK_CODE_MODE := 23
  const HOLD_BACK_SHELL_ONLY := 2

  // ---------- string operations of the source ----------

  function CharBytes(c: char): nat {
    if c < '\U{80}' then 1 else if c < '\U{800}' then 2 else if c < '\U{10000}' then 3 else 4
  }

  /** `str::len`: the length in UTF-8 bytes. */
  function ByteLen(s: string): nat {
    if s == "" then 0 else CharBytes(s[0]) + ByteLen(s[1..])
  }

  predicate StartsWith(s: string, prefix: string) {
    |prefix| <= |s| && s[..|prefix|] == prefix
  }

  predicate EndsWith(s: string, suffix: string) {
    |suffix| <= |s| && s[|s| - |suffix|..] == suffix
  }

  function TrimEndMatches(s: string, suffix: string): string
    requires suffix != ""
  {
    if EndsWith(s, suffix) then TrimEndMatches(s[..|s| - |suffix|], suffix) else s
  }

  // ---------- what the parser consumes ----------

  /** One stretch of the stream as the parser takes it from its buffer. */
  datatype Piece =
    | Lines(raw: string)                   // text up to a line that starts with `$`
    | Held(raw: string)                    // text released by the hold-back rule, or by the flush
    | Command(line: string)                // a `$` line and its newline
    | LastCommand(line: string)            // a `$` line that the end of the stream cut short
    | BeforeFence(before: string)          // text and the opening fence after it
    | BeforeOpener(raw: string)            // text that ends with an opening fence without its newline
    | Code(code: string, newline: bool)    // a code block and its closing fence
    | LastCode(code: string)               // a code block that the end of the stream cut short

  function Raw(piece: Piece): string {
    match piece
    case Lines(raw) => raw
    case Held(raw) => raw
    case Command(line) => line + "\n"
    case LastCommand(line) => line
    case BeforeFence(before) => before + FENCE
    case BeforeOpener(raw) => raw
    case Code(code, newline) => code + CLOSER + if newline then "\n" else ""
    case LastCode(code) => code
  }

  function TextUnlessBlank(text: string): seq<EmulatorAction> {
    if Trim(text) == "" then [] else [Text(text)]
  }

  function ShellUnlessEmpty(command: string): seq<EmulatorAction> {
    if Trim(command) == "" then [] else [ShellCommand(Trim(command))]
  }

  /** What is emitted for a piece: blank text, empty commands and blank code are dropped. */
  function Emitted(piece: Piece): seq<EmulatorAction> {
    match piece
    case Lines(raw) => TextUnlessBlank(raw)
    case Held(raw) => [Text(raw)]
    case Command(line) => if StartsWith(line, "$") then ShellUnlessEmpty(line[1..]) else []
    case LastCommand(line) =>
      if StartsWith(Trim(line), "$") then ShellUnlessEmpty(Trim(line)[1..])
      else if Trim(line) != "" then [Text(line)] else []
    case BeforeFence(before) => TextUnlessBlank(before)
    case BeforeOpener(raw) => TextUnlessBlank(TrimEndMatches(raw, OPENER))
    case Code(code, _) => if Trim(code) == "" then [] else [ExecuteCode(code)]
    case LastCode(code) => if Trim(code) == "" then [] else [ExecuteCode(Trim(code))]
  }

  function AllRaw(pieces: seq<Piece>): string {
    if pieces == [] then "" else Raw(pieces[0]) + AllRaw(pieces[1..])
  }

  function AllEmitted(pieces: seq<Piece>): seq<EmulatorAction> {
    if pieces == [] then [] else Emitted(pieces[0]) + AllEmitted(pieces[1..])
  }

  lemma {:induction false} AllRawAppend(a: seq<Piece>, b: seq<Piece>)
    ensures AllRaw(a + b) == AllRaw(a) + AllRaw(b)
    decreases |a|
  {
    if a == [] {
      assert a + b == b;
    } else {
      assert (a + b)[1..] == a[1..] + b;
      AllRawAppend(a[1..], b);
    }
  }

  lemma {:induction false} AllEmittedAppend(a: seq<Piece>, b: seq<Piece>)
    ensures AllEmitted(a + b) == AllEmitted(a) + AllEmitted(b)
    decreases |a|
  {
    if a == [] {
      assert a + b == b;
    } else {
      assert (a + b)[1..] == a[1..] + b;
      AllEmittedAppend(a[1..], b);
    }
  }

  // ---------- the parser as a function ----------

  datatype Parser = Parser(buffer: string, state: ParserState, codeMode: bool)

  /** One turn of the loop: the piece it takes, the parser after it, and whether the loop goes on. */
  datatype Turn = Turn(piece: Option<Piece>, next: Parser, goOn: bool)

  function CommandTurn(p: Parser): Turn {
    match FindFrom(p.buffer, "\n", 0)
    case Some(i) => Turn(Some(Command(p.buffer[..i])), p.(buffer := p.buffer[i + 1..], state := Normal), true)
    case None => Turn(None, p, false)
  }

  function ExecuteTurn(p: Parser): Turn {
    match FindFrom(p.buffer, CLOSER, 0)
    case Some(i) =>
      var rest := p.buffer[i + 4..];
      var newline := StartsWith(rest, "\n");
      Turn(Some(Code(p.buffer[..i], newline)), p.(buffer := if newline then rest[1..] else rest, state := Normal), true)
    case None => Turn(None, p, false)
  }

  function HoldBack(p: Parser): nat {
    if p.codeMode then HOLD_BACK_CODE_MODE else HOLD_BACK_SHELL_ONLY
  }

  function HoldBackTurn(p: Parser): Turn {
    var keep := HoldBack(p);
    if |p.buffer| > keep && !EndsWith(p.buffer, "\n") then
      var cut := |p.buffer| - keep;
      Turn(Some(Held(p.buffer[..cut])), p.(buffer := p.buffer[cut..]), false)
    else
      Turn(None, p, false)
  }

  function DollarTurn(p: Parser, chunkBytes: nat): Turn {
    match FindFrom(p.buffer, DOLLAR_LINE, 0)
    case Some(i) =>
      Turn(Some(Lines(p.buffer[..i] + "\n")), p.(buffer := "$" + p.buffer[i + 2..], state := InCommand), true)
    case None =>
      if StartsWith(p.buffer, "$") && ByteLen(p.buffer) == chunkBytes then
        Turn(None, p.(state := InCommand), true)
      else
        HoldBackTurn(p)
  }

  function FenceTurn(p: Parser): Turn {
    match FindFrom(p.buffer, FENCE, 0)
    case Some(i) =>
      Turn(Some(BeforeFence(p.buffer[..i])), p.(buffer := p.buffer[i + |FENCE|..], state := InExecuteBlock), true)
    case None =>
      if EndsWith(p.buffer, OPENER) then
        Turn(Some(BeforeOpener(p.buffer)), p.(buffer := "", state := InExecuteBlock), true)
      else
        Turn(None, p, false)
  }

  function NormalTurn(p: Parser, chunkBytes: nat): Turn {
    if p.codeMode && FenceTurn(p).goOn then FenceTurn(p) else DollarTurn(p, chunkBytes)
  }

  function Take(p: Parser, chunkBytes: nat): (r: Turn)
    ensures r.goOn ==> |r.next.buffer| < |p.buffer| || (r.next.buffer == p.buffer && p.state.Normal? && !r.next.state.Normal?)
  {
    match p.state
    case InCommand => CommandTurn(p)
    case InExecuteBlock => ExecuteTurn(p)
    case Normal => NormalTurn(p, chunkBytes)
  }

  function Pieces(turn: Turn): seq<Piece> {
    match turn.piece
    case Some(piece) => [piece]
    case None => []
  }

  /** The loop of `process_chunk`, once the chunk is in the buffer. */
  function Process(p: Parser, chunkBytes: nat): (seq<Piece>, Parser)
    decreases |p.buffer|, if p.state.Normal? then 1 else 0
  {
    var turn := Take(p, chunkBytes);
    if !turn.goOn then (Pieces(turn), turn.next)
    else
      var (pieces, end) := Process(turn.next, chunkBytes);
      (Pieces(turn) + pieces, end)
  }

  function Feed(p: Parser, chunk: string): (seq<Piece>, Parser) {
    Process(p.(buffer := p.buffer + chunk), ByteLen(chunk))
  }

  /** `flush`. */
  function Drain(p: Parser): (seq<Piece>, Parser) {
    if p.buffer == "" then ([], p)
    else
      var piece :=
        match p.state
        case InCommand => LastCommand(p.buffer)
        case InExecuteBlock => LastCode(p.buffer)
        case Normal => Held(p.buffer);
      ([piece], p.(buffer := "", state := Normal))
  }

  /** Every chunk in turn, then the flush. */
  function ParseAll(p: Parser, chunks: seq<string>): seq<Piece>
    decreases |chunks|
  {
    if chunks == [] then Drain(p).0
    else
      var (pieces, next) := Feed(p, chunks[0]);
      pieces + ParseAll(next, chunks[1..])
  }

  function Concat(chunks: seq<string>): string {
    if chunks == [] then "" else chunks[0] + Concat(chunks[1..])
  }

  // ---------- the parser as the source writes it ----------

  class StreamingEmulatorParser {
    var buffer: string
    var state: ParserState
    const codeModeEnabled: bool

    constructor (codeModeEnabled: bool)
      ensures Value() == Parser("", Normal, codeModeEnabled)
    {
      buffer := "";
      state := Normal;
      this.codeModeEnabled := codeModeEnabled;
    }

    ghost function Value(): Parser
      reads this
    {
      Parser(buffer, state, codeModeEnabled)
    }

    method ProcessChunk(chunk: string) returns (results: seq<EmulatorAction>)
      modifies this
      ensures Value() == Feed(old(Value()), chunk).1
      ensures results == AllEmitted(Feed(old(Value()), chunk).0)
    {
      buffer := buffer + chunk;
      results := [];
      ghost var whole := Process(Value(), ByteLen(chunk));
      var goOn := true;
      while goOn
        invariant goOn ==> whole.1 == Process(Value(), ByteLen(chunk)).1
        invariant goOn ==> AllEmitted(whole.0) == results + AllEmitted(Process(Value(), ByteLen(chunk)).0)
        invariant !goOn ==> whole.1 == Value() && AllEmitted(whole.0) == results
        decreases goOn, |buffer|, if state.Normal? then 1 else 0
      {
        ghost var before, done := Value(), results;
        var emitted;
        emitted, goOn := OneTurn(chunk);
        results := results + emitted;
        ProcessTurn(before, ByteLen(chunk), done);
      }
    }

    method OneTurn(chunk: string) returns (results: seq<EmulatorAction>, goOn: bool)
      modifies this
      ensures var turn := Take(old(Value()), ByteLen(chunk));
              Value() == turn.next && goOn == turn.goOn && results == AllEmitted(Pieces(turn))
    {
      match state {
        case InCommand => results, goOn := CommandLine();
        case InExecuteBlock => results, goOn := ExecuteBlock();
        case Normal =>
          if codeModeEnabled {
            results, goOn := OpenFence();
            if goOn {
              return;
            }
          }
          results, goOn := DollarLine(chunk);
      }
    }

    method CommandLine() returns (results: seq<EmulatorAction>, goOn: bool)
      modifies this
      ensures Value() == CommandTurn(old(Value())).next && goOn == CommandTurn(old(Value())).goOn
      ensures results == AllEmitted(Pieces(CommandTurn(old(Value()))))
    {
      results, goOn := [], false;
      var newline := FindFrom(buffer, "\n", 0);
      if newline.Some? {
        var commandLine := buffer[..newline.value];
        if StartsWith(commandLine, "$") {
          var command := Trim(commandLine[1..]);
          if command != "" {
            results := [ShellCommand(command)];
          }
        }
        buffer := buffer[newline.value + 1..];
        state := Normal;
        goOn := true;
      }
    }

    method ExecuteBlock() returns (results: seq<EmulatorAction>, goOn: bool)
      modifies this
      ensures Value() == ExecuteTurn(old(Value())).next && goOn == ExecuteTurn(old(Value())).goOn
      ensures results == AllEmitted(Pieces(ExecuteTurn(old(Value()))))
    {
      results, goOn := [], false;
      var end := FindFrom(buffer, CLOSER, 0);
      if end.Some? {
        var code := buffer[..end.value];
        var rest := buffer[end.value + 4..];
        if StartsWith(rest, "\n") {
          rest := rest[1..];
        }
        buffer := rest;
        state := Normal;
        if Trim(code) != "" {
          results := [ExecuteCode(code)];
        }
        goOn := true;
      }
    }

    /** The two rules of code mode that open a code block. */
    method OpenFence() returns (results: seq<EmulatorAction>, goOn: bool)
      modifies this
      ensures Value() == FenceTurn(old(Value())).next && goOn == FenceTurn(old(Value())).goOn
      ensures results == AllEmitted(Pieces(FenceTurn(old(Value()))))
    {
      hide FindFrom, EndsWith, TrimEndMatches, Trim;
      results, goOn := [], false;
      var fence := FindFrom(buffer, FENCE, 0);
      if fence.Some? {
        var before := buffer[..fence.value];
        if Trim(before) != "" {
          results := [Text(before)];
        }
        buffer := buffer[fence.value + |FENCE|..];
        state := InExecuteBlock;
        goOn := true;
      } else if EndsWith(buffer, OPENER) {
        var before := TrimEndMatches(buffer, OPENER);
        if Trim(before) != "" {
          results := [Text(before)];
        }
        buffer := "";
        state := InExecuteBlock;
        goOn := true;
      }
    }

    /** A line that starts with `$`, or else the hold-back rule. */
    method DollarLine(chunk: string) returns (results: seq<EmulatorAction>, goOn: bool)
      requires state.Normal?
      modifies this
      ensures Value() == DollarTurn(old(Value()), ByteLen(chunk)).next
      ensures goOn == DollarTurn(old(Value()), ByteLen(chunk)).goOn
      ensures results == AllEmitted(Pieces(DollarTurn(old(Value()), ByteLen(chunk))))
    {
      results, goOn := [], false;
      var dollar := FindFrom(buffer, DOLLAR_LINE, 0);
      if dollar.Some? {
        var text := buffer[..dollar.value] + "\n";
        if Trim(text) != "" {
          results := [Text(text)];
        }
        buffer := "$" + buffer[dollar.value + 2..];
        state := InCommand;
        goOn := true;
      } else if StartsWith(buffer, "$") && ByteLen(buffer) == ByteLen(chunk) {
        state := InCommand;
        goOn := true;
      } else {
        var holdBack := if codeModeEnabled then HOLD_BACK_CODE_MODE else HOLD_BACK_SHELL_ONLY;
        if |buffer| > holdBack && !EndsWith(buffer, "\n") {
          var emitCount := |buffer| - holdBack;
          var emitText, keepText := buffer[..emitCount], buffer[emitCount..];
          if emitText != "" {
            results := [Text(emitText)];
          }
          buffer := keepText;
        }
      }
    }

    method Flush() returns (results: seq<EmulatorAction>)
      modifies this
      ensures Value() == Drain(old(Value())).1
      ensures results == AllEmitted(Drain(old(Value())).0)
    {
      results := [];
      if buffer != "" {
        match state {
          case InCommand =>
            var commandLine := Trim(buffer);
            if StartsWith(commandLine, "$") {
              var command := Trim(commandLine[1..]);
              if command != "" {
                results := [ShellCommand(command)];
              }
            } else if commandLine != "" {
              results := [Text(buffer)];
            }
          case InExecuteBlock =>
            var code := Trim(buffer);
            if code != "" {
              results := [ExecuteCode(code)];
            }
          case Normal =>
            results := [Text(buffer)];
        }
        buffer := "";
        state := Normal;
      }
    }
  }

  /** One turn of the loop, seen from what was emitted before it. */
  lemma {:induction false} ProcessTurn(p: Parser, chunkBytes: nat, done: seq<EmulatorAction>)
    ensures var turn := Take(p, chunkBytes);
            var whole := Process(p, chunkBytes);
            if turn.goOn then
              && whole.1 == Process(turn.next, chunkBytes).1
              && done + AllEmitted(whole.0) == done + AllEmitted(Pieces(turn)) + AllEmitted(Process(turn.next, chunkBytes).0)
            else
              whole.1 == turn.next && whole.0 == Pieces(turn)
  {
    var turn := Take(p, chunkBytes);
    if turn.goOn {
      AllEmittedAppend(Pieces(turn), Process(turn.next, chunkBytes).0);
    }
  }
}
