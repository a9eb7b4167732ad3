/** The bracket-and-string scanners of json.rs: repairing truncated JSON, detecting truncation,
    and escaping raw control characters. */
module JsonScan {
  import opened Text

  /** The scanners' state: inside a string literal, just after a backslash there, and the closing
      brackets still owed, innermost last. */
  datatype Scan = Scan(inString: bool, escaped: bool, closers: seq<char>)

  const START := Scan(false, false, [])

  predicate IsCloser(c: char) {
    c == '}' || c == ']'
  }

  /** One character of the repairing scanner, which passes over a closer that closes nothing. */
  function Step(s: Scan, c: char): Scan {
    if s.inString then
      if s.escaped then s.(escaped := false)
      else if c == '\\' then s.(escaped := true)
      else if c == '"' then s.(inString := false)
      else s
    else if c == '"' then s.(inString := true)
    else if c == '{' then s.(closers := s.closers + ['}'])
    else if c == '[' then s.(closers := s.closers + [']'])
    else if IsCloser(c) && s.closers != [] && s.closers[|s.closers| - 1] == c then
      s.(closers := s.closers[..|s.closers| - 1])
    else s
  }

  function Run(s: Scan, t: string): Scan
    decreases |t|
  {
    if t == "" then s else Run(Step(s, t[0]), t[1..])
  }

  /** `c` is a closer that does not close the innermost open bracket. */
  predicate Mismatched(s: Scan, c: char) {
    !s.inString && IsCloser(c) && !(s.closers != [] && s.closers[|s.closers| - 1] == c)
  }

  /** No closer in `t` is mismatched. */
  predicate Matched(s: Scan, t: string)
    decreases |t|
  {
    t == "" || (!Mismatched(s, t[0]) && Matched(Step(s, t[0]), t[1..]))
  }

  predicate Closed(s: Scan) {
    !s.inString && !s.escaped && s.closers == []
  }

  /** What the detector reports about a text with no trailing whitespace. */
  predicate Unfinished(t: string) {
    !Matched(START, t) || !Closed(Run(START, t))
  }

  predicate Truncated(args: string) {
    Unfinished(TrimEnd(args))
  }

  function Reversed(s: string): string {
    if s == "" then "" else [s[|s| - 1]] + Reversed(s[..|s| - 1])
  }

  /** What the repair appends: the rest of an open string, then the owed closers. */
  function Suffix(s: Scan): string {
    (if s.inString then (if s.escaped then "\\" else "") + "\"" else "") + Reversed(s.closers)
  }

  function Repair(t: string): string {
    t + Suffix(Run(START, t))
  }

  function HexDigit(n: nat): char
    requires n < 16
  {
    "0123456789abcdef"[n]
  }

  function EscapeChar(c: char): string {
    if c == '\U{8}' then "\\b"
    else if c == '\U{c}' then "\\f"
    else if c == '\n' then "\\n"
    else if c == '\r' then "\\r"
    else if c == '\t' then "\\t"
    else if c <= '\U{1f}' then ['\\', 'u', '0', '0', HexDigit(c as int / 16), HexDigit(c as int % 16)]
    else [c]
  }

  function Escape(t: string): string {
    if t == "" then "" else EscapeChar(t[0]) + Escape(t[1..])
  }

  // ---------- the scanners themselves ----------

  method RepairTruncatedJson(s: string) returns (repaired: string)
    ensures repaired == Repair(s)
  {
    repaired := "";
    var inString, escapeNext := false, false;
    var closers: seq<char> := [];
    for i := 0 to |s|
      invariant repaired == s[..i]
      invariant Run(Scan(inString, escapeNext, closers), s[i..]) == Run(START, s)
      invariant escapeNext ==> inString
    {
      var c := s[i];
      repaired := repaired + [c];
      if inString {
        if escapeNext {
          escapeNext := false;
          continue;
        }
        if c == '\\' {
          escapeNext := true;
        } else if c == '"' {
          inString := false;
        }
        continue;
      }
      if c == '"' {
        inString := true;
      } else if c == '{' {
        closers := closers + ['}'];
      } else if c == '[' {
        closers := closers + [']'];
      } else if IsCloser(c) && closers != [] && closers[|closers| - 1] == c {
        closers := closers[..|closers| - 1];
      }
    }
    ghost var end := Scan(inString, escapeNext, closers);
    assert Run(START, s) == end;
    if inString {
      if escapeNext {
        repaired := repaired + "\\";
      }
      repaired := repaired + "\"";
    }
    while closers != []
      invariant repaired + Reversed(closers) == s + Suffix(end)
      decreases |closers|
    {
      repaired, closers := repaired + [closers[|closers| - 1]], closers[..|closers| - 1];
    }
  }

  method LooksTruncated(args: string) returns (truncated: bool)
    ensures truncated <==> Truncated(args)
  {
    var trimmed := TrimEnd(args);
    if trimmed == "" {
      return false;
    }
    var inString, escapeNext := false, false;
    var depth: seq<char> := [];
    for i := 0 to |trimmed|
      invariant Run(Scan(inString, escapeNext, depth), trimmed[i..]) == Run(START, trimmed)
      invariant Matched(Scan(inString, escapeNext, depth), trimmed[i..]) == Matched(START, trimmed)
    {
      var c := trimmed[i];
      if inString {
        if escapeNext {
          escapeNext := false;
        } else if c == '\\' {
          escapeNext := true;
        } else if c == '"' {
          inString := false;
        }
        continue;
      }
      if c == '"' {
        inString := true;
      } else if c == '{' {
        depth := depth + ['}'];
      } else if c == '[' {
        depth := depth + [']'];
      } else if IsCloser(c) {
        if depth != [] && depth[|depth| - 1] == c {
          depth := depth[..|depth| - 1];
        } else {
          return true;
        }
      }
    }
    return inString || escapeNext || depth != [];
  }

  method EscapeControlChars(s: string) returns (r: string)
    ensures r == Escape(s)
  {
    r := "";
    for i := 0 to |s|
      invariant r + Escape(s[i..]) == Escape(s)
    {
      r := r + EscapeChar(s[i]);
    }
  }

  // ---------- runs over concatenations ----------

  lemma {:induction false} RunAppend(s: Scan, a: string, b: string)
    ensures Run(s, a + b) == Run(Run(s, a), b)
    ensures Matched(s, a + b) <==> Matched(s, a) && Matched(Run(s, a), b)
    decreases |a|
  {
    if a == "" {
      assert a + b == b;
    } else {
      assert (a + b)[1..] == a[1..] + b;
      RunAppend(Step(s, a[0]), a[1..], b);
    }
  }

  lemma {:induction false} OneStep(s: Scan, c: char)
    ensures Run(s, [c]) == Step(s, c) && (Matched(s, [c]) <==> !Mismatched(s, c))
  {
    assert [c][1..] == "";
  }

  lemma {:induction false} TwoSteps(s: Scan, c: char, d: char)
    ensures Run(s, [c, d]) == Step(Step(s, c), d)
    ensures Matched(s, [c, d]) <==> !Mismatched(s, c) && !Mismatched(Step(s, c), d)
  {
    assert [c, d][1..] == [d];
    OneStep(Step(s, c), d);
  }

  lemma {:induction false} EscapedOnlyInString(s: Scan, t: string)
    requires s.escaped ==> s.inString
    ensures Run(s, t).escaped ==> Run(s, t).inString
    decreases |t|
  {
    if t != "" {
      EscapedOnlyInString(Step(s, t[0]), t[1..]);
    }
  }

  /** Trailing whitespace never decides whether a text is unfinished. */
  lemma {:induction false} TrimIsIrrelevant(t: string)
    ensures Truncated(t) == Unfinished(t)
    decreases |t|
  {
    if t != "" && IsWhitespace(t[|t| - 1]) {
      var front, c := t[..|t| - 1], t[|t| - 1];
      assert t == front + [c];
      RunAppend(START, front, [c]);
      EscapedOnlyInString(START, front);
      var s := Run(START, front);
      OneStep(s, c);
      TrimIsIrrelevant(front);
    }
  }

  // ---------- what the repair achieves ----------

  lemma {:induction false} ClosersClose(closers: seq<char>)
    requires forall c <- closers :: IsCloser(c)
    ensures Run(Scan(false, false, closers), Reversed(closers)) == START
    ensures Matched(Scan(false, false, closers), Reversed(closers))
    decreases |closers|
  {
    if closers != [] {
      var last, rest := closers[|closers| - 1], closers[..|closers| - 1];
      assert last in closers;
      assert Reversed(closers)[1..] == Reversed(rest);
      assert Step(Scan(false, false, closers), last) == Scan(false, false, rest);
      ClosersClose(rest);
    }
  }

  lemma {:induction false} OwedAreClosers(s: Scan, t: string)
    requires forall c <- s.closers :: IsCloser(c)
    ensures forall c <- Run(s, t).closers :: IsCloser(c)
    decreases |t|
  {
    if t != "" {
      OwedAreClosers(Step(s, t[0]), t[1..]);
    }
  }

  /** The suffix closes any state the scanner can be in, with no mismatched closer. */
  lemma {:induction false} SuffixCloses(s: Scan)
    requires s.escaped ==> s.inString
    requires forall c <- s.closers :: IsCloser(c)
    ensures Run(s, Suffix(s)) == START && Matched(s, Suffix(s))
  {
    var quote := if s.inString then (if s.escaped then "\\" else "") + "\"" else "";
    assert Run(s, quote) == Scan(false, false, s.closers) && Matched(s, quote) by {
      if s.inString && s.escaped {
        TwoSteps(s, '\\', '"');
      } else if s.inString {
        OneStep(s, '"');
      }
    }
    RunAppend(s, quote, Reversed(s.closers));
    ClosersClose(s.closers);
  }

  lemma {:induction false} RepairedState(t: string)
    ensures Run(START, Repair(t)) == START
    ensures Matched(START, Repair(t)) <==> Matched(START, t)
  {
    var s := Run(START, t);
    EscapedOnlyInString(START, t);
    OwedAreClosers(START, t);
    RunAppend(START, t, Suffix(s));
    SuffixCloses(s);
  }

  /** A repaired text passes the truncation test exactly when the original had no mismatched closer. */
  lemma {:induction false} RepairCompletes(t: string)
    ensures !Truncated(Repair(t)) <==> Matched(START, t)
  {
    RepairedState(t);
    TrimIsIrrelevant(Repair(t));
  }

  lemma {:induction false} RepairIsIdempotent(t: string)
    ensures Repair(Repair(t)) == Repair(t)
  {
    RepairedState(t);
    assert Suffix(START) == "";
  }

  lemma {:induction false} ReversedLength(s: string)
    ensures |Reversed(s)| == |s|
    decreases |s|
  {
    if s != "" {
      ReversedLength(s[..|s| - 1]);
    }
  }

  /** A text is truncated exactly when the repair would add to it or it has a mismatched closer. */
  lemma {:induction false} TruncatedMeansRepairAdds(t: string)
    ensures Truncated(t) <==> (Repair(t) != t || !Matched(START, t))
  {
    TrimIsIrrelevant(t);
    EscapedOnlyInString(START, t);
    ReversedLength(Run(START, t).closers);
    assert |Repair(t)| == |t| + |Suffix(Run(START, t))|;
    assert Suffix(Run(START, t)) == "" ==> Repair(t) == t;
  }

  function Owed(s: Scan): nat {
    |s.closers| + (if s.inString then 1 else 0) + (if s.escaped then 1 else 0)
  }

  lemma {:induction false} EachCharacterPaysOne(s: Scan, t: string)
    ensures Owed(Run(s, t)) + |t| >= Owed(s)
    decreases |t|
  {
    if t != "" {
      EachCharacterPaysOne(Step(s, t[0]), t[1..]);
    }
  }

  /** The repair is as short as any text that completes the input. */
  lemma {:induction false} RepairIsShortest(t: string, more: string)
    requires !Truncated(t + more)
    ensures |Repair(t)| <= |t + more|
  {
    TrimIsIrrelevant(t + more);
    RunAppend(START, t, more);
    EachCharacterPaysOne(Run(START, t), more);
    EscapedOnlyInString(START, t);
    ReversedLength(Run(START, t).closers);
  }

  // ---------- escaping ----------

  /** A character that is neither a quote, a backslash nor a bracket. */
  predicate IsPlain(c: char) {
    c != '"' && c != '\\' && c != '{' && c != '[' && !IsCloser(c)
  }

  lemma {:induction false} PlainRun(s: Scan, t: string)
    requires s.escaped ==> !s.inString
    requires forall i :: 0 <= i < |t| ==> IsPlain(t[i])
    ensures Run(s, t) == s && Matched(s, t)
    decreases |t|
  {
    if t != "" {
      PlainRun(s, t[1..]);
    }
  }

  /** A backslash and a plain character move the scanner as one plain character would. */
  lemma {:induction false} EscapePair(s: Scan, c: char, d: char)
    requires IsPlain(c) && IsPlain(d)
    ensures Run(s, ['\\', d]) == Step(s, c) && Matched(s, ['\\', d]) && !Mismatched(s, c)
  {
    TwoSteps(s, '\\', d);
  }

  /** Escaping one character leaves every scanner state as the character itself would. */
  lemma {:induction false} EscapeCharNeutral(s: Scan, c: char)
    ensures Run(s, EscapeChar(c)) == Step(s, c)
    ensures Matched(s, EscapeChar(c)) == !Mismatched(s, c)
  {
    var e := EscapeChar(c);
    if |e| == 1 {
      OneStep(s, c);
    } else if |e| == 2 {
      EscapePair(s, c, e[1]);
    } else {
      var tail := ['0', '0', e[4], e[5]];
      assert e == ['\\', 'u'] + tail;
      EscapePair(s, c, 'u');
      PlainRun(Step(s, c), tail);
      RunAppend(s, ['\\', 'u'], tail);
    }
  }

  lemma {:induction false} EscapeKeepsState(s: Scan, t: string)
    ensures Run(s, Escape(t)) == Run(s, t)
    ensures Matched(s, Escape(t)) == Matched(s, t)
    decreases |t|
  {
    if t != "" {
      EscapeCharNeutral(s, t[0]);
      RunAppend(s, EscapeChar(t[0]), Escape(t[1..]));
      EscapeKeepsState(Step(s, t[0]), t[1..]);
    }
  }

  lemma {:induction false} EscapeKeepsTruncation(t: string)
    ensures Truncated(Escape(t)) == Truncated(t)
  {
    TrimIsIrrelevant(t);
    TrimIsIrrelevant(Escape(t));
    EscapeKeepsState(START, t);
  }

  lemma {:induction false} EscapeAppend(a: string, b: string)
    ensures Escape(a + b) == Escape(a) + Escape(b)
    decreases |a|
  {
    if a == "" {
      assert a + b == b;
    } else {
      assert (a + b)[1..] == a[1..] + b;
      EscapeAppend(a[1..], b);
    }
  }

  lemma {:induction false} EscapeOfPlain(t: string)
    requires forall i :: 0 <= i < |t| ==> t[i] > '\U{1f}'
    ensures Escape(t) == t
    decreases |t|
  {
    if t != "" {
      assert t == [t[0]] + t[1..];
      EscapeOfPlain(t[1..]);
    }
  }

  lemma {:induction false} ReversedHolds(s: string)
    requires forall c <- s :: IsCloser(c)
    ensures forall i :: 0 <= i < |Reversed(s)| ==> IsCloser(Reversed(s)[i])
    decreases |s|
  {
    if s != "" {
      ReversedHolds(s[..|s| - 1]);
    }
  }

  /** Repairing and escaping commute. */
  lemma {:induction false} RepairEscapeCommute(t: string)
    ensures Repair(Escape(t)) == Escape(Repair(t))
  {
    var suffix := Suffix(Run(START, t));
    EscapeKeepsState(START, t);
    EscapeAppend(t, suffix);
    OwedAreClosers(START, t);
    ReversedHolds(Run(START, t).closers);
    assert forall i :: 0 <= i < |suffix| ==> suffix[i] > '\U{1f}';
    EscapeOfPlain(suffix);
  }

  predicate NoControls(t: string) {
    forall i :: 0 <= i < |t| ==> t[i] > '\U{1f}'
  }

  lemma {:induction false} EscapeCharPrintable(c: char)
    ensures NoControls(EscapeChar(c))
  {
  }

  lemma {:induction false} EscapePrintable(t: string)
    ensures NoControls(Escape(t))
    decreases |t|
  {
    if t != "" {
      EscapeCharPrintable(t[0]);
      EscapePrintable(t[1..]);
    }
  }

  /** Escaping leaves no raw control character, and a second escape changes nothing. */
  lemma {:induction false} EscapeIsIdempotent(t: string)
    ensures NoControls(Escape(t)) && Escape(Escape(t)) == Escape(t)
  {
    EscapePrintable(t);
    EscapeOfPlain(Escape(t));
  }
}
