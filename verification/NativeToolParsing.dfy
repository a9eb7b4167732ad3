/** Finding the JSON values embedded in generated text (native_tool_parsing.rs). */
module NativeToolParsing {
  import opened Text
  import opened JsonScan
  import opened JsonText

  /** The candidate scanner counts one kind of bracket and tracks strings on its own. */
  datatype Count = Count(depth: int, inString: bool, escaped: bool)

  const FRESH := Count(0, false, false)

  function CountStep(n: Count, open: char, close: char, c: char): Count {
    if n.escaped then n.(escaped := false)
    else if c == '\\' && n.inString then n.(escaped := true)
    else if c == '"' then n.(inString := !n.inString)
    else if n.inString then n
    else if c == open then n.(depth := n.depth + 1)
    else if c == close then n.(depth := n.depth - 1)
    else n
  }

  predicate Stops(n: Count, open: char, close: char, c: char) {
    !n.escaped && !n.inString && c == close && c != open && n.depth == 1
  }

  /** How many characters of `t` the scan reads before the depth returns to zero. */
  function MatchedLength(n: Count, open: char, close: char, t: string): (r: Option<nat>)
    ensures r.Some? ==> 0 < r.value <= |t|
    decreases |t|
  {
    if t == "" then None
    else if Stops(n, open, close, t[0]) then Some(1)
    else
      match MatchedLength(CountStep(n, open, close, t[0]), open, close, t[1..])
      case None => None
      case Some(len) => Some(len + 1)
  }

  lemma {:induction false} MatchEndsAtClose(n: Count, open: char, close: char, t: string)
    requires MatchedLength(n, open, close, t).Some?
    ensures t[MatchedLength(n, open, close, t).value - 1] == close
    decreases |t|
  {
    if !Stops(n, open, close, t[0]) {
      MatchEndsAtClose(CountStep(n, open, close, t[0]), open, close, t[1..]);
    }
  }

  /** One character of the scan, seen from the middle of the text. */
  lemma {:induction false} MatchedLengthStep(n: Count, open: char, close: char, t: string, offset: nat)
    requires offset < |t|
    ensures MatchedLength(n, open, close, t[offset..]) ==
            if Stops(n, open, close, t[offset]) then Some(1)
            else Later(MatchedLength(CountStep(n, open, close, t[offset]), open, close, t[offset + 1..]), 1)
  {
    assert t[offset..][1..] == t[offset + 1..];
  }

  function AsSeq<V>(v: Option<V>): seq<V> {
    if v.Some? then [v.value] else []
  }

  /** What one opening bracket contributes. */
  function CandidateAt<V>(parse: string -> Option<V>, text: string, open: char, close: char, start: nat): seq<V>
    requires start < |text|
  {
    if text[start] != open then []
    else
      match MatchedLength(FRESH, open, close, text[start..])
      case None => []
      case Some(len) => AsSeq(parse(text[start..start + len]))
  }

  function CandidatesFrom<V>(parse: string -> Option<V>, text: string, open: char, close: char, start: nat): seq<V>
    requires start <= |text|
    decreases |text| - start
  {
    if start == |text| then []
    else CandidateAt(parse, text, open, close, start) + CandidatesFrom(parse, text, open, close, start + 1)
  }

  function Candidates<V>(parse: string -> Option<V>, text: string): seq<V> {
    AsSeq(parse(Trim(text))) + CandidatesFrom(parse, text, '{', '}', 0) + CandidatesFrom(parse, text, '[', ']', 0)
  }

  method JsonCandidates<V>(parse: string -> Option<V>, text: string) returns (candidates: seq<V>)
    ensures candidates == Candidates(parse, text)
  {
    candidates := AsSeq(parse(Trim(text)));
    var braces := ScanBrackets(parse, text, '{', '}');
    var brackets := ScanBrackets(parse, text, '[', ']');
    candidates := candidates + braces + brackets;
  }

  method ScanBrackets<V>(parse: string -> Option<V>, text: string, open: char, close: char) returns (candidates: seq<V>)
    requires open != close && open != '"' && open != '\\' && close != '"' && close != '\\'
    ensures candidates == CandidatesFrom(parse, text, open, close, 0)
  {
    candidates := [];
    for start := 0 to |text|
      invariant candidates + CandidatesFrom(parse, text, open, close, start) == CandidatesFrom(parse, text, open, close, 0)
    {
      var found := CandidateFrom(parse, text, open, close, start);
      candidates := candidates + found;
    }
  }

  method CandidateFrom<V>(parse: string -> Option<V>, text: string, open: char, close: char, start: nat) returns (found: seq<V>)
    requires open != close && open != '"' && open != '\\' && close != '"' && close != '\\'
    requires start < |text|
    ensures found == CandidateAt(parse, text, open, close, start)
  {
    found := [];
    if text[start] == open {
      var len := MatchBracket(text[start..], open, close);
      if len.Some? {
        found := AsSeq(parse(text[start..start + len.value]));
      }
    }
  }

  /** The inner loop: how far the bracket that opens `t` reaches. */
  method MatchBracket(t: string, open: char, close: char) returns (len: Option<nat>)
    requires t != "" && t[0] == open && open != close
    requires open != '"' && open != '\\' && close != '"' && close != '\\'
    ensures len == MatchedLength(FRESH, open, close, t)
  {
    var depth, inString, escaped := 0, false, false;
    for offset := 0 to |t|
      invariant MatchedLength(FRESH, open, close, t) == Later(MatchedLength(Count(depth, inString, escaped), open, close, t[offset..]), offset)
      invariant offset == 0 ==> depth == 0 && !inString
    {
      var c := t[offset];
      MatchedLengthStep(Count(depth, inString, escaped), open, close, t, offset);
      if escaped {
        escaped := false;
        continue;
      }
      if c == '\\' && inString {
        escaped := true;
        continue;
      }
      if c == '"' {
        inString := !inString;
        continue;
      }
      if inString {
        continue;
      }
      if c == open {
        depth := depth + 1;
      } else if c == close {
        depth := depth - 1;
        if depth == 0 {
          return Some(offset + 1);
        }
      }
    }
    return None;
  }

  function Later(r: Option<nat>, extra: nat): Option<nat> {
    if r.Some? then Some(r.value + extra) else None
  }

  // ---------- the scan stops exactly at the matching bracket ----------

  function Tally(closers: seq<char>, close: char): nat {
    if closers == [] then 0
    else Tally(closers[..|closers| - 1], close) + (if closers[|closers| - 1] == close then 1 else 0)
  }

  lemma {:induction false} TallyPositive(closers: seq<char>, close: char)
    requires [close] <= closers
    ensures Tally(closers, close) >= 1
    decreases |closers|
  {
    if |closers| == 1 {
      assert closers[..0] == [];
    } else {
      TallyPositive(closers[..|closers| - 1], close);
    }
  }

  /** The counter that agrees with a state of the truncation scanner. */
  function CountOf(s: Scan, close: char): Count {
    Count(Tally(s.closers, close), s.inString, s.escaped)
  }

  lemma {:induction false} CountStepAgrees(s: Scan, open: char, close: char, c: char)
    requires (open == '{' && close == '}') || (open == '[' && close == ']')
    requires s.escaped ==> s.inString
    requires !Mismatched(s, c)
    ensures CountStep(CountOf(s, close), open, close, c) == CountOf(Step(s, c), close)
  {
    assert forall d: char :: (s.closers + [d])[..|s.closers|] == s.closers;
  }

  /** If the tally of `close` stays positive until the end of `t` and is zero there, the scan of
      `t` followed by anything reads exactly `t`. */
  lemma {:induction false} ScanReads(s: Scan, open: char, close: char, t: string, post: string)
    requires (open == '{' && close == '}') || (open == '[' && close == ']')
    requires s.escaped ==> s.inString
    requires t != "" && Matched(s, t) && Run(s, t).closers == []
    requires forall k :: 0 < k < |t| ==> Tally(Run(s, t[..k]).closers, close) >= 1
    requires Tally(s.closers, close) >= 1 || t[0] == open
    requires t[|t| - 1] == close
    ensures MatchedLength(CountOf(s, close), open, close, t + post) == Some(|t|)
    decreases |t|
  {
    var u := t + post;
    CountStepAgrees(s, open, close, t[0]);
    assert u[0] == t[0] && u[1..] == t[1..] + post;
    if |t| == 1 {
      assert t == [t[0]];
      OneStep(s, t[0]);
    } else {
      StaysOpen(s, close, t);
      ScanReads(Step(s, t[0]), open, close, t[1..], post);
    }
  }

  /** What stays open before the end of `t` stays so seen from its second character. */
  lemma {:induction false} StaysOpen(s: Scan, close: char, t: string)
    requires |t| > 1 && forall k :: 0 < k < |t| ==> Tally(Run(s, t[..k]).closers, close) >= 1
    ensures Tally(Step(s, t[0]).closers, close) >= 1
    ensures forall k :: 0 < k < |t| - 1 ==> Tally(Run(Step(s, t[0]), t[1..][..k]).closers, close) >= 1
  {
    hide Step, Tally;
    assert t[..1] == [t[0]];
    OneStep(s, t[0]);
    forall k | 0 < k < |t| - 1 ensures Tally(Run(Step(s, t[0]), t[1..][..k]).closers, close) >= 1 {
      assert t[..k + 1][1..] == t[1..][..k];
    }
  }

  function OpenerOf(v: Json): char
    requires IsContainer(v)
  {
    if v.Arr? then '[' else '{'
  }

  /** Whatever follows a serialised object or array, the scan from its opening bracket stops
      exactly at its own closing bracket. */
  lemma {:induction false} ScanStopsAtMatch(v: Json, post: string)
    requires Valid(v) && IsContainer(v)
    ensures MatchedLength(FRESH, OpenerOf(v), CloserOf(v), Print(v) + post) == Some(|Print(v)|)
  {
    var t := Print(v);
    LevelValue([], v);
    forall k | 0 < k < |t| ensures Tally(Run(START, t[..k]).closers, CloserOf(v)) >= 1 {
      InsideContainer(v, k);
      TallyPositive(Run(START, t[..k]).closers, CloserOf(v));
    }
    ScanReads(START, OpenerOf(v), CloserOf(v), t, post);
  }

  lemma {:induction false} CandidatesInclude<V>(parse: string -> Option<V>, text: string, open: char, close: char, from: nat, start: nat, w: V)
    requires from <= start < |text|
    requires w in CandidateAt(parse, text, open, close, start)
    ensures w in CandidatesFrom(parse, text, open, close, from)
    decreases start - from
  {
    if from < start {
      CandidatesInclude(parse, text, open, close, from + 1, start, w);
    }
  }

  /** Every embedded serialised object or array is found, whatever surrounds it. */
  lemma {:induction false} EmbeddedValueIsFound<V>(parse: string -> Option<V>, pre: string, v: Json, post: string, w: V)
    requires Valid(v) && IsContainer(v) && parse(Print(v)) == Some(w)
    ensures w in Candidates(parse, pre + Print(v) + post)
  {
    var text := pre + Print(v) + post;
    ScanStopsAtMatch(v, post);
    assert text[|pre|..] == Print(v) + post;
    assert text[|pre|..|pre| + |Print(v)|] == Print(v);
    assert w in CandidateAt(parse, text, OpenerOf(v), CloserOf(v), |pre|);
    CandidatesInclude(parse, text, OpenerOf(v), CloserOf(v), 0, |pre|, w);
  }

  /** `text[i..j]` is opened by `open`, closed by `close`, and parses to `w`. */
  ghost predicate Bracketed<V>(parse: string -> Option<V>, text: string, open: char, close: char, i: nat, j: nat, w: V) {
    i < j <= |text| && text[i] == open && text[j - 1] == close && parse(text[i..j]) == Some(w)
  }

  lemma {:induction false} CandidatesAreBracketed<V>(parse: string -> Option<V>, text: string, open: char, close: char, from: nat, w: V)
    requires from <= |text| && w in CandidatesFrom(parse, text, open, close, from)
    ensures exists i: nat, j: nat :: Bracketed(parse, text, open, close, i, j, w)
    decreases |text| - from
  {
    if w in CandidateAt(parse, text, open, close, from) {
      var len := MatchedLength(FRESH, open, close, text[from..]).value;
      MatchEndsAtClose(FRESH, open, close, text[from..]);
      assert Bracketed(parse, text, open, close, from, from + len, w);
    } else {
      CandidatesAreBracketed(parse, text, open, close, from + 1, w);
    }
  }

  /** Nothing else is found: a candidate is the whole text or a bracketed piece of it. */
  lemma {:induction false} OnlyBracketedTextIsFound<V>(parse: string -> Option<V>, text: string, w: V)
    requires w in Candidates(parse, text)
    ensures || parse(Trim(text)) == Some(w)
            || (exists i: nat, j: nat :: Bracketed(parse, text, '{', '}', i, j, w))
            || (exists i: nat, j: nat :: Bracketed(parse, text, '[', ']', i, j, w))
  {
    if w in CandidatesFrom(parse, text, '{', '}', 0) {
      CandidatesAreBracketed(parse, text, '{', '}', 0, w);
    } else if w in CandidatesFrom(parse, text, '[', ']', 0) {
      CandidatesAreBracketed(parse, text, '[', ']', 0, w);
    }
  }

  /** When the whole text parses, its value comes before all others. */
  lemma {:induction false} WholeTextComesFirst<V>(parse: string -> Option<V>, text: string, w: V)
    requires parse(Trim(text)) == Some(w)
    ensures Candidates(parse, text) != [] && Candidates(parse, text)[0] == w
  {
  }

  lemma {:induction false} SeqAssoc<V>(a: seq<V>, b: seq<V>, c: seq<V>)
    ensures a + b + c == a + (b + c)
  {
  }

  lemma {:induction false} CandidatesSplit<V>(parse: string -> Option<V>, text: string, open: char, close: char, from: nat, end: nat) returns (before: seq<V>)
    requires from <= end <= |text|
    ensures CandidatesFrom(parse, text, open, close, from) == before + CandidatesFrom(parse, text, open, close, end)
    ensures forall i, w :: from <= i < end && w in CandidateAt(parse, text, open, close, i) ==> w in before
    decreases end - from
  {
    hide CandidateAt;
    if from == end {
      before := [];
    } else {
      var rest := CandidatesSplit(parse, text, open, close, from + 1, end);
      before := CandidateAt(parse, text, open, close, from) + rest;
      SeqAssoc(CandidateAt(parse, text, open, close, from), rest, CandidatesFrom(parse, text, open, close, end));
    }
  }

  /** Of two values that open with the same kind of bracket, the one that opens first is listed first. */
  lemma {:induction false} FoundInOrder<V>(parse: string -> Option<V>, text: string, open: char, close: char, i: nat, j: nat, w: V, x: V)
    requires i < j < |text| && w in CandidateAt(parse, text, open, close, i) && x in CandidateAt(parse, text, open, close, j)
    ensures exists p: nat, q: nat :: InOrder(CandidatesFrom(parse, text, open, close, 0), p, q, w, x)
  {
    var all := CandidatesFrom(parse, text, open, close, 0);
    var before := CandidatesSplit(parse, text, open, close, 0, j);
    var later := CandidatesFrom(parse, text, open, close, j);
    assert w in before;
    CandidatesInclude(parse, text, open, close, j, j, x);
    var p :| 0 <= p < |before| && before[p] == w;
    var q :| 0 <= q < |later| && later[q] == x;
    assert all[p] == w && all[|before| + q] == x;
    assert InOrder(all, p, |before| + q, w, x);
  }

  predicate InOrder<V(==)>(all: seq<V>, p: nat, q: nat, w: V, x: V) {
    p < q < |all| && all[p] == w && all[q] == x
  }
}
