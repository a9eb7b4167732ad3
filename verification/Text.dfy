/** Text helpers with the semantics of Rust's `str`: whitespace trimming and substring search.
    A Dafny `char` is a Unicode scalar value, as a Rust `char` is. */
module Text {

  datatype Option<+T> = None | Some(value: T)

  /** `char::is_whitespace`: the Unicode White_Space property. */
  predicate IsWhitespace(c: char) {
    || '\t' <= c <= '\r' || c == ' ' || c == '\U{85}' || c == '\U{a0}' || c == '\U{1680}'
    || '\U{2000}' <= c <= '\U{200a}' || c == '\U{2028}' || c == '\U{2029}' || c == '\U{202f}'
    || c == '\U{205f}' || c == '\U{3000}'
  }

  function TrimEnd(s: string): string {
    if s != "" && IsWhitespace(s[|s| - 1]) then TrimEnd(s[..|s| - 1]) else s
  }

  lemma {:induction false} TrimEndTwice(s: string)
    ensures TrimEnd(TrimEnd(s)) == TrimEnd(s)
    decreases |s|
  {
    if s != "" && IsWhitespace(s[|s| - 1]) {
      TrimEndTwice(s[..|s| - 1]);
    }
  }

  function TrimStart(s: string): string {
    if s != "" && IsWhitespace(s[0]) then TrimStart(s[1..]) else s
  }

  function Trim(s: string): string {
    TrimStart(TrimEnd(s))
  }

  predicate AllBlank(text: string) {
    forall i :: 0 <= i < |text| ==> IsWhitespace(text[i])
  }

  /** `TrimEnd` takes off exactly the whitespace at the end. */
  lemma {:induction false} TrimEndMeans(s: string)
    ensures TrimEnd(s) <= s && AllBlank(s[|TrimEnd(s)|..])
    ensures TrimEnd(s) != "" ==> !IsWhitespace(TrimEnd(s)[|TrimEnd(s)| - 1])
    decreases |s|
  {
    if s != "" && IsWhitespace(s[|s| - 1]) {
      TrimEndMeans(s[..|s| - 1]);
      assert forall i :: 0 <= i < |s| - 1 ==> s[i] == s[..|s| - 1][i];
    }
  }

  lemma {:induction false} TrimStartMeans(s: string)
    ensures |TrimStart(s)| <= |s| && s[|s| - |TrimStart(s)|..] == TrimStart(s) && AllBlank(s[..|s| - |TrimStart(s)|])
    ensures TrimStart(s) != "" ==> !IsWhitespace(TrimStart(s)[0])
    decreases |s|
  {
    if s != "" && IsWhitespace(s[0]) {
      TrimStartMeans(s[1..]);
      assert forall i :: 0 < i < |s| ==> s[i] == s[1..][i - 1];
    }
  }

  /** `Trim` takes off exactly the whitespace at both ends. */
  lemma {:induction false} TrimMeans(s: string) returns (from: nat, to: nat)
    ensures from <= to <= |s| && Trim(s) == s[from..to] && AllBlank(s[..from]) && AllBlank(s[to..])
    ensures from < to ==> !IsWhitespace(s[from]) && !IsWhitespace(s[to - 1])
  {
    var t := TrimEnd(s);
    TrimEndMeans(s);
    TrimStartMeans(t);
    from, to := |t| - |TrimStart(t)|, |t|;
    assert s[..from] == t[..from] && s[from..to] == t[from..];
  }

  lemma {:induction false} TrimIsEmptyIffBlank(text: string)
    ensures Trim(text) == "" <==> AllBlank(text)
  {
    var from, to := TrimMeans(text);
    if Trim(text) == "" {
      assert text == text[..from] + text[to..];
    }
  }

  /** The characters from `a` up to `b`. Equal to `text[a..b]` (see `SliceIs`), but spelled out so
      that proofs about many slices of one text stay cheap. */
  function Slice(text: string, a: nat, b: nat): string
    requires a <= b <= |text|
    decreases b - a
  {
    if a == b then "" else [text[a]] + Slice(text, a + 1, b)
  }

  lemma {:induction false} SliceIs(text: string, a: nat, b: nat)
    requires a <= b <= |text|
    ensures Slice(text, a, b) == text[a..b]
    decreases b - a
  {
    if a < b {
      SliceIs(text, a + 1, b);
    }
  }

  predicate MatchesFrom(text: string, pattern: string, i: nat, k: nat)
    requires k <= |pattern| && i + |pattern| <= |text|
    decreases |pattern| - k
  {
    k == |pattern| || (text[i + k] == pattern[k] && MatchesFrom(text, pattern, i, k + 1))
  }

  predicate OccursAt(text: string, pattern: string, i: nat) {
    i + |pattern| <= |text| && MatchesFrom(text, pattern, i, 0)
  }

  lemma {:induction false} MatchesMeans(text: string, pattern: string, i: nat, k: nat)
    requires k <= |pattern| && i + |pattern| <= |text|
    ensures MatchesFrom(text, pattern, i, k) <==> text[i + k..i + |pattern|] == pattern[k..]
    decreases |pattern| - k
  {
    if k < |pattern| {
      assert text[i + k..i + |pattern|] == [text[i + k]] + text[i + k + 1..i + |pattern|];
      assert pattern[k..] == [pattern[k]] + pattern[k + 1..];
      MatchesMeans(text, pattern, i, k + 1);
    }
  }

  /** An occurrence is a slice equal to the pattern. */
  lemma {:induction false} OccursMeans(text: string, pattern: string, i: nat)
    requires i + |pattern| <= |text|
    ensures OccursAt(text, pattern, i) <==> text[i..i + |pattern|] == pattern
  {
    MatchesMeans(text, pattern, i, 0);
  }

  ghost predicate Contains(text: string, pattern: string) {
    exists i: nat :: OccursAt(text, pattern, i)
  }

  /** `str::find` in the part of `text` that starts at `from`: the least index there at which
      `pattern` occurs. */
  function FindFrom(text: string, pattern: string, from: nat): (r: Option<nat>)
    requires from <= |text|
    ensures r.Some? ==> from <= r.value && r.value + |pattern| <= |text|
    decreases |text| - from
  {
    if OccursAt(text, pattern, from) then Some(from)
    else if from == |text| then None
    else FindFrom(text, pattern, from + 1)
  }

  lemma {:induction false} FindFromSpec(text: string, pattern: string, from: nat)
    requires from <= |text|
    ensures var r := FindFrom(text, pattern, from);
            && (r.Some? ==> OccursAt(text, pattern, r.value))
            && forall i: nat :: from <= i && (r.Some? ==> i < r.value) ==> !OccursAt(text, pattern, i)
    decreases |text| - from
  {
    if !OccursAt(text, pattern, from) && from < |text| {
      FindFromSpec(text, pattern, from + 1);
    }
  }

  lemma {:induction false} FindFromIs(text: string, pattern: string, from: nat, i: nat)
    requires from <= i && OccursAt(text, pattern, i)
    requires forall j: nat :: from <= j < i ==> !OccursAt(text, pattern, j)
    ensures FindFrom(text, pattern, from) == Some(i)
  {
    FindFromSpec(text, pattern, from);
  }

  lemma {:induction false} FindFromNone(text: string, pattern: string, from: nat)
    requires from <= |text|
    requires forall j: nat :: from <= j ==> !OccursAt(text, pattern, j)
    ensures FindFrom(text, pattern, from) == None
  {
    FindFromSpec(text, pattern, from);
  }

  lemma {:induction false} SliceOccurs(text: string, pattern: string, from: nat, end: nat, i: nat)
    requires from <= end <= |text| && OccursAt(text[from..end], pattern, i)
    ensures OccursAt(text, pattern, from + i)
  {
    OccursMeans(text[from..end], pattern, i);
    OccursMeans(text, pattern, from + i);
    assert text[from..end][i..i + |pattern|] == text[from + i..from + i + |pattern|];
  }

  /** A stretch of text with no occurrence inside it. */
  lemma {:induction false} SliceLacks(text: string, pattern: string, from: nat, end: nat)
    requires from <= end <= |text|
    requires forall i: nat :: from <= i && i + |pattern| <= end ==> !OccursAt(text, pattern, i)
    ensures !Contains(text[from..end], pattern)
  {
    forall i: nat | OccursAt(text[from..end], pattern, i) ensures false {
      SliceOccurs(text, pattern, from, end, i);
    }
  }
}
