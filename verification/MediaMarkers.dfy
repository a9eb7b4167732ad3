/** Splitting message text at media markers (goose-local-inference, lib.rs). */
module MediaMarkers {
  import opened Text

  /** A content part: text, the `media_marker` part for the marker being converted, or any other
      JSON value. */
  datatype Part = TextPart(text: string) | MarkerPart | OtherPart(id: nat)

  /** The `content` of a message: a string, an array of parts, or something else (or absent). */
  datatype Content = Plain(text: string) | Parts(parts: seq<Part>) | Neither

  function TextUnlessEmpty(text: string): seq<Part> {
    if |text| == 0 then [] else [TextPart(text)]
  }

  /** Where the text before a marker at `i` ends: one separating newline is dropped. */
  function EndBefore(text: string, from: nat, i: nat): (end: nat)
    requires from <= i <= |text|
    ensures from <= end <= i
  {
    if from < i && text[i - 1] == '\n' then i - 1 else i
  }

  /** Where the rest after a marker ending at `i` starts: one separating newline is dropped. */
  function StartAfter(text: string, i: nat): (start: nat)
    requires i <= |text|
    ensures i <= start <= |text|
  {
    if i < |text| && text[i] == '\n' then i + 1 else i
  }

  function Piece(text: string, from: nat, i: nat): seq<Part>
    requires from <= i <= |text|
  {
    TextUnlessEmpty(Slice(text, from, EndBefore(text, from, i))) + [MarkerPart]
  }

  /** The parts of the text from `from` on: what precedes the first marker, the marker, the rest. */
  function SplitParts(text: string, marker: string, from: nat): seq<Part>
    requires marker != "" && from <= |text|
    decreases |text| - from
  {
    match FindFrom(text, marker, from)
    case None => TextUnlessEmpty(Slice(text, from, |text|))
    case Some(i) => Piece(text, from, i) + SplitParts(text, marker, StartAfter(text, i + |marker|))
  }

  function Split(text: string, marker: string): Option<seq<Part>>
    requires marker != ""
  {
    if FindFrom(text, marker, 0).None? then None else Some(SplitParts(text, marker, 0))
  }

  lemma {:induction false} Assoc<T>(a: seq<T>, b: seq<T>, c: seq<T>)
    ensures (a + b) + c == a + (b + c)
  {
  }

  /** One turn of the splitting loop keeps what is split off and what is left. */
  lemma {:induction false} SplitStep(text: string, marker: string, parts: seq<Part>, rest: nat, i: nat, whole: seq<Part>)
    requires marker != "" && rest <= |text| && FindFrom(text, marker, rest) == Some(i)
    requires parts + SplitParts(text, marker, rest) == whole
    ensures parts + Piece(text, rest, i) + SplitParts(text, marker, StartAfter(text, i + |marker|)) == whole
  {
    Assoc(parts, Piece(text, rest, i), SplitParts(text, marker, StartAfter(text, i + |marker|)));
  }

  lemma {:induction false} SplitEnd(text: string, marker: string, parts: seq<Part>, rest: nat, whole: seq<Part>)
    requires marker != "" && rest <= |text| && FindFrom(text, marker, rest).None?
    requires parts + SplitParts(text, marker, rest) == whole
    ensures parts + TextUnlessEmpty(Slice(text, rest, |text|)) == whole
  {
  }

  /** `rest` is the offset at which the source's remaining slice starts. */
  method SplitMediaMarkerText(text: string, marker: string) returns (r: Option<seq<Part>>)
    requires marker != ""
    ensures r == Split(text, marker)
  {
    var parts: seq<Part> := [];
    var rest := 0;
    var foundMarker := false;
    var at := FindFrom(text, marker, 0);
    ghost var whole := SplitParts(text, marker, 0);
    while at.Some?
      invariant rest <= |text| && at == FindFrom(text, marker, rest)
      invariant foundMarker == (rest > 0)
      invariant foundMarker ==> FindFrom(text, marker, 0).Some?
      invariant parts + SplitParts(text, marker, rest) == whole
      decreases |text| - rest
    {
      foundMarker := true;
      SplitStep(text, marker, parts, rest, at.value, whole);
      parts := parts + Piece(text, rest, at.value);
      rest := StartAfter(text, at.value + |marker|);
      at := FindFrom(text, marker, rest);
    }
    if !foundMarker {
      return None;
    }
    SplitEnd(text, marker, parts, rest, whole);
    return Some(parts + TextUnlessEmpty(Slice(text, rest, |text|)));
  }

  function ConvertPart(part: Part, marker: string): seq<Part>
    requires marker != ""
  {
    if part.TextPart? && Split(part.text, marker).Some? then Split(part.text, marker).value else [part]
  }

  function ConvertParts(parts: seq<Part>, marker: string): seq<Part>
    requires marker != ""
  {
    if parts == [] then [] else ConvertPart(parts[0], marker) + ConvertParts(parts[1..], marker)
  }

  function Convert(content: Content, marker: string): Content {
    if marker == "" then content
    else
      match content
      case Plain(text) => (match Split(text, marker) case Some(parts) => Parts(parts) case None => content)
      case Parts(parts) => Parts(ConvertParts(parts, marker))
      case Neither => content
  }

  /** The in-place conversion of every message's content. */
  method ConvertTextMediaMarkers(messages: array<Content>, marker: string)
    modifies messages
    ensures forall m :: 0 <= m < messages.Length ==> messages[m] == Convert(old(messages[m]), marker)
  {
    if marker == "" {
      return;
    }
    for m := 0 to messages.Length
      invariant forall k :: 0 <= k < m ==> messages[k] == Convert(old(messages[k]), marker)
      invariant forall k :: m <= k < messages.Length ==> messages[k] == old(messages[k])
    {
      var content := ConvertContent(messages[m], marker);
      messages[m] := content;
    }
  }

  method ConvertContent(content: Content, marker: string) returns (r: Content)
    requires marker != ""
    ensures r == Convert(content, marker)
  {
    match content {
      case Plain(text) =>
        var parts := SplitMediaMarkerText(text, marker);
        return if parts.Some? then Parts(parts.value) else content;
      case Neither =>
        return content;
      case Parts(parts) =>
        var updated, changed := ConvertContentParts(parts, marker);
        return if changed then Parts(updated) else content;
    }
  }

  lemma {:induction false} FixedParts(parts: seq<Part>, marker: string)
    requires marker != "" && forall k :: 0 <= k < |parts| ==> ConvertPart(parts[k], marker) == [parts[k]]
    ensures ConvertParts(parts, marker) == parts
    decreases |parts|
  {
    if parts != [] {
      FixedParts(parts[1..], marker);
    }
  }

  lemma {:induction false} ConvertStep(parts: seq<Part>, marker: string, i: nat, updated: seq<Part>, whole: seq<Part>)
    requires marker != "" && i < |parts| && updated + ConvertParts(parts[i..], marker) == whole
    ensures updated + ConvertPart(parts[i], marker) + ConvertParts(parts[i + 1..], marker) == whole
  {
    assert parts[i..][1..] == parts[i + 1..];
    Assoc(updated, ConvertPart(parts[i], marker), ConvertParts(parts[i + 1..], marker));
  }

  method ConvertContentParts(parts: seq<Part>, marker: string) returns (updated: seq<Part>, changed: bool)
    requires marker != ""
    ensures updated == ConvertParts(parts, marker)
    ensures !changed ==> updated == parts
  {
    updated, changed := [], false;
    ghost var whole := ConvertParts(parts, marker);
    for i := 0 to |parts|
      invariant updated + ConvertParts(parts[i..], marker) == whole
      invariant !changed ==> forall k :: 0 <= k < i ==> ConvertPart(parts[k], marker) == [parts[k]]
    {
      ConvertStep(parts, marker, i, updated, whole);
      if parts[i].TextPart? {
        var split := SplitMediaMarkerText(parts[i].text, marker);
        if split.Some? {
          updated := updated + split.value;
          changed := true;
          continue;
        }
      }
      updated := updated + [parts[i]];
    }
    assert updated == whole;
    if !changed {
      FixedParts(parts, marker);
    }
  }

  // ---------- converting twice changes nothing ----------

  ghost predicate FreeOf(part: Part, marker: string) {
    part.TextPart? ==> !Contains(part.text, marker)
  }

  /** No text part of the list holds the marker. */
  ghost predicate MarkerFree(parts: seq<Part>, marker: string) {
    forall i :: 0 <= i < |parts| ==> FreeOf(parts[i], marker)
  }

  lemma {:induction false} MarkerFreeAppend(a: seq<Part>, b: seq<Part>, marker: string)
    requires MarkerFree(a, marker) && MarkerFree(b, marker)
    ensures MarkerFree(a + b, marker)
  {
  }

  lemma {:induction false} PieceIsMarkerFree(text: string, marker: string, from: nat, i: nat)
    requires marker != "" && from <= |text| && FindFrom(text, marker, from) == Some(i)
    ensures MarkerFree(Piece(text, from, i), marker)
  {
    FindFromSpec(text, marker, from);
    SliceLacks(text, marker, from, EndBefore(text, from, i));
    SliceIs(text, from, EndBefore(text, from, i));
    var before := TextUnlessEmpty(Slice(text, from, EndBefore(text, from, i)));
    assert MarkerFree(before, marker);
    MarkerFreeAppend(before, [MarkerPart], marker);
  }

  lemma {:induction false} SplitIsMarkerFree(text: string, marker: string, from: nat)
    requires marker != "" && from <= |text|
    ensures MarkerFree(SplitParts(text, marker, from), marker)
    decreases |text| - from
  {
    match FindFrom(text, marker, from) {
      case None =>
        FindFromSpec(text, marker, from);
        SliceLacks(text, marker, from, |text|);
        SliceIs(text, from, |text|);
      case Some(i) =>
        var rest := StartAfter(text, i + |marker|);
        PieceIsMarkerFree(text, marker, from, i);
        SplitIsMarkerFree(text, marker, rest);
        MarkerFreeAppend(Piece(text, from, i), SplitParts(text, marker, rest), marker);
    }
  }

  lemma {:induction false} FreePartIsFixed(part: Part, marker: string)
    requires marker != "" && FreeOf(part, marker)
    ensures ConvertPart(part, marker) == [part]
  {
    if part.TextPart? {
      FindFromSpec(part.text, marker, 0);
    }
  }

  lemma {:induction false} MarkerFreeIsFixed(parts: seq<Part>, marker: string)
    requires marker != "" && MarkerFree(parts, marker)
    ensures ConvertParts(parts, marker) == parts
  {
    forall k | 0 <= k < |parts| ensures ConvertPart(parts[k], marker) == [parts[k]] {
      FreePartIsFixed(parts[k], marker);
    }
    FixedParts(parts, marker);
  }

  lemma {:induction false} ConvertedPartIsMarkerFree(part: Part, marker: string)
    requires marker != ""
    ensures MarkerFree(ConvertPart(part, marker), marker)
  {
    if part.TextPart? {
      SplitIsMarkerFree(part.text, marker, 0);
      FindFromSpec(part.text, marker, 0);
    }
  }

  lemma {:induction false} ConvertedIsMarkerFree(parts: seq<Part>, marker: string)
    requires marker != ""
    ensures MarkerFree(ConvertParts(parts, marker), marker)
    decreases |parts|
  {
    if parts != [] {
      ConvertedPartIsMarkerFree(parts[0], marker);
      ConvertedIsMarkerFree(parts[1..], marker);
      MarkerFreeAppend(ConvertPart(parts[0], marker), ConvertParts(parts[1..], marker), marker);
    }
  }

  lemma {:induction false} ConvertIsIdempotent(content: Content, marker: string)
    ensures Convert(Convert(content, marker), marker) == Convert(content, marker)
  {
    if marker != "" {
      match content {
        case Plain(text) =>
          SplitIsMarkerFree(text, marker, 0);
          MarkerFreeIsFixed(SplitParts(text, marker, 0), marker);
        case Parts(parts) =>
          ConvertedIsMarkerFree(parts, marker);
          MarkerFreeIsFixed(ConvertParts(parts, marker), marker);
        case Neither =>
      }
    }
  }

  // ---------- splitting undoes the newline join ----------

  function PartText(part: Part, marker: string): string {
    if part.TextPart? then part.text else marker
  }

  function Join(parts: seq<Part>, marker: string): string
    decreases |parts|, 0
  {
    if parts == [] then "" else PartText(parts[0], marker) + Remainder(parts[1..], marker)
  }

  /** What the parts after the first add to a join. */
  function Remainder(parts: seq<Part>, marker: string): string
    decreases |parts|, 1
  {
    if parts == [] then "" else "\n" + Join(parts, marker)
  }

  /** Non-empty marker-free texts, never two in a row, and markers. */
  ghost predicate Canonical(parts: seq<Part>, marker: string) {
    && (forall i :: 0 <= i < |parts| ==> parts[i].MarkerPart? || (parts[i].TextPart? && |parts[i].text| > 0))
    && MarkerFree(parts, marker)
    && forall i :: 0 < i < |parts| ==> !(parts[i - 1].TextPart? && parts[i].TextPart?)
  }

  predicate NoNewline(s: string) {
    forall i :: 0 <= i < |s| ==> s[i] != '\n'
  }

  lemma {:induction false} OccursHere(front: string, marker: string, tail: string)
    ensures OccursAt(front + (marker + tail), marker, |front|)
  {
    OccursMeans(front + (marker + tail), marker, |front|);
  }

  lemma {:induction false} OccursInText(pre: string, text: string, tail: string, marker: string, j: nat)
    requires |pre| <= j && j + |marker| <= |pre| + |text| && OccursAt(pre + text + tail, marker, j)
    ensures OccursAt(text, marker, j - |pre|)
  {
    OccursMeans(pre + text + tail, marker, j);
    OccursMeans(text, marker, j - |pre|);
    assert (pre + text + tail)[j..j + |marker|] == text[j - |pre|..j - |pre| + |marker|];
  }

  lemma {:induction false} OccursPastNewline(front: string, tail: string, marker: string, j: nat)
    requires j <= |front| < j + |marker| && OccursAt(front + ("\n" + tail), marker, j)
    ensures !NoNewline(marker)
  {
    var whole := front + ("\n" + tail);
    OccursMeans(whole, marker, j);
    assert marker[|front| - j] == whole[j..j + |marker|][|front| - j] == '\n';
  }

  /** The first marker when the text starts with one. */
  lemma {:induction false} MarkerComesFirst(pre: string, marker: string, tail: string)
    ensures FindFrom(pre + (marker + tail), marker, |pre|) == Some(|pre|)
  {
    OccursHere(pre, marker, tail);
    FindFromIs(pre + (marker + tail), marker, |pre|, |pre|);
  }

  /** A marker without newlines cannot start in a text and end past the newline that follows it. */
  lemma {:induction false} NoEarlierMarker(pre: string, text: string, tail: string, marker: string, j: nat)
    requires NoNewline(marker) && |marker| > 0 && !Contains(text, marker) && |pre| <= j <= |pre| + |text|
    ensures !OccursAt(pre + text + ("\n" + tail), marker, j)
  {
    if OccursAt(pre + text + ("\n" + tail), marker, j) {
      if j + |marker| <= |pre| + |text| {
        OccursInText(pre, text, "\n" + tail, marker, j);
      } else {
        OccursPastNewline(pre + text, tail, marker, j);
      }
    }
  }

  lemma {:induction false} MarkerAfterText(pre: string, text: string, marker: string, tail: string)
    requires NoNewline(marker) && |marker| > 0 && !Contains(text, marker)
    ensures FindFrom(pre + text + ("\n" + (marker + tail)), marker, |pre|) == Some(|pre| + |text| + 1)
  {
    var whole := pre + text + ("\n" + (marker + tail));
    OccursHere(pre + text + "\n", marker, tail);
    assert whole == (pre + text + "\n") + (marker + tail);
    forall j: nat | |pre| <= j < |pre| + |text| + 1 ensures !OccursAt(whole, marker, j) {
      NoEarlierMarker(pre, text, marker + tail, marker, j);
    }
    FindFromIs(whole, marker, |pre|, |pre| + |text| + 1);
  }

  lemma {:induction false} NoMarkerInLastText(pre: string, text: string, marker: string)
    requires |marker| > 0 && !Contains(text, marker)
    ensures FindFrom(pre + text, marker, |pre|) == None
  {
    forall j: nat | |pre| <= j && OccursAt(pre + text, marker, j) ensures false {
      assert pre + text + "" == pre + text;
      OccursInText(pre, text, "", marker, j);
    }
    FindFromNone(pre + text, marker, |pre|);
  }

  /** Splitting what follows `pre` when it is the rest of a join. */
  lemma {:induction false} SplitRemainder(pre: string, parts: seq<Part>, marker: string)
    requires |marker| > 0 && NoNewline(marker) && Canonical(parts, marker)
    ensures var whole := pre + Remainder(parts, marker);
            SplitParts(whole, marker, StartAfter(whole, |pre|)) == parts
    decreases |parts|, 1
  {
    var whole := pre + Remainder(parts, marker);
    if parts == [] {
      NoMarkerInLastText(pre, "", marker);
      assert whole == pre + "";
    } else {
      assert whole == (pre + "\n") + Join(parts, marker);
      SplitJoin(pre + "\n", parts, marker);
    }
  }

  lemma {:induction false} UnfoldSplit(text: string, marker: string, from: nat, i: nat, piece: seq<Part>, rest: seq<Part>)
    requires marker != "" && from <= |text| && FindFrom(text, marker, from) == Some(i)
    requires Piece(text, from, i) == piece
    requires SplitParts(text, marker, StartAfter(text, i + |marker|)) == rest
    ensures SplitParts(text, marker, from) == piece + rest
  {
  }

  lemma {:induction false} LastText(pre: string, text: string, marker: string)
    requires |marker| > 0 && |text| > 0 && FindFrom(pre + text, marker, |pre|).None?
    ensures SplitParts(pre + text, marker, |pre|) == [TextPart(text)]
  {
    SliceIs(pre + text, |pre|, |pre + text|);
    assert (pre + text)[|pre|..|pre + text|] == text;
  }

  lemma {:induction false} TextPiece(pre: string, text: string, tail: string)
    requires |text| > 0
    ensures Piece(pre + text + ("\n" + tail), |pre|, |pre| + |text| + 1) == [TextPart(text), MarkerPart]
  {
    var whole := pre + text + ("\n" + tail);
    SliceIs(whole, |pre|, |pre| + |text|);
    assert whole[|pre| + |text|] == '\n' && whole[|pre|..|pre| + |text|] == text;
  }

  lemma {:induction false} CanonicalTail(parts: seq<Part>, marker: string)
    requires Canonical(parts, marker) && parts != []
    ensures Canonical(parts[1..], marker)
  {
    var rest := parts[1..];
    assert forall i :: 0 <= i < |rest| ==> rest[i] == parts[i + 1];
  }

  lemma {:induction false} JoinMarker(pre: string, parts: seq<Part>, marker: string)
    requires parts != [] && parts[0].MarkerPart?
    ensures pre + Join(parts, marker) == pre + (marker + Remainder(parts[1..], marker))
    ensures pre + Join(parts, marker) == (pre + marker) + Remainder(parts[1..], marker)
  {
  }

  lemma {:induction false} JoinTextMarker(pre: string, parts: seq<Part>, marker: string)
    requires |parts| >= 2 && parts[0].TextPart? && parts[1].MarkerPart?
    ensures var text, tail := parts[0].text, Remainder(parts[1..][1..], marker);
            && pre + Join(parts, marker) == pre + text + ("\n" + (marker + tail))
            && pre + Join(parts, marker) == (pre + text + "\n" + marker) + tail
  {
    var text, tail := parts[0].text, Remainder(parts[1..][1..], marker);
    assert Join(parts[1..], marker) == marker + tail;
    assert Join(parts, marker) == text + ("\n" + (marker + tail));
  }

  lemma {:induction false} SplitJoin(pre: string, parts: seq<Part>, marker: string)
    requires |marker| > 0 && NoNewline(marker) && Canonical(parts, marker) && parts != []
    ensures SplitParts(pre + Join(parts, marker), marker, |pre|) == parts
    decreases |parts|, 0
  {
    if parts[0].MarkerPart? {
      SplitJoinMarker(pre, parts, marker);
    } else if |parts| == 1 {
      NoMarkerInLastText(pre, parts[0].text, marker);
      LastText(pre, parts[0].text, marker);
      assert Join(parts, marker) == parts[0].text;
    } else {
      SplitJoinText(pre, parts, marker);
    }
  }

  /** A marker at `pre`, then a tail that splits as `rest`. */
  lemma {:induction false} SplitMarkerFirst(pre: string, marker: string, tail: string, rest: seq<Part>)
    requires marker != ""
    requires SplitParts(pre + marker + tail, marker, StartAfter(pre + marker + tail, |pre + marker|)) == rest
    ensures SplitParts(pre + (marker + tail), marker, |pre|) == [MarkerPart] + rest
  {
    var whole := pre + (marker + tail);
    assert pre + marker + tail == whole;
    MarkerComesFirst(pre, marker, tail);
    UnfoldSplit(whole, marker, |pre|, |pre|, [MarkerPart], rest);
  }

  /** A text and a newline at `pre`, then a marker, then a tail that splits as `rest`. */
  lemma {:induction false} SplitTextFirst(pre: string, text: string, marker: string, tail: string, rest: seq<Part>)
    requires NoNewline(marker) && |marker| > 0 && |text| > 0 && !Contains(text, marker)
    requires var front := pre + text + "\n" + marker;
             SplitParts(front + tail, marker, StartAfter(front + tail, |front|)) == rest
    ensures SplitParts(pre + text + ("\n" + (marker + tail)), marker, |pre|) == [TextPart(text), MarkerPart] + rest
  {
    var whole := pre + text + ("\n" + (marker + tail));
    assert pre + text + "\n" + marker + tail == whole;
    MarkerAfterText(pre, text, marker, tail);
    TextPiece(pre, text, marker + tail);
    UnfoldSplit(whole, marker, |pre|, |pre| + |text| + 1, [TextPart(text), MarkerPart], rest);
  }

  lemma {:induction false} SplitJoinMarker(pre: string, parts: seq<Part>, marker: string)
    requires |marker| > 0 && NoNewline(marker) && Canonical(parts, marker)
    requires parts != [] && parts[0].MarkerPart?
    ensures SplitParts(pre + Join(parts, marker), marker, |pre|) == parts
    decreases |parts| - 1, 2
  {
    CanonicalTail(parts, marker);
    SplitRemainder(pre + marker, parts[1..], marker);
    SplitMarkerFirst(pre, marker, Remainder(parts[1..], marker), parts[1..]);
    JoinMarker(pre, parts, marker);
    assert parts == [MarkerPart] + parts[1..];
  }

  lemma {:induction false} SplitJoinText(pre: string, parts: seq<Part>, marker: string)
    requires |marker| > 0 && NoNewline(marker) && Canonical(parts, marker)
    requires |parts| >= 2 && parts[0].TextPart?
    ensures SplitParts(pre + Join(parts, marker), marker, |pre|) == parts
    decreases |parts| - 1, 2
  {
    var text, last := parts[0].text, parts[1..][1..];
    assert parts[1].MarkerPart?;
    CanonicalTail(parts, marker);
    CanonicalTail(parts[1..], marker);
    SplitRemainder(pre + text + "\n" + marker, last, marker);
    SplitTextFirst(pre, text, marker, Remainder(last, marker), last);
    JoinTextMarker(pre, parts, marker);
    assert parts == [parts[0], MarkerPart] + last;
  }

  lemma {:induction false} MarkerMeansFound(parts: seq<Part>, marker: string)
    requires |marker| > 0 && NoNewline(marker) && Canonical(parts, marker) && MarkerPart in parts
    ensures FindFrom("" + Join(parts, marker), marker, 0).Some?
  {
    if parts[0].MarkerPart? {
      MarkerComesFirst("", marker, Remainder(parts[1..], marker));
      JoinMarker("", parts, marker);
    } else {
      assert |parts| >= 2 && parts[1].MarkerPart?;
      JoinTextMarker("", parts, marker);
      MarkerAfterText("", parts[0].text, marker, Remainder(parts[1..][1..], marker));
    }
  }

  /** Splitting the newline join of a canonical list with a marker gives exactly that list. */
  lemma {:induction false} SplitUndoesJoin(parts: seq<Part>, marker: string)
    requires |marker| > 0 && NoNewline(marker) && Canonical(parts, marker)
    requires MarkerPart in parts
    ensures Split(Join(parts, marker), marker) == Some(parts)
  {
    SplitJoin("", parts, marker);
    assert "" + Join(parts, marker) == Join(parts, marker);
    MarkerMeansFound(parts, marker);
  }
}
