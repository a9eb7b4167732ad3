/** Converting media markers loses nothing but single newlines beside them, and leaves no marker in a text. */
module MediaConversion {
  import opened Text
  import opened MediaMarkers

  /** What a list of parts spells: the characters of texts and markers, and the other parts. */
  datatype Sign = Char(c: char) | Foreign(id: nat)

  /** The newlines dropped before and after a marker. */
  datatype Gap = Gap(before: string, after: string)

  function Chars(text: string): seq<Sign> {
    seq(|text|, i requires 0 <= i < |text| => Char(text[i]))
  }

  function SpellPart(part: Part, gap: Gap, marker: string): seq<Sign> {
    match part
    case TextPart(text) => Chars(text)
    case MarkerPart => Chars(gap.before + marker + gap.after)
    case OtherPart(id) => [Foreign(id)]
  }

  /** The parts written out in order, each marker with the newlines of its gap. */
  function Spell(parts: seq<Part>, gaps: seq<Gap>, marker: string): seq<Sign>
    requires |gaps| == |parts|
  {
    if parts == [] then [] else SpellPart(parts[0], gaps[0], marker) + Spell(parts[1..], gaps[1..], marker)
  }

  predicate IsSmall(gap: Gap) {
    (gap.before == "" || gap.before == "\n") && (gap.after == "" || gap.after == "\n")
  }

  predicate Small(gaps: seq<Gap>) {
    forall i :: 0 <= i < |gaps| ==> IsSmall(gaps[i])
  }

  function NoGaps(n: nat): seq<Gap> {
    seq(n, _ => Gap("", ""))
  }

  lemma {:induction false} SpellAppend(a: seq<Part>, b: seq<Part>, gapsA: seq<Gap>, gapsB: seq<Gap>, marker: string)
    requires |gapsA| == |a| && |gapsB| == |b|
    ensures Spell(a + b, gapsA + gapsB, marker) == Spell(a, gapsA, marker) + Spell(b, gapsB, marker)
    decreases |a|
  {
    hide SpellPart;
    if a == [] {
      assert a + b == b && gapsA + gapsB == gapsB;
    } else {
      assert (a + b)[1..] == a[1..] + b && (gapsA + gapsB)[1..] == gapsA[1..] + gapsB;
      SpellAppend(a[1..], b, gapsA[1..], gapsB, marker);
    }
  }

  lemma {:induction false} SpellOne(part: Part, gap: Gap, marker: string)
    ensures Spell([part], [gap], marker) == SpellPart(part, gap, marker)
  {
    assert [part][1..] == [] && [gap][1..] == [];
  }

  lemma {:induction false} CharsAppend(a: string, b: string)
    ensures Chars(a + b) == Chars(a) + Chars(b)
  {
  }

  lemma {:induction false} TextSpells(text: string, marker: string) returns (gaps: seq<Gap>)
    ensures |gaps| == |TextUnlessEmpty(text)| && Small(gaps) && Spell(TextUnlessEmpty(text), gaps, marker) == Chars(text)
  {
    gaps := NoGaps(|TextUnlessEmpty(text)|);
    if text != "" {
      assert gaps == [Gap("", "")];
      SpellOne(TextPart(text), Gap("", ""), marker);
    }
  }

  lemma {:induction false} CutChars(text: string, a: nat, b: nat, c: nat)
    requires a <= b <= c <= |text|
    ensures Chars(text[a..c]) == Chars(text[a..b]) + Chars(text[b..c])
  {
    assert text[a..c] == text[a..b] + text[b..c];
    CharsAppend(text[a..b], text[b..c]);
  }

  lemma {:induction false} CutThrice(text: string, a: nat, b: nat, c: nat, d: nat)
    requires a <= b <= c <= d <= |text|
    ensures text[a..d] == text[a..b] + text[b..c] + text[c..d]
  {
  }

  lemma {:induction false} GapIsSmall(text: string, marker: string, from: nat, i: nat)
    requires from <= i && i + |marker| <= |text|
    ensures IsSmall(Gap(text[EndBefore(text, from, i)..i], text[i + |marker|..StartAfter(text, i + |marker|)]))
  {
  }

  /** The newlines that are dropped beside a marker at `i`. */
  lemma {:induction false} MarkerSpells(text: string, marker: string, from: nat, i: nat) returns (gap: Gap)
    requires from <= i && i + |marker| <= |text| && text[i..i + |marker|] == marker
    ensures IsSmall(gap)
    ensures SpellPart(MarkerPart, gap, marker) == Chars(text[EndBefore(text, from, i)..StartAfter(text, i + |marker|)])
  {
    hide IsSmall, EndBefore, StartAfter, Chars;
    var end, start := EndBefore(text, from, i), StartAfter(text, i + |marker|);
    gap := Gap(text[end..i], text[i + |marker|..start]);
    GapIsSmall(text, marker, from, i);
    CutThrice(text, end, i, i + |marker|, start);
  }

  /** A marker and what stands before it, with the newlines beside the marker. */
  lemma {:induction false} PieceSpells(text: string, marker: string, from: nat, i: nat) returns (gaps: seq<Gap>)
    requires marker != "" && from <= i && i + |marker| <= |text| && text[i..i + |marker|] == marker
    ensures |gaps| == |Piece(text, from, i)| && Small(gaps)
    ensures Spell(Piece(text, from, i), gaps, marker) == Chars(text[from..StartAfter(text, i + |marker|)])
  {
    hide Spell, Chars, Slice, TextUnlessEmpty, SpellPart, IsSmall;
    var end := EndBefore(text, from, i);
    SliceIs(text, from, end);
    var gap := MarkerSpells(text, marker, from, i);
    var first := TextSpells(text[from..end], marker);
    gaps := first + [gap];
    SpellOne(MarkerPart, gap, marker);
    SpellAppend(TextUnlessEmpty(text[from..end]), [MarkerPart], first, [gap], marker);
    CutChars(text, from, end, StartAfter(text, i + |marker|));
  }

  lemma {:induction false} SplitIs(text: string, marker: string, from: nat)
    requires marker != "" && from <= |text|
    ensures match FindFrom(text, marker, from)
            case None => SplitParts(text, marker, from) == TextUnlessEmpty(text[from..|text|])
            case Some(i) =>
              && from <= i && i + |marker| <= |text| && text[i..i + |marker|] == marker
              && SplitParts(text, marker, from) == Piece(text, from, i) + SplitParts(text, marker, StartAfter(text, i + |marker|))
  {
    FindFromSpec(text, marker, from);
    SliceIs(text, from, |text|);
    if FindFrom(text, marker, from).Some? {
      OccursMeans(text, marker, FindFrom(text, marker, from).value);
    }
  }

  /** Parts that spell two adjacent stretches of a text spell both together. */
  lemma {:induction false} SpellBoth(a: seq<Part>, b: seq<Part>, gapsA: seq<Gap>, gapsB: seq<Gap>, marker: string, text: string, from: nat, mid: nat)
    requires |gapsA| == |a| && |gapsB| == |b| && Small(gapsA) && Small(gapsB) && from <= mid <= |text|
    requires Spell(a, gapsA, marker) == Chars(text[from..mid]) && Spell(b, gapsB, marker) == Chars(text[mid..|text|])
    ensures Spell(a + b, gapsA + gapsB, marker) == Chars(text[from..|text|]) && Small(gapsA + gapsB)
  {
    hide Spell, Chars, IsSmall;
    SpellAppend(a, b, gapsA, gapsB, marker);
    CutChars(text, from, mid, |text|);
  }

  lemma {:induction false} SplitSpells(text: string, marker: string, from: nat) returns (gaps: seq<Gap>)
    requires marker != "" && from <= |text|
    ensures |gaps| == |SplitParts(text, marker, from)| && Small(gaps)
    ensures Spell(SplitParts(text, marker, from), gaps, marker) == Chars(text[from..|text|])
    decreases |text| - from
  {
    SplitIs(text, marker, from);
    hide Spell, Chars, TextUnlessEmpty, Small, Piece, FindFrom, SplitParts;
    match FindFrom(text, marker, from) {
      case None =>
        gaps := TextSpells(text[from..|text|], marker);
      case Some(i) =>
        var start := StartAfter(text, i + |marker|);
        hide StartAfter;
        var first := PieceSpells(text, marker, from, i);
        var rest := SplitSpells(text, marker, start);
        gaps := first + rest;
        SpellBoth(Piece(text, from, i), SplitParts(text, marker, start), first, rest, marker, text, from, start);
    }
  }

  lemma {:induction false} PartSpells(part: Part, marker: string) returns (gaps: seq<Gap>)
    requires marker != ""
    ensures |gaps| == |ConvertPart(part, marker)| && Small(gaps)
    ensures Spell(ConvertPart(part, marker), gaps, marker) == SpellPart(part, Gap("", ""), marker)
  {
    if part.TextPart? && Split(part.text, marker).Some? {
      gaps := SplitSpells(part.text, marker, 0);
      assert part.text[0..|part.text|] == part.text;
    } else {
      gaps := [Gap("", "")];
      SpellOne(part, gaps[0], marker);
    }
  }

  lemma {:induction false} PartsSpell(parts: seq<Part>, marker: string) returns (gaps: seq<Gap>)
    requires marker != ""
    ensures |gaps| == |ConvertParts(parts, marker)| && Small(gaps)
    ensures Spell(ConvertParts(parts, marker), gaps, marker) == Spell(parts, NoGaps(|parts|), marker)
    decreases |parts|
  {
    if parts == [] {
      gaps := [];
    } else {
      var first := PartSpells(parts[0], marker);
      var rest := PartsSpell(parts[1..], marker);
      gaps := first + rest;
      hide ConvertPart, SpellPart;
      SpellAppend(ConvertPart(parts[0], marker), ConvertParts(parts[1..], marker), first, rest, marker);
      assert NoGaps(|parts|)[1..] == NoGaps(|parts[1..]|);
    }
  }

  /** A content as a list of parts. */
  function AsParts(content: Content): seq<Part> {
    match content
    case Plain(text) => [TextPart(text)]
    case Parts(parts) => parts
    case Neither => []
  }

  /** Whatever the content: the conversion leaves no marker in a text, and with one newline at most put
      back on each side of a marker it spells what it was made from, other parts included. */
  lemma {:induction false} ConvertSpellsTheSame(content: Content, marker: string) returns (gaps: seq<Gap>)
    requires marker != ""
    ensures var converted := AsParts(Convert(content, marker));
            && |gaps| == |converted| && Small(gaps) && MarkerFree(converted, marker)
            && Spell(converted, gaps, marker) == Spell(AsParts(content), NoGaps(|AsParts(content)|), marker)
  {
    match content {
      case Plain(text) =>
        gaps := PartSpells(TextPart(text), marker);
        ConvertedPartIsMarkerFree(TextPart(text), marker);
        SpellOne(TextPart(text), Gap("", ""), marker);
        assert NoGaps(1) == [Gap("", "")];
      case Parts(parts) =>
        gaps := PartsSpell(parts, marker);
        ConvertedIsMarkerFree(parts, marker);
      case Neither =>
        gaps := [];
    }
  }

  /** A string becomes a list of parts exactly when it holds the marker; lists stay lists, and without a
      marker to look for nothing changes. */
  lemma {:induction false} ConvertChangesIff(content: Content, marker: string)
    ensures marker == "" ==> Convert(content, marker) == content
    ensures marker != "" && content.Plain? ==> (Convert(content, marker) == content <==> !Contains(content.text, marker))
    ensures content.Parts? ==> Convert(content, marker).Parts?
    ensures content.Neither? ==> Convert(content, marker) == content
  {
    if marker != "" && content.Plain? {
      FindFromSpec(content.text, marker, 0);
    }
  }
}
