/** A conversation without its message borders: every character of text and every other block, with the
    role and the flags it is said with. What each pass of the repair does to that sequence. */
module Grains {
  import opened Text
  import opened Messages
  import opened ConversationPasses

  datatype Voice = Voice(role: Role, userVisible: bool, turnContext: bool)

  datatype Grain = Letter(voice: Voice, c: char, audience: Option<seq<Role>>) | Whole(voice: Voice, block: Block)

  function VoiceOf(m: Message): Voice {
    Voice(m.role, m.userVisible, m.turnContext)
  }

  function Letters(v: Voice, text: string, audience: Option<seq<Role>>): seq<Grain> {
    seq(|text|, i requires 0 <= i < |text| => Letter(v, text[i], audience))
  }

  function BlockGrains(v: Voice, b: Block): seq<Grain> {
    if b.Text? then Letters(v, b.text, b.audience) else [Whole(v, b)]
  }

  function ContentGrains(v: Voice, content: seq<Block>): seq<Grain> {
    if content == [] then [] else BlockGrains(v, content[0]) + ContentGrains(v, content[1..])
  }

  function GrainsOf(messages: seq<Message>): seq<Grain> {
    if messages == [] then [] else ContentGrains(VoiceOf(messages[0]), messages[0].content) + GrainsOf(messages[1..])
  }

  lemma {:induction false} GrainAssoc(a: seq<Grain>, b: seq<Grain>, c: seq<Grain>)
    ensures a + b + c == a + (b + c)
  {
  }

  lemma {:induction false} ContentGrainsAppend(v: Voice, a: seq<Block>, b: seq<Block>)
    ensures ContentGrains(v, a + b) == ContentGrains(v, a) + ContentGrains(v, b)
    decreases |a|
  {
    hide BlockGrains;
    if a == [] {
      assert a + b == b;
    } else {
      assert (a + b)[1..] == a[1..] + b;
      ContentGrainsAppend(v, a[1..], b);
      GrainAssoc(BlockGrains(v, a[0]), ContentGrains(v, a[1..]), ContentGrains(v, b));
    }
  }

  lemma {:induction false} OneBlockGrains(v: Voice, b: Block)
    ensures ContentGrains(v, [b]) == BlockGrains(v, b)
  {
    assert [b][1..] == [] && BlockGrains(v, b) + [] == BlockGrains(v, b);
  }

  // ---------- merging text, and merging messages, keep every grain ----------

  lemma {:induction false} AbsorbGrains(v: Voice, merged: seq<Block>, b: Block)
    ensures ContentGrains(v, Absorb(merged, b)) == ContentGrains(v, merged) + BlockGrains(v, b)
  {
    OneBlockGrains(v, b);
    if merged != [] && Mergeable(merged[|merged| - 1], b) {
      var front, last := merged[..|merged| - 1], merged[|merged| - 1];
      var grown := MergeInto(last, b);
      assert merged == front + [last];
      OneBlockGrains(v, last);
      OneBlockGrains(v, grown);
      ContentGrainsAppend(v, front, [last]);
      ContentGrainsAppend(v, front, [grown]);
      assert BlockGrains(v, grown) == BlockGrains(v, last) + BlockGrains(v, b);
      hide BlockGrains, ContentGrains;
      GrainAssoc(ContentGrains(v, front), BlockGrains(v, last), BlockGrains(v, b));
    } else {
      ContentGrainsAppend(v, merged, [b]);
    }
  }

  lemma {:induction false} MergeBlocksGrains(v: Voice, merged: seq<Block>, rest: seq<Block>)
    ensures ContentGrains(v, MergeBlocks(merged, rest)) == ContentGrains(v, merged) + ContentGrains(v, rest)
    decreases |rest|
  {
    hide Absorb, BlockGrains;
    if rest == [] {
      assert ContentGrains(v, merged) + [] == ContentGrains(v, merged);
    } else {
      AbsorbGrains(v, merged, rest[0]);
      MergeBlocksGrains(v, Absorb(merged, rest[0]), rest[1..]);
      GrainAssoc(ContentGrains(v, merged), BlockGrains(v, rest[0]), ContentGrains(v, rest[1..]));
    }
  }

  /** Merging adjacent text blocks changes no character, nor its audience, and no other block. */
  lemma {:induction false} MergeTextKeepsGrains(messages: seq<Message>)
    ensures GrainsOf(Tidy(MergeText, messages).0) == GrainsOf(messages)
    decreases |messages|
  {
    hide MergeBlocks, ContentGrains, TidyBlocks;
    if messages != [] {
      var m, v := messages[0], VoiceOf(messages[0]);
      MergeBlocksGrains(v, [], m.content);
      NoGrains(v);
      assert [] + ContentGrains(v, m.content) == ContentGrains(v, m.content);
      MergeTextKeepsGrains(messages[1..]);
      var rest := Tidy(MergeText, messages[1..]).0;
      assert ([TidyMessage(MergeText, m).0] + rest)[1..] == rest;
    }
  }

  lemma {:induction false} NoGrains(v: Voice)
    ensures ContentGrains(v, []) == []
  {
  }

  lemma {:induction false} MergeFromGrains(last: Message, rest: seq<Message>)
    ensures GrainsOf(MergeFrom(last, rest, false).0) == ContentGrains(VoiceOf(last), last.content) + GrainsOf(rest)
    decreases |rest|
  {
    hide ContentGrains, HasToolResponse;
    if rest == [] {
      assert [last][1..] == [];
    } else if Joins(last, rest[0], false) {
      var v := VoiceOf(last);
      assert v == VoiceOf(rest[0]);
      ContentGrainsAppend(v, last.content, rest[0].content);
      MergeFromGrains(Join(last, rest[0]), rest[1..]);
      GrainAssoc(ContentGrains(v, last.content), ContentGrains(v, rest[0].content), GrainsOf(rest[1..]));
    } else {
      MergeFromGrains(rest[0], rest[1..]);
      var merged := MergeFrom(rest[0], rest[1..], false).0;
      assert ([last] + merged)[1..] == merged;
    }
  }

  /** Merging messages for storage changes nothing about any grain, so it never joins what is said with
      different flags. */
  lemma {:induction false} MergeKeepsGrains(messages: seq<Message>)
    ensures GrainsOf(MergeConsecutive(messages, false).0) == GrainsOf(messages)
  {
    if messages != [] {
      MergeFromGrains(messages[0], messages[1..]);
    }
  }

  lemma {:induction false} EmptyHasNoGrains(v: Voice, content: seq<Block>)
    requires IsEmptyContent(content)
    ensures ContentGrains(v, content) == []
    decreases |content|
  {
    if content != [] {
      EmptyHasNoGrains(v, content[1..]);
    }
  }

  /** Only messages without a grain are removed as empty. */
  lemma {:induction false} RemoveEmptyKeepsGrains(messages: seq<Message>)
    ensures GrainsOf(RemoveEmpty(messages).0) == GrainsOf(messages)
    decreases |messages|
  {
    hide IsEmptyContent, ContentGrains;
    if messages != [] {
      var m, rest := messages[0], RemoveEmpty(messages[1..]).0;
      RemoveEmptyKeepsGrains(messages[1..]);
      if IsEmptyContent(m.content) {
        EmptyHasNoGrains(VoiceOf(m), m.content);
        assert [] + GrainsOf(messages[1..]) == GrainsOf(messages[1..]);
      } else {
        assert ([m] + rest)[1..] == rest;
      }
    }
  }

  // ---------- trimming takes whitespace of assistant text only ----------

  predicate IsSeen(g: Grain) {
    !(g.Letter? && g.voice.role.Assistant? && IsWhitespace(g.c))
  }

  /** Everything but whitespace in assistant text. */
  function Seen(grains: seq<Grain>): seq<Grain> {
    if grains == [] then [] else (if IsSeen(grains[0]) then [grains[0]] else []) + Seen(grains[1..])
  }

  lemma {:induction false} SeenAppend(a: seq<Grain>, b: seq<Grain>)
    ensures Seen(a + b) == Seen(a) + Seen(b)
    decreases |a|
  {
    hide IsSeen;
    if a == [] {
      assert a + b == b;
    } else {
      assert (a + b)[1..] == a[1..] + b;
      SeenAppend(a[1..], b);
      GrainAssoc(if IsSeen(a[0]) then [a[0]] else [], Seen(a[1..]), Seen(b));
    }
  }

  lemma {:induction false} TrimEndSeen(v: Voice, text: string, audience: Option<seq<Role>>)
    requires v.role.Assistant?
    ensures Seen(Letters(v, TrimEnd(text), audience)) == Seen(Letters(v, text, audience))
    decreases |text|
  {
    if text != "" && IsWhitespace(text[|text| - 1]) {
      var front, last := text[..|text| - 1], Letter(v, text[|text| - 1], audience);
      TrimEndSeen(v, front, audience);
      assert Letters(v, text, audience) == Letters(v, front, audience) + [last];
      SeenAppend(Letters(v, front, audience), [last]);
      assert [last][1..] == [];
    }
  }

  lemma {:induction false} TrimBlocksSeen(v: Voice, content: seq<Block>)
    requires v.role.Assistant?
    ensures Seen(ContentGrains(v, TidyBlocks(TrimText, content).0)) == Seen(ContentGrains(v, content))
    decreases |content|
  {
    hide Seen, Letters, TrimEnd;
    if content != [] {
      var b, rest := content[0], TidyBlocks(TrimText, content[1..]).0;
      TrimBlocksSeen(v, content[1..]);
      if b.Text? {
        TrimEndSeen(v, b.text, b.audience);
      }
      SeenAppend(BlockGrains(v, TidyBlock(TrimText, b)), ContentGrains(v, rest));
      SeenAppend(BlockGrains(v, b), ContentGrains(v, content[1..]));
      assert ([TidyBlock(TrimText, b)] + rest)[1..] == rest;
    }
  }

  /** Trimming changes nothing but whitespace in assistant text. */
  lemma {:induction false} TrimKeepsSeen(messages: seq<Message>)
    ensures Seen(GrainsOf(Tidy(TrimText, messages).0)) == Seen(GrainsOf(messages))
    decreases |messages|
  {
    hide ContentGrains, TidyBlocks, Seen, MergeBlocks;
    if messages != [] {
      var m, v := messages[0], VoiceOf(messages[0]);
      if m.role.Assistant? {
        TrimBlocksSeen(v, m.content);
      }
      TrimKeepsSeen(messages[1..]);
      var first, rest := TidyMessage(TrimText, m).0, Tidy(TrimText, messages[1..]).0;
      assert ([first] + rest)[1..] == rest;
      SeenAppend(ContentGrains(v, first.content), GrainsOf(rest));
      SeenAppend(ContentGrains(v, m.content), GrainsOf(messages[1..]));
    }
  }

  /** `b'` is `b` without the whitespace at the end of its text. */
  predicate IsTrimmed(b: Block, b': Block) {
    if b.Text? then
      && b'.Text? && b'.audience == b.audience && b'.text <= b.text && AllBlank(b.text[|b'.text|..])
      && (b'.text != "" ==> !IsWhitespace(b'.text[|b'.text| - 1]))
    else b' == b
  }

  lemma {:induction false} TrimBlocksMeans(content: seq<Block>, j: nat)
    requires j < |content|
    ensures var trimmed := TidyBlocks(TrimText, content).0; |trimmed| == |content| && IsTrimmed(content[j], trimmed[j])
    decreases |content|
  {
    if content[0].Text? {
      TrimEndMeans(content[0].text);
    }
    hide TrimEnd, AllBlank, IsTrimmed;
    if |content| > 1 {
      TrimBlocksMeans(content[1..], if j > 0 then j - 1 else 0);
    }
    assert j == 0 ==> IsTrimmed(content[0], TidyBlock(TrimText, content[0])) by { OneTrimmed(content[0]); }
  }

  lemma {:induction false} OneTrimmed(b: Block)
    ensures IsTrimmed(b, TidyBlock(TrimText, b))
  {
    if b.Text? {
      TrimEndMeans(b.text);
    }
  }

  /** In an assistant message exactly the whitespace at the end of each text goes; user messages stay. */
  lemma {:induction false} TrimTakesTrailingWhitespace(messages: seq<Message>, i: nat)
    requires i < |messages|
    ensures var trimmed := Tidy(TrimText, messages).0;
            && |trimmed| == |messages|
            && if messages[i].role.User? then trimmed[i] == messages[i]
               else trimmed[i] == messages[i].(content := trimmed[i].content) && |trimmed[i].content| == |messages[i].content|
                    && forall j :: 0 <= j < |messages[i].content| ==> IsTrimmed(messages[i].content[j], trimmed[i].content[j])
    decreases |messages|
  {
    hide TidyBlocks, MergeBlocks, IsTrimmed;
    var content := messages[0].content;
    TidyBlocksSize(content);
    forall j: nat | j < |content| ensures IsTrimmed(content[j], TidyBlocks(TrimText, content).0[j]) {
      TrimBlocksMeans(content, j);
    }
    if |messages| > 1 {
      TrimTakesTrailingWhitespace(messages[1..], if i > 0 then i - 1 else 0);
    }
  }

  lemma {:induction false} TidyBlocksSize(content: seq<Block>)
    ensures |TidyBlocks(TrimText, content).0| == |content|
    decreases |content|
  {
    if content != [] {
      TidyBlocksSize(content[1..]);
    }
  }

  // ---------- empty tool results ----------

  /** No item has anything to show: no image, and no text or resource with text in it. */
  predicate NothingToShow(items: seq<Item>) {
    forall k :: 0 <= k < |items| ==>
      !items[k].Image? && (items[k].TextItem? ==> items[k].text == "") && (items[k].Resource? ==> items[k].extracted == "")
  }

  /** The block as repair leaves it: a successful result with nothing to show gets the placeholder. */
  function WithPlaceholder(b: Block): Block {
    if b.ToolResponse? && b.result.Some? && NothingToShow(b.result.value) then
      b.(result := Some(b.result.value + [TextItem("(empty result)")]))
    else b
  }

  function FilledGrain(g: Grain): Grain {
    if g.Whole? then g.(block := WithPlaceholder(g.block)) else g
  }

  function FilledGrains(grains: seq<Grain>): seq<Grain> {
    seq(|grains|, i requires 0 <= i < |grains| => FilledGrain(grains[i]))
  }

  lemma {:induction false} ShowsSomethingIff(items: seq<Item>)
    ensures HasToolResultContent(items) <==> !NothingToShow(items)
    decreases |items|
  {
    if items != [] {
      ShowsSomethingIff(items[1..]);
      if NothingToShow(items[1..]) && !CountsAsResult(items[0]) {
        forall k | 0 <= k < |items| ensures !items[k].Image? && (items[k].TextItem? ==> items[k].text == "") && (items[k].Resource? ==> items[k].extracted == "") {
          if k > 0 { assert items[k] == items[1..][k - 1]; }
        }
      }
      if !NothingToShow(items[1..]) {
        var k :| 0 <= k < |items[1..]| && !(!items[1..][k].Image? && (items[1..][k].TextItem? ==> items[1..][k].text == "") && (items[1..][k].Resource? ==> items[1..][k].extracted == ""));
        assert items[k + 1] == items[1..][k];
      }
    }
  }

  lemma {:induction false} FilledBlockIs(b: Block)
    ensures TidyBlock(FillResults, b) == WithPlaceholder(b)
  {
    if b.ToolResponse? && b.result.Some? {
      ShowsSomethingIff(b.result.value);
    }
  }

  /** `fix_empty_tool_results`: exactly the successful results with nothing to show get the placeholder;
      every other block of every message stays. */
  lemma {:induction false} PlaceholderIffNothingToShow(messages: seq<Message>, i: nat, j: nat)
    requires i < |messages| && j < |messages[i].content|
    ensures var filled := Tidy(FillResults, messages).0;
            && |filled| == |messages| && filled[i] == messages[i].(content := filled[i].content)
            && |filled[i].content| == |messages[i].content| && filled[i].content[j] == WithPlaceholder(messages[i].content[j])
    decreases |messages|
  {
    hide TidyBlocks, MergeBlocks, WithPlaceholder;
    if i == 0 {
      FilledContent(messages[0].content, j);
    }
    if |messages| > 1 {
      TidySize(FillResults, messages[1..]);
    }
    if i > 0 {
      PlaceholderIffNothingToShow(messages[1..], i - 1, j);
    }
  }

  lemma {:induction false} TidySize(pass: MessagePass, messages: seq<Message>)
    ensures |Tidy(pass, messages).0| == |messages|
    decreases |messages|
  {
    hide TidyMessage;
    if messages != [] {
      TidySize(pass, messages[1..]);
    }
  }

  lemma {:induction false} FilledContent(content: seq<Block>, j: nat)
    requires j < |content|
    ensures var filled := TidyBlocks(FillResults, content).0; |filled| == |content| && filled[j] == WithPlaceholder(content[j])
    decreases |content|
  {
    hide WithPlaceholder, TidyBlock, BlockIssues;
    FilledBlockIs(content[0]);
    if |content| > 1 {
      FilledContent(content[1..], if j > 0 then j - 1 else 0);
    }
  }

  lemma {:induction false} FilledAppend(a: seq<Grain>, b: seq<Grain>)
    ensures FilledGrains(a + b) == FilledGrains(a) + FilledGrains(b)
  {
    hide FilledGrain;
  }

  lemma {:induction false} FilledBlockGrains(v: Voice, b: Block)
    ensures BlockGrains(v, WithPlaceholder(b)) == FilledGrains(BlockGrains(v, b))
  {
  }

  lemma {:induction false} FilledContentGrains(v: Voice, content: seq<Block>)
    ensures ContentGrains(v, TidyBlocks(FillResults, content).0) == FilledGrains(ContentGrains(v, content))
    decreases |content|
  {
    hide WithPlaceholder, TidyBlock, BlockIssues, BlockGrains;
    if content != [] {
      var rest := TidyBlocks(FillResults, content[1..]).0;
      FilledBlockIs(content[0]);
      FilledBlockGrains(v, content[0]);
      FilledContentGrains(v, content[1..]);
      FilledAppend(BlockGrains(v, content[0]), ContentGrains(v, content[1..]));
      hide FilledGrains;
      assert ([WithPlaceholder(content[0])] + rest)[1..] == rest;
    }
  }

  lemma {:induction false} FillFillsGrains(messages: seq<Message>)
    ensures GrainsOf(Tidy(FillResults, messages).0) == FilledGrains(GrainsOf(messages))
    decreases |messages|
  {
    hide TidyBlocks, MergeBlocks, ContentGrains;
    if messages != [] {
      var m, v := messages[0], VoiceOf(messages[0]);
      FilledContentGrains(v, m.content);
      FillFillsGrains(messages[1..]);
      FilledAppend(ContentGrains(v, m.content), GrainsOf(messages[1..]));
      hide FilledGrains;
      var first, rest := TidyMessage(FillResults, m).0, Tidy(FillResults, messages[1..]).0;
      assert ([first] + rest)[1..] == rest;
    }
  }
}
