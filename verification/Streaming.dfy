/** Streamed chunks: how a conversation takes them in (`Conversation::push`, conversation.rs) and how
    `collect_stream` (base.rs) puts one message together. */
module Streaming {
  import opened Text
  import opened Messages
  import opened ConversationPasses

  // ---------- Conversation::push as a function ----------

  /** A message without content that only carries usage or the output limit. */
  predicate OnlyMetadata(m: Message) {
    m.content == [] && (m.inference.Some? || m.outputTokenLimitReached)
  }

  predicate TakesMetadata(existing: Message, m: Message) {
    && existing.role == m.role && existing.userVisible
    && (!m.outputTokenLimitReached || (m.id.Some? && existing.id == m.id))
  }

  /** The last message that may take the metadata. */
  function FindTaker(messages: seq<Message>, m: Message): (r: Option<nat>)
    ensures r.Some? ==> r.value < |messages|
  {
    if messages == [] then None
    else if TakesMetadata(messages[|messages| - 1], m) then Some(|messages| - 1)
    else FindTaker(messages[..|messages| - 1], m)
  }

  function WithMetadata(existing: Message, m: Message): Message {
    existing.(inference := if m.inference.Some? then m.inference else existing.inference,
              outputTokenLimitReached := existing.outputTokenLimitReached || m.outputTokenLimitReached)
  }

  predicate Continues(messages: seq<Message>, m: Message) {
    messages != [] && messages[|messages| - 1].id.Some? && messages[|messages| - 1].id == m.id
  }

  /** A thinking delta that belongs to the block before it: that block is unsigned, or carries the
      same signature. */
  predicate ContinuesThinking(last: Block, b: Block) {
    last.Thinking? && b.Thinking? && (last.signature == "" || b.signature == last.signature)
  }

  function ExtendThinking(last: Block, b: Block): Block
    requires last.Thinking? && b.Thinking?
  {
    Thinking(last.thinking + b.thinking, if b.signature != "" then b.signature else last.signature)
  }

  /** The content of a message that takes in one more chunk. */
  function Grown(content: seq<Block>, more: seq<Block>): seq<Block> {
    if content != [] && |more| == 1 && Mergeable(content[|content| - 1], more[0]) then
      content[|content| - 1 := MergeInto(content[|content| - 1], more[0])]
    else if content != [] && |more| == 1 && ContinuesThinking(content[|content| - 1], more[0]) then
      content[|content| - 1 := ExtendThinking(content[|content| - 1], more[0])]
    else
      content + more
  }

  function Pushed(messages: seq<Message>, m: Message): seq<Message> {
    if OnlyMetadata(m) then
      match FindTaker(messages, m)
      case Some(j) => messages[j := WithMetadata(messages[j], m)]
      case None =>
        if m.outputTokenLimitReached then messages + [m.(userVisible := true, agentVisible := false)] else messages
    else if Continues(messages, m) then
      var last := messages[|messages| - 1];
      messages[|messages| - 1 := WithMetadata(last, m).(content := Grown(last.content, m.content))]
    else
      messages + [m]
  }

  function PushedAll(messages: seq<Message>, chunks: seq<Message>): seq<Message>
    decreases |chunks|
  {
    if chunks == [] then messages else PushedAll(Pushed(messages, chunks[0]), chunks[1..])
  }

  // ---------- Conversation as the source writes it ----------

  class Conversation {
    var messages: seq<Message>

    constructor ()
      ensures messages == []
    {
      messages := [];
    }

    method Push(message: Message)
      modifies this
      ensures messages == Pushed(old(messages), message)
    {
      var outputTokenLimitReached := message.outputTokenLimitReached;
      if message.content == [] && (message.inference.Some? || outputTokenLimitReached) {
        var j := |messages|;
        assert messages[..j] == messages;
        while j > 0
          invariant 0 <= j <= |messages| && messages == old(messages)
          invariant FindTaker(messages, message) == FindTaker(messages[..j], message)
        {
          var existing := messages[j - 1];
          assert messages[..j][..j - 1] == messages[..j - 1];
          if TakesMetadata(existing, message) {
            if message.inference.Some? {
              existing := existing.(inference := message.inference);
            }
            existing := existing.(outputTokenLimitReached := existing.outputTokenLimitReached || outputTokenLimitReached);
            messages := messages[j - 1 := existing];
            return;
          }
          j := j - 1;
        }
        if outputTokenLimitReached {
          messages := messages + [message.(userVisible := true, agentVisible := false)];
        }
        return;
      }
      if messages != [] && messages[|messages| - 1].id.Some? && messages[|messages| - 1].id == message.id {
        var last := messages[|messages| - 1];
        if message.inference.Some? {
          last := last.(inference := message.inference);
        }
        last := last.(outputTokenLimitReached := last.outputTokenLimitReached || message.outputTokenLimitReached);
        var content := GrowContent(last.content, message.content);
        messages := messages[|messages| - 1 := last.(content := content)];
      } else {
        messages := messages + [message];
      }
    }

    method Extend(list: seq<Message>)
      modifies this
      ensures messages == PushedAll(old(messages), list)
    {
      var i := 0;
      assert list[0..] == list;
      while i < |list|
        invariant 0 <= i <= |list|
        invariant PushedAll(messages, list[i..]) == PushedAll(old(messages), list)
      {
        assert list[i..][1..] == list[i + 1..];
        Push(list[i]);
        i := i + 1;
      }
    }
  }

  /** The match on the last block and the chunk's. */
  method GrowContent(before: seq<Block>, more: seq<Block>) returns (content: seq<Block>)
    ensures content == Grown(before, more)
  {
    content := before;
    if content != [] && |more| == 1 {
      var last, new_ := content[|content| - 1], more[0];
      if last.Text? && new_.Text? && last.audience == new_.audience {
        content := content[|content| - 1 := last.(text := last.text + new_.text)];
        return;
      }
      if last.Thinking? && new_.Thinking? && (last.signature == "" || new_.signature == last.signature) {
        last := last.(thinking := last.thinking + new_.thinking);
        if new_.signature != "" {
          last := last.(signature := new_.signature);
        }
        content := content[|content| - 1 := last];
        return;
      }
    }
    content := content + more;
  }

  // ---------- collect_stream ----------

  /** One item of a provider's stream: an error, or perhaps a message and perhaps usage. */
  datatype StreamItem = Failure(error: nat) | Item(message: Option<Message>, usage: Option<nat>)

  datatype Collected = Error(error: Option<nat>) | Complete(message: Option<Message>, usage: Option<nat>)

  /** The message so far and one more; only adjacent text is put together. */
  function Coalesced(soFar: Option<Message>, m: Message): Option<Message> {
    match soFar
    case Some(prev) => Some(prev.(content := MergeBlocks(prev.content, m.content)))
    case None => Some(m)
  }

  /** `Complete(None, usage)` stands for the empty assistant message, a missing usage for the unknown one. */
  function CollectFrom(items: seq<StreamItem>, message: Option<Message>, usage: Option<nat>): Collected
    decreases |items|
  {
    if items == [] then if message.None? && usage.None? then Error(None) else Complete(message, usage)
    else
      match items[0]
      case Failure(error) => Error(Some(error))
      case Item(m, u) =>
        CollectFrom(items[1..], if m.Some? then Coalesced(message, m.value) else message, if u.Some? then u else usage)
  }

  method CollectStream(stream: seq<StreamItem>) returns (result: Collected)
    ensures result == CollectFrom(stream, None, None)
  {
    var finalMessage: Option<Message>, finalUsage: Option<nat> := None, None;
    assert stream[0..] == stream;
    var i := 0;
    while i < |stream|
      invariant 0 <= i <= |stream|
      invariant CollectFrom(stream, None, None) == CollectFrom(stream[i..], finalMessage, finalUsage)
    {
      assert stream[i..][1..] == stream[i + 1..];
      match stream[i] {
        case Failure(error) => return Error(Some(error));
        case Item(message, usage) =>
          if message.Some? {
            match finalMessage {
              case Some(prev) =>
                var content := AppendBlocks(prev.content, message.value.content);
                finalMessage := Some(prev.(content := content));
              case None => finalMessage := message;
            }
          }
          if usage.Some? {
            finalUsage := usage;
          }
      }
      i := i + 1;
    }
    result := if finalMessage.None? && finalUsage.None? then Error(None) else Complete(finalMessage, finalUsage);
  }

  /** The inner loop over a chunk's blocks. */
  method AppendBlocks(before: seq<Block>, more: seq<Block>) returns (content: seq<Block>)
    ensures content == MergeBlocks(before, more)
  {
    content := before;
    assert more[0..] == more;
    var i := 0;
    while i < |more|
      invariant 0 <= i <= |more|
      invariant MergeBlocks(before, more) == MergeBlocks(content, more[i..])
    {
      assert more[i..][1..] == more[i + 1..];
      var b := more[i];
      if content != [] && Mergeable(content[|content| - 1], b) {
        content := content[..|content| - 1] + [MergeInto(content[|content| - 1], b)];
      } else {
        content := content + [b];
      }
      i := i + 1;
    }
  }

  // ---------- both build the same content ----------

  /** A chunk of one stream: one block that is not thinking. */
  predicate IsChunk(m: Message, id: string) {
    m.id == Some(id) && |m.content| == 1 && !m.content[0].Thinking?
  }

  function AsItems(chunks: seq<Message>): seq<StreamItem> {
    if chunks == [] then [] else [Item(Some(chunks[0]), None)] + AsItems(chunks[1..])
  }

  lemma {:induction false} GrownIsAbsorbed(content: seq<Block>, b: Block)
    requires !b.Thinking?
    ensures Grown(content, [b]) == Absorb(content, b) == MergeBlocks(content, [b])
  {
    assert [b][1..] == [];
    assert MergeBlocks(Absorb(content, b), []) == Absorb(content, b);
    if content != [] {
      assert forall x: Block :: content[|content| - 1 := x] == content[..|content| - 1] + [x];
    }
  }

  /** From a message so far, pushing the chunks and collecting them give the same content. */
  lemma {:induction false} SameContentFrom(before: seq<Message>, pushed: Message, collected: Message, chunks: seq<Message>, id: string)
    requires pushed.id == Some(id) && pushed.content == collected.content
    requires forall i :: 0 <= i < |chunks| ==> IsChunk(chunks[i], id)
    ensures var all := PushedAll(before + [pushed], chunks);
            var result := CollectFrom(AsItems(chunks), Some(collected), None);
            && |all| == |before| + 1 && all[..|before|] == before
            && result.Complete? && result.message.Some? && all[|before|].content == result.message.value.content
    decreases |chunks|
  {
    if chunks == [] {
      assert (before + [pushed])[..|before|] == before;
    } else {
      var m, rest := chunks[0], chunks[1..];
      assert IsChunk(m, id);
      assert m.content == [m.content[0]];
      GrownIsAbsorbed(pushed.content, m.content[0]);
      hide Grown, MergeBlocks, Absorb;
      var pushed' := WithMetadata(pushed, m).(content := Grown(pushed.content, m.content));
      var collected' := collected.(content := MergeBlocks(collected.content, m.content));
      assert Pushed(before + [pushed], m) == before + [pushed'];
      assert AsItems(chunks)[1..] == AsItems(rest);
      assert CollectFrom(AsItems(chunks), Some(collected), None) == CollectFrom(AsItems(rest), Some(collected'), None);
      forall i | 0 <= i < |rest| ensures IsChunk(rest[i], id) {
        assert rest[i] == chunks[i + 1];
      }
      SameContentFrom(before, pushed', collected', rest, id);
    }
  }

  /** Pushing the single-block chunks of one stream onto a conversation adds one message, whose
      content is what `collect_stream` makes of them. */
  lemma {:induction false} PushAgreesWithCollect(before: seq<Message>, chunks: seq<Message>, id: string)
    requires chunks != [] && (before != [] ==> before[|before| - 1].id != Some(id))
    requires forall i :: 0 <= i < |chunks| ==> IsChunk(chunks[i], id)
    ensures var all := PushedAll(before, chunks);
            var result := CollectFrom(AsItems(chunks), None, None);
            && |all| == |before| + 1 && all[..|before|] == before
            && result.Complete? && result.message.Some? && all[|before|].content == result.message.value.content
  {
    var m, rest := chunks[0], chunks[1..];
    assert IsChunk(m, id);
    assert Pushed(before, m) == before + [m];
    assert AsItems(chunks)[1..] == AsItems(rest);
    forall i | 0 <= i < |rest| ensures IsChunk(rest[i], id) {
      assert rest[i] == chunks[i + 1];
    }
    SameContentFrom(before, m, m, rest, id);
  }

  // ---------- no streamed text is lost ----------

  function TextOf(content: seq<Block>): string {
    if content == [] then "" else (if content[0].Text? then content[0].text else "") + TextOf(content[1..])
  }

  function ThinkingOf(content: seq<Block>): string {
    if content == [] then "" else (if content[0].Thinking? then content[0].thinking else "") + ThinkingOf(content[1..])
  }

  lemma {:induction false} StringAssoc(a: string, b: string, c: string)
    ensures a + (b + c) == a + b + c
  {
  }

  lemma {:induction false} TextOfAppend(a: seq<Block>, b: seq<Block>)
    ensures TextOf(a + b) == TextOf(a) + TextOf(b) && ThinkingOf(a + b) == ThinkingOf(a) + ThinkingOf(b)
    decreases |a|
  {
    if a == [] {
      assert a + b == b;
    } else {
      assert (a + b)[1..] == a[1..] + b;
      TextOfAppend(a[1..], b);
      StringAssoc(if a[0].Text? then a[0].text else "", TextOf(a[1..]), TextOf(b));
      StringAssoc(if a[0].Thinking? then a[0].thinking else "", ThinkingOf(a[1..]), ThinkingOf(b));
    }
  }

  lemma {:induction false} TextOfOne(b: Block)
    ensures TextOf([b]) == (if b.Text? then b.text else "") && ThinkingOf([b]) == (if b.Thinking? then b.thinking else "")
  {
    assert [b][1..] == [];
  }

  /** Taking in a chunk conserves the text and the thinking, in order. */
  lemma {:induction false} GrownConserves(content: seq<Block>, more: seq<Block>)
    ensures TextOf(Grown(content, more)) == TextOf(content) + TextOf(more)
    ensures ThinkingOf(Grown(content, more)) == ThinkingOf(content) + ThinkingOf(more)
  {
    TextOfAppend(content, more);
    if content != [] && |more| == 1 {
      var front, last, b := content[..|content| - 1], content[|content| - 1], more[0];
      assert content == front + [last] && more == [b];
      TextOfAppend(front, [last]);
      TextOfOne(last);
      TextOfOne(b);
      if Mergeable(last, b) || ContinuesThinking(last, b) {
        var grown := if Mergeable(last, b) then MergeInto(last, b) else ExtendThinking(last, b);
        assert Grown(content, more) == front + [grown];
        TextOfAppend(front, [grown]);
        TextOfOne(grown);
        hide TextOf, ThinkingOf, Grown;
        StringAssoc(TextOf(front), TextOf([last]), TextOf(more));
        StringAssoc(ThinkingOf(front), ThinkingOf([last]), ThinkingOf(more));
        assert TextOf([grown]) == TextOf([last]) + TextOf(more);
        assert ThinkingOf([grown]) == ThinkingOf([last]) + ThinkingOf(more);
      }
    }
  }

  function AllContent(chunks: seq<Message>): seq<Block> {
    if chunks == [] then [] else chunks[0].content + AllContent(chunks[1..])
  }

  /** A chunk goes to `last`: it has its id, and if it only carries metadata, `last` may take that. */
  predicate Belongs(m: Message, last: Message) {
    m.id == last.id && (OnlyMetadata(m) ==> TakesMetadata(last, m))
  }

  /** What pushing such a chunk does. */
  lemma {:induction false} PushedOntoLast(before: seq<Message>, last: Message, m: Message)
    requires last.id.Some? && Belongs(m, last)
    ensures Pushed(before + [last], m) == before + [WithMetadata(last, m).(content := Grown(last.content, m.content))]
  {
    var all := before + [last];
    var last' := WithMetadata(last, m);
    if OnlyMetadata(m) {
      assert FindTaker(all, m) == Some(|before|);
      assert Grown(last.content, []) == last.content;
      assert last'.(content := last.content) == last';
    }
    forall x: Message ensures all[|before| := x] == before + [x] {}
  }

  /** However a message is cut into chunks of its id, its text and its thinking arrive whole and in order. */
  lemma {:induction false} StreamedTextIsConserved(before: seq<Message>, last: Message, chunks: seq<Message>)
    requires last.id.Some? && forall i :: 0 <= i < |chunks| ==> Belongs(chunks[i], last)
    ensures var all := PushedAll(before + [last], chunks);
            && |all| == |before| + 1 && all[..|before|] == before
            && TextOf(all[|before|].content) == TextOf(last.content) + TextOf(AllContent(chunks))
            && ThinkingOf(all[|before|].content) == ThinkingOf(last.content) + ThinkingOf(AllContent(chunks))
    decreases |chunks|
  {
    if chunks == [] {
      assert (before + [last])[..|before|] == before;
    } else {
      var m, rest := chunks[0], chunks[1..];
      var last' := WithMetadata(last, m).(content := Grown(last.content, m.content));
      PushedOntoLast(before, last, m);
      GrownConserves(last.content, m.content);
      hide Grown, TextOf, ThinkingOf;
      forall i | 0 <= i < |rest| ensures Belongs(rest[i], last') {
        assert rest[i] == chunks[i + 1] && Belongs(chunks[i + 1], last);
      }
      StreamedTextIsConserved(before, last', rest);
      TextOfAppend(m.content, AllContent(rest));
      StringAssoc(TextOf(last.content), TextOf(m.content), TextOf(AllContent(rest)));
      StringAssoc(ThinkingOf(last.content), ThinkingOf(m.content), ThinkingOf(AllContent(rest)));
    }
  }

  // ---------- a signed thinking block is closed to other signatures ----------

  predicate CarriesSignature(content: seq<Block>, signature: string) {
    exists j :: 0 <= j < |content| && content[j].Thinking? && content[j].signature == signature
  }

  /** A chunk leaves a signed block alone, or carries its signature and extends its thinking. */
  lemma {:induction false} SignedBlockGrows(content: seq<Block>, more: seq<Block>, k: nat)
    requires k < |content| && content[k].Thinking? && content[k].signature != ""
    ensures var grown := Grown(content, more);
            && k < |grown| && grown[k].Thinking? && grown[k].signature == content[k].signature
            && content[k].thinking <= grown[k].thinking
            && (!CarriesSignature(more, content[k].signature) ==> grown[k] == content[k])
  {
    if |more| == 1 && k == |content| - 1 && ContinuesThinking(content[k], more[0]) {
      assert more[0].signature == content[k].signature;
    }
  }

  /** Over a whole stream: a signed block keeps its signature, only ever grows at its end, and does not
      change at all while no chunk carries that signature. */
  lemma {:induction false} SignedBlocksStayClosed(before: seq<Message>, last: Message, chunks: seq<Message>, k: nat)
    requires last.id.Some? && forall i :: 0 <= i < |chunks| ==> Belongs(chunks[i], last)
    requires k < |last.content| && last.content[k].Thinking? && last.content[k].signature != ""
    ensures var all := PushedAll(before + [last], chunks);
            var signature := last.content[k].signature;
            && |all| == |before| + 1 && k < |all[|before|].content|
            && var b := all[|before|].content[k];
               && b.Thinking? && b.signature == signature && last.content[k].thinking <= b.thinking
               && ((forall i :: 0 <= i < |chunks| ==> !CarriesSignature(chunks[i].content, signature)) ==> b == last.content[k])
    decreases |chunks|
  {
    if chunks != [] {
      var m, rest := chunks[0], chunks[1..];
      var last' := WithMetadata(last, m).(content := Grown(last.content, m.content));
      PushedOntoLast(before, last, m);
      SignedBlockGrows(last.content, m.content, k);
      hide Grown, CarriesSignature;
      forall i | 0 <= i < |rest| ensures Belongs(rest[i], last') {
        assert rest[i] == chunks[i + 1] && Belongs(chunks[i + 1], last);
      }
      SignedBlocksStayClosed(before, last', rest, k);
      assert forall i :: 0 <= i < |rest| ==> rest[i] == chunks[i + 1];
    }
  }
}
