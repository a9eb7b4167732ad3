/** What streaming keeps besides text: every block, the metadata, and where a chunk goes. */
module StreamLaws {
  import opened Text
  import opened Messages
  import opened ConversationPasses
  import opened Streaming
  import Grains

  // ---------- no streamed block is lost ----------

  /** A character of text, a character of thinking, or any other block. */
  datatype Bit = TextBit(c: char, audience: Option<seq<Role>>) | ThinkingBit(c: char) | BlockBit(block: Block)

  function TextBits(text: string, audience: Option<seq<Role>>): seq<Bit> {
    seq(|text|, i requires 0 <= i < |text| => TextBit(text[i], audience))
  }

  function ThinkingBits(text: string): seq<Bit> {
    seq(|text|, i requires 0 <= i < |text| => ThinkingBit(text[i]))
  }

  function BitsOf(b: Block): seq<Bit> {
    if b.Text? then TextBits(b.text, b.audience) else if b.Thinking? then ThinkingBits(b.thinking) else [BlockBit(b)]
  }

  function Bits(content: seq<Block>): seq<Bit> {
    if content == [] then [] else BitsOf(content[0]) + Bits(content[1..])
  }

  lemma {:induction false} BitAssoc(a: seq<Bit>, b: seq<Bit>, c: seq<Bit>)
    ensures a + b + c == a + (b + c)
  {
  }

  lemma {:induction false} BitsAppend(a: seq<Block>, b: seq<Block>)
    ensures Bits(a + b) == Bits(a) + Bits(b)
    decreases |a|
  {
    hide BitsOf;
    if a == [] {
      assert a + b == b;
    } else {
      assert (a + b)[1..] == a[1..] + b;
      BitsAppend(a[1..], b);
      BitAssoc(BitsOf(a[0]), Bits(a[1..]), Bits(b));
    }
  }

  lemma {:induction false} OneBlockBits(b: Block)
    ensures Bits([b]) == BitsOf(b)
  {
    assert [b][1..] == [] && BitsOf(b) + [] == BitsOf(b);
  }

  lemma {:induction false} ExtendedBits(last: Block, b: Block)
    ensures Mergeable(last, b) ==> BitsOf(MergeInto(last, b)) == BitsOf(last) + BitsOf(b)
    ensures ContinuesThinking(last, b) ==> BitsOf(ExtendThinking(last, b)) == BitsOf(last) + BitsOf(b)
  {
  }

  lemma {:induction false} ReplacedBits(front: seq<Block>, last: Block, b: Block, grown: Block)
    requires BitsOf(grown) == BitsOf(last) + BitsOf(b)
    ensures Bits(front + [grown]) == Bits(front + [last]) + Bits([b])
  {
    BitsAppend(front, [last]);
    BitsAppend(front, [grown]);
    OneBlockBits(last);
    OneBlockBits(b);
    OneBlockBits(grown);
    hide Bits, BitsOf;
    BitAssoc(Bits(front), BitsOf(last), BitsOf(b));
  }

  lemma {:induction false} GrownKeepsBits(content: seq<Block>, more: seq<Block>)
    ensures Bits(Grown(content, more)) == Bits(content) + Bits(more)
  {
    BitsAppend(content, more);
    hide Bits, BitsOf;
    if content != [] && |more| == 1 {
      var front, last, b := content[..|content| - 1], content[|content| - 1], more[0];
      assert content == front + [last] && more == [b];
      ExtendedBits(last, b);
      if Mergeable(last, b) {
        ReplacedBits(front, last, b, MergeInto(last, b));
        assert Grown(content, more) == front + [MergeInto(last, b)];
      } else if ContinuesThinking(last, b) {
        ReplacedBits(front, last, b, ExtendThinking(last, b));
        assert Grown(content, more) == front + [ExtendThinking(last, b)];
      }
    }
  }

  /** However a message is cut into chunks of its id: every character of its text, with its audience, and
      of its thinking, and every other block arrives, in order, and no other message changes. */
  lemma {:induction false} StreamedContentIsConserved(before: seq<Message>, last: Message, chunks: seq<Message>)
    requires last.id.Some? && forall i :: 0 <= i < |chunks| ==> Belongs(chunks[i], last)
    ensures var all := PushedAll(before + [last], chunks);
            && |all| == |before| + 1 && all[..|before|] == before
            && Bits(all[|before|].content) == Bits(last.content) + Bits(AllContent(chunks))
    decreases |chunks|
  {
    hide Bits;
    if chunks == [] {
      assert (before + [last])[..|before|] == before;
      NoBits();
      assert Bits(last.content) + [] == Bits(last.content);
    } else {
      var m, rest := chunks[0], chunks[1..];
      var last' := WithMetadata(last, m).(content := Grown(last.content, m.content));
      PushedOntoLast(before, last, m);
      GrownKeepsBits(last.content, m.content);
      hide Grown;
      forall i | 0 <= i < |rest| ensures Belongs(rest[i], last') {
        assert rest[i] == chunks[i + 1] && Belongs(chunks[i + 1], last);
      }
      StreamedContentIsConserved(before, last', rest);
      BitsAppend(m.content, AllContent(rest));
      BitAssoc(Bits(last.content), Bits(m.content), Bits(AllContent(rest)));
    }
  }

  lemma {:induction false} NoBits()
    ensures Bits([]) == []
  {
  }

  // ---------- metadata ----------

  /** Over a whole stream the output limit is marked exactly when the message or a chunk has it, the
      usage is the last that came, and nothing else about the message changes but its content. */
  lemma {:induction false} StreamedMetadataArrives(before: seq<Message>, last: Message, chunks: seq<Message>)
    requires last.id.Some? && forall i :: 0 <= i < |chunks| ==> Belongs(chunks[i], last)
    ensures |PushedAll(before + [last], chunks)| == |before| + 1
    ensures var end := PushedAll(before + [last], chunks)[|before|];
            && end == last.(content := end.content, inference := end.inference, outputTokenLimitReached := end.outputTokenLimitReached)
            && (end.outputTokenLimitReached <==> last.outputTokenLimitReached || exists i :: 0 <= i < |chunks| && chunks[i].outputTokenLimitReached)
            && ((forall i :: 0 <= i < |chunks| ==> chunks[i].inference.None?) ==> end.inference == last.inference)
            && forall i :: 0 <= i < |chunks| && chunks[i].inference.Some? && (forall j :: i < j < |chunks| ==> chunks[j].inference.None?)
                 ==> end.inference == chunks[i].inference
    decreases |chunks|
  {
    if chunks != [] {
      var m, rest := chunks[0], chunks[1..];
      var last' := WithMetadata(last, m).(content := Grown(last.content, m.content));
      PushedOntoLast(before, last, m);
      hide Grown;
      forall i | 0 <= i < |rest| ensures Belongs(rest[i], last') {
        assert rest[i] == chunks[i + 1] && Belongs(chunks[i + 1], last);
      }
      StreamedMetadataArrives(before, last', rest);
      assert forall i :: 0 <= i < |rest| ==> rest[i] == chunks[i + 1];
      assert forall i :: 0 < i < |chunks| ==> chunks[i] == rest[i - 1];
    }
  }

  /** A message that may take the metadata of one without content. */
  predicate Suits(existing: Message, m: Message) {
    && existing.role == m.role && existing.userVisible
    && (m.outputTokenLimitReached ==> m.id.Some? && existing.id == m.id)
  }

  lemma {:induction false} TakerIsLast(messages: seq<Message>, m: Message)
    ensures match FindTaker(messages, m)
            case None => forall i :: 0 <= i < |messages| ==> !Suits(messages[i], m)
            case Some(j) => Suits(messages[j], m) && forall i :: j < i < |messages| ==> !Suits(messages[i], m)
    decreases |messages|
  {
    if messages != [] && !TakesMetadata(messages[|messages| - 1], m) {
      TakerIsLast(messages[..|messages| - 1], m);
      forall i | 0 <= i < |messages| - 1 ensures messages[..|messages| - 1][i] == messages[i] {}
    }
  }

  /** Metadata without content goes to the last message that suits it, which it changes in nothing
      else; if none does, a reached limit is kept in a message of its own that the agent does not see. */
  lemma {:induction false} MetadataFindsItsMessage(messages: seq<Message>, m: Message)
    requires m.content == [] && (m.inference.Some? || m.outputTokenLimitReached)
    ensures forall j :: 0 <= j < |messages| && Suits(messages[j], m) && (forall i :: j < i < |messages| ==> !Suits(messages[i], m)) ==>
              Pushed(messages, m) == messages[j := messages[j].(
                inference := if m.inference.Some? then m.inference else messages[j].inference,
                outputTokenLimitReached := messages[j].outputTokenLimitReached || m.outputTokenLimitReached)]
    ensures (forall i :: 0 <= i < |messages| ==> !Suits(messages[i], m)) ==>
              Pushed(messages, m) == messages + if m.outputTokenLimitReached then [m.(userVisible := true, agentVisible := false)] else []
  {
    TakerIsLast(messages, m);
    hide FindTaker;
    assert messages + [] == messages;
  }

  /** A message with content grows the last one exactly when they share an id, and else is added as it
      is; either way the messages before stay. */
  lemma {:induction false} ContentGoesToTheEnd(messages: seq<Message>, m: Message)
    requires m.content != [] || (m.inference.None? && !m.outputTokenLimitReached)
    ensures var all, n := Pushed(messages, m), |messages|;
            if n > 0 && m.id.Some? && messages[n - 1].id == m.id then |all| == n && all[..n - 1] == messages[..n - 1]
            else all == messages + [m]
  {
  }

  // ---------- collecting a stream ----------

  /** A failing item ends the collection with its error, if none failed before it. */
  lemma {:induction false} FirstFailureIsReturned(items: seq<StreamItem>, message: Option<Message>, usage: Option<nat>, k: nat)
    requires k < |items| && items[k].Failure? && forall i :: 0 <= i < k ==> items[i].Item?
    ensures CollectFrom(items, message, usage) == Error(Some(items[k].error))
    decreases |items|
  {
    if k > 0 {
      assert items[0].Item?;
      var Item(m, u) := items[0];
      FirstFailureIsReturned(items[1..], if m.Some? then Coalesced(message, m.value) else message, if u.Some? then u else usage, k - 1);
    }
  }

  predicate NoFailure(items: seq<StreamItem>) {
    forall i :: 0 <= i < |items| ==> items[i].Item?
  }

  /** The messages of a stream, and the last usage. */
  function MessagesOf(items: seq<StreamItem>): seq<Message> {
    if items == [] then []
    else (if items[0].Item? && items[0].message.Some? then [items[0].message.value] else []) + MessagesOf(items[1..])
  }

  function LastUsage(items: seq<StreamItem>): Option<nat> {
    if items == [] then None
    else
      var last := items[|items| - 1];
      if last.Item? && last.usage.Some? then last.usage else LastUsage(items[..|items| - 1])
  }

  lemma {:induction false} LastUsageCons(items: seq<StreamItem>)
    requires items != []
    ensures LastUsage(items) == if LastUsage(items[1..]).Some? then LastUsage(items[1..])
                                else if items[0].Item? then items[0].usage else None
    decreases |items|
  {
    if |items| > 1 {
      LastUsageCons(items[..|items| - 1]);
      assert items[..|items| - 1][1..] == items[1..][..|items| - 2];
    } else {
      assert items[..0] == [];
    }
  }

  /** Two lists start with the same header and say the same. */
  ghost predicate SayTheSame(a: seq<Message>, b: seq<Message>) {
    && (a == [] <==> b == [])
    && (a != [] && b != [] ==> a[0].(content := []) == b[0].(content := []))
    && forall v :: Grains.ContentGrains(v, AllContent(a)) == Grains.ContentGrains(v, AllContent(b))
  }

  /** The result of collecting these messages, with this as the last usage: an error exactly when there
      is neither; the first message, with the content of all in order; the usage. */
  ghost predicate IsCollected(result: Collected, all: seq<Message>, last: Option<nat>) {
    match result
    case Error(e) => e.None? && all == [] && last.None?
    case Complete(m, u) =>
      && u == last && (all == [] ==> u.Some?)
      && SayTheSame(if m.Some? then [m.value] else [], all)
  }

  lemma {:induction false} CollectedAlike(result: Collected, a: seq<Message>, b: seq<Message>, last: Option<nat>)
    requires IsCollected(result, a, last) && SayTheSame(a, b)
    ensures IsCollected(result, b, last)
  {
  }

  /** What is collected, seen from what was collected before. */
  lemma {:induction false} CollectsFrom(items: seq<StreamItem>, message: Option<Message>, usage: Option<nat>)
    requires NoFailure(items)
    ensures IsCollected(CollectFrom(items, message, usage), (if message.Some? then [message.value] else []) + MessagesOf(items),
                        if LastUsage(items).Some? then LastUsage(items) else usage)
    decreases |items|
  {
    var given := if message.Some? then [message.value] else [];
    if items == [] {
      assert given + [] == given;
      hide SayTheSame;
      SaysItself(given);
    } else {
      assert items[0].Item?;
      LastUsageCons(items);
      var Item(m, u) := items[0];
      var message', usage' := if m.Some? then Coalesced(message, m.value) else message, if u.Some? then u else usage;
      forall i | 0 <= i < |items[1..]| ensures items[1..][i].Item? {
        assert items[i + 1].Item?;
      }
      hide LastUsage, IsCollected, SayTheSame, Coalesced;
      CollectsFrom(items[1..], message', usage');
      var rest := MessagesOf(items[1..]);
      if m.Some? {
        CoalescedKeeps(message, m.value, rest);
        assert given + ([m.value] + rest) == given + [m.value] + rest;
        CollectedAlike(CollectFrom(items[1..], message', usage'), [message'.value] + rest, given + [m.value] + rest,
                       if LastUsage(items).Some? then LastUsage(items) else usage);
      } else {
        assert [] + rest == rest;
      }
    }
  }

  lemma {:induction false} SaysItself(a: seq<Message>)
    ensures SayTheSame(a, a)
  {
  }

  /** Putting a message to those before changes neither the first header nor what they say. */
  lemma {:induction false} CoalescedKeeps(message: Option<Message>, m: Message, rest: seq<Message>)
    ensures Coalesced(message, m).Some?
    ensures SayTheSame([Coalesced(message, m).value] + rest, (if message.Some? then [message.value] else []) + [m] + rest)
  {
    var one := Coalesced(message, m).value;
    assert ([one] + rest)[1..] == rest && ([m] + rest)[1..] == rest;
    if message.Some? {
      var first := message.value;
      var all := [first] + [m] + rest;
      assert all == [first] + ([m] + rest) && all[1..] == [m] + rest;
      hide MergeBlocks;
      forall v ensures Grains.ContentGrains(v, AllContent([one] + rest)) == Grains.ContentGrains(v, AllContent(all)) {
        Grains.MergeBlocksGrains(v, first.content, m.content);
        Grains.ContentGrainsAppend(v, one.content, AllContent(rest));
        Grains.ContentGrainsAppend(v, first.content, m.content + AllContent(rest));
        Grains.ContentGrainsAppend(v, m.content, AllContent(rest));
        hide Grains.ContentGrains;
        Grains.GrainAssoc(Grains.ContentGrains(v, first.content), Grains.ContentGrains(v, m.content), Grains.ContentGrains(v, AllContent(rest)));
      }
    } else {
      assert [] + [m] + rest == [m] + rest;
    }
  }

  /** A stream without failures: it is an error exactly when it brings neither a message nor usage; the
      message is the first one with the content of all, in order, and the usage is the last. */
  lemma {:induction false} CollectsEverything(items: seq<StreamItem>)
    requires NoFailure(items)
    ensures IsCollected(CollectFrom(items, None, None), MessagesOf(items), LastUsage(items))
  {
    CollectsFrom(items, None, None);
    assert [] + MessagesOf(items) == MessagesOf(items);
  }
}
