/** When one run of the repair is enough: the branches that leave work for a second run, and that there
    are no others. */
module RepairGuards {
  import opened Messages
  import opened ConversationPasses
  import opened ToolPairing
  import opened ToolFlow
  import opened TouchingTexts
  import opened TouchingMessages
  import opened ToolPlaces
  import ConversationRepair
  import ConversationShape
  import RepairStability

  // ---------- fix_tool_calling ----------

  lemma {:induction false} AcceptIsShorter(a: seq<Event>, b: seq<Event>, pending: set<string>)
    ensures |Accept(a + b, pending).0| == |Accept(a, pending).0| + |Accept(b, Accept(a, pending).1).0|
    ensures |Accept(a, pending).0| <= |a| && |Accept(b, Accept(a, pending).1).0| <= |b|
  {
    AcceptAppend(a, b, pending);
    AcceptShrinks(a, pending);
    AcceptShrinks(b, Accept(a, pending).1);
  }

  lemma {:induction false} RightBlockStays(role: Role, b: Block, pending: set<string>)
    requires RightBlock(role, b)
    ensures ScreenIssue(role, b, pending).None? <==> |Accept(BlockEvents(role, b), pending).0| == |BlockEvents(role, b)|
    ensures Accept(BlockEvents(role, b), pending).1 == PendingAfter(role, b, pending)
  {
    ScreenBlockEvents(role, b, pending);
  }

  lemma {:induction false} RightContentStays(role: Role, content: seq<Block>, pending: set<string>)
    requires AllBlocks(RightBlock, role, content)
    ensures ScreenBlocks(role, content, pending).issues == [] <==>
            |Accept(ContentEvents(role, content), pending).0| == |ContentEvents(role, content)|
    decreases |content|
  {
    hide ScreenIssue, PendingAfter, BlockEvents, Accept, RightBlock;
    if content == [] {
      AcceptShrinks([], pending);
    } else {
      RightBlockStays(role, content[0], pending);
      RightContentStays(role, content[1..], PendingAfter(role, content[0], pending));
      AcceptIsShorter(BlockEvents(role, content[0]), ContentEvents(role, content[1..]), pending);
    }
  }

  lemma {:induction false} RightMessagesStay(messages: seq<Message>, pending: set<string>)
    requires Everywhere(RightBlock, messages)
    ensures Screen(messages, pending).issues == [] <==> |Accept(Events(messages), pending).0| == |Events(messages)|
    decreases |messages|
  {
    hide ScreenBlocks, ContentEvents, Accept, AllBlocks;
    if messages == [] {
      AcceptShrinks([], pending);
    } else {
      var m := messages[0];
      RightContentStays(m.role, m.content, pending);
      ScreenContentEvents(m.role, m.content, pending);
      RightMessagesStay(messages[1..], ScreenBlocks(m.role, m.content, pending).pending);
      AcceptIsShorter(MessageEvents(m), Events(messages[1..]), pending);
    }
  }

  lemma {:induction false} DropsNone(messages: seq<Message>)
    ensures DropRequests(messages, {}).1 == []
    decreases |messages|
  {
    hide DropBlocks;
    if messages != [] {
      DropsNoBlock(messages[0].content);
      DropsNone(messages[1..]);
    }
  }

  lemma {:induction false} DropsNoBlock(content: seq<Block>)
    ensures DropBlocks(content, {}).1 == []
    decreases |content|
  {
    if content != [] {
      DropsNoBlock(content[1..]);
    }
  }

  /** Without an issue the second loop leaves no request that it should have dropped. */
  lemma {:induction false} DropsKnown(events: seq<Event>, ids: set<string>, id: string)
    requires id in ids && id in AskedIds(events)
    ensures |DropAsked(events, ids)| < |events|
    decreases |events|
  {
    if events[0] != Asked(id) {
      DropsKnown(events[1..], ids, id);
    } else {
      DropShrinks(events[1..], ids);
    }
  }

  lemma {:induction false} DropShrinks(events: seq<Event>, ids: set<string>)
    ensures |DropAsked(events, ids)| <= |events|
    decreases |events|
  {
    if events != [] {
      DropShrinks(events[1..], ids);
    }
  }

  /** `fix_tool_calling` has nothing to report when the events flow and no message is empty. */
  lemma {:induction false} ToolsCleanIff(messages: seq<Message>)
    requires Everywhere(RightBlock, messages)
    ensures FixTools(messages).1 == [] <==> Flows(Events(messages), {}) && RemoveEmpty(messages).1 == []
  {
    var screened := Screen(messages, {});
    var dropped := DropRequests(screened.messages, screened.pending);
    var events := Events(messages);
    RightMessagesStay(messages, {});
    ScreenEvents(messages, {});
    ConversationRepair.ScreenShrinks(messages, {});
    ConversationRepair.DropRequestsShrinks(screened.messages, screened.pending);
    FlowsIffAccepted(events, {});
    EndsFromKnown(events, {});
    DropEvents(screened.messages, screened.pending);
    DropsNone(screened.messages);
    hide Screen, DropRequests, RemoveEmpty, Events, Accept, Flows, DropAsked;
    if screened.issues == [] && dropped.1 == [] && screened.pending != {} {
      var id :| id in screened.pending;
      assert dropped.0 == messages && screened.messages == messages;
      DropsKnown(events, screened.pending, id);
    }
  }

  /** The requests in the assistant message that the cut takes from the front are made again before
      anything answers them. */
  ghost predicate CutRequestsAskedAgain(messages: seq<Message>) {
    messages != [] ==> forall id :: RequestIn(messages[0], id) ==> AskedFirst(Events(messages[1..]), id)
  }

  lemma {:induction false} NoRequestAtTheEnd(events: seq<Event>, front: seq<Event>, last: seq<Event>)
    requires LoopsLeave(events) == front + last && AllAsked(last)
    ensures last == []
  {
    if last != [] {
      var p, id := |front|, last[0].id;
      assert (front + last)[p..] == last && last[0] == Asked(id);
      assert IsAsked(front + last, p, id);
      assert !AnsweredSomewhere(last, id);
      LeftRequestIsAnswered(events, {}, p, id);
    }
  }

  /** Without their first requests the events flow exactly when they did before and each of the
      requests is made again first. */
  lemma {:induction false} FlowsWithoutFirst(events: seq<Event>, first: seq<Event>, middle: seq<Event>)
    requires LoopsLeave(events) == first + middle && AllAsked(first)
    ensures Flows(middle, {}) <==>
            Flows(LoopsLeave(events), {}) && forall id :: id in AskedIds(first) ==> AskedFirst(middle, id)
  {
    hide LoopsLeave, Flows;
    FlowsAfterAsking(first, middle, {});
    assert {} + AskedIds(first) == AskedIds(first);
    if Flows(middle, AskedIds(first)) {
      FlowsWithout(middle, AskedIds(first), {});
    }
    if Flows(middle, {}) {
      forall id | id in AskedIds(first) ensures AnsweredSomewhere(middle, id) {
        FirstIsAnswered(events, first, middle, id);
      }
      FlowsWithMore(middle, {}, AskedIds(first));
    }
  }

  lemma {:induction false} FirstIsAnswered(events: seq<Event>, first: seq<Event>, middle: seq<Event>, id: string)
    requires LoopsLeave(events) == first + middle && AllAsked(first) && id in AskedIds(first)
    ensures AnsweredSomewhere(middle, id)
  {
    var p := KnownIsAsked(first, id);
    var all := first + middle;
    assert IsAsked(all, p, id);
    LeftRequestIsAnswered(events, {}, p, id);
    var l: nat :| IsAnswered(all[p..], l, id);
    assert all[p..][l] == all[p + l];
    assert IsAnswered(middle, p + l - |first|, id);
  }

  lemma {:induction false} AskedIdsAreRequests(m: Message, id: string)
    ensures id in AskedIds(MessageEvents(m)) <==> RequestIn(m, id)
  {
    var events := MessageEvents(m);
    assert [m][1..] == [] && [m][0] == m;
    assert Events([m]) == events + [] == events;
    if id in AskedIds(events) {
      var p := KnownIsAsked(events, id);
      EventIsInItsMessage([m], p);
    }
    if RequestIn(m, id) {
      var p := MessageHasItsEvent([m], 0, Asked(id));
      AskedIsKnown(events, p, id);
    }
  }

  /** After the cut the events flow exactly when they did before it and the requests that went with
      the first message are made again. */
  lemma {:induction false} CutFlowsIff(messages: seq<Message>, events: seq<Event>)
    requires Events(messages) == LoopsLeave(events)
    ensures Flows(Events(LeadTrail(messages).0), {}) <==> Flows(LoopsLeave(events), {}) && CutRequestsAskedAgain(messages)
  {
    hide LoopsLeave, Flows, AskedFirst, RequestIn, Events;
    var led := FixLead(messages).0;
    var last := TrailEvents(led);
    var middle := Events(FixTrail(led).0);
    assert LeadTrail(messages).0 == FixTrail(led).0;
    var first := if led == messages then [] else MessageEvents(messages[0]);
    LeadIsAsked(messages);
    assert first + (middle + last) == first + middle + last;
    NoRequestAtTheEnd(events, first + middle, last);
    assert first + middle + [] == first + middle && middle + [] == middle;
    FlowsWithoutFirst(events, first, middle);
    if messages != [] {
      forall id ensures id in AskedIds(first) <==> RequestIn(messages[0], id) {
        AskedIdsAreRequests(messages[0], id);
        UserRequestsNothing(messages[0], id);
      }
      assert messages[0].role.Assistant? ==> led == messages[1..];
      assert messages[0].role.User? ==> AskedIds(first) == {};
    }
  }

  lemma {:induction false} UserRequestsNothing(m: Message, id: string)
    ensures RequestIn(m, id) ==> m.role.Assistant?
  {
  }

  lemma {:induction false} LeadIsAsked(messages: seq<Message>)
    ensures var led := FixLead(messages).0;
            var first := if led == messages then [] else MessageEvents(messages[0]);
            AllAsked(first) && Events(messages) == first + Events(led)
  {
    hide ContentEvents;
    if messages != [] && messages[0].role.Assistant? {
      AssistantOnlyAsks(messages[0].content);
      assert |messages[1..]| < |messages|;
    } else {
      assert [] + Events(messages) == Events(messages);
    }
  }

  /** The events that reach the cut are what the two loops leave of those of the input. */
  lemma {:induction false} EventsBeforeCut(messages: seq<Message>)
    ensures Events(BeforeLeadTrail(messages)) == LoopsLeave(Events(messages))
  {
    hide Tidy, RemoveEmpty, Screen, DropRequests, MergeConsecutive, Dedupe, Events, Accept, DropAsked;
    var m1 := Tidy(MergeText, messages).0;
    var m2 := Tidy(TrimText, m1).0;
    var m3 := RemoveEmpty(m2).0;
    var m4 := Tidy(FillResults, m3).0;
    var screened := Screen(m4, {});
    var m5 := FixTools(m4).0;
    TidyEvents(MergeText, messages);
    TidyEvents(TrimText, m1);
    RemoveEmptyEvents(m2);
    TidyEvents(FillResults, m3);
    ScreenEvents(m4, {});
    DropEvents(screened.messages, screened.pending);
    RemoveEmptyEvents(DropRequests(screened.messages, screened.pending).0);
    MergeConsecutiveEvents(m5, false);
    DedupeEvents(MergeConsecutive(m5, false).0, []);
    PassesInOrder(messages);
  }

  /** `fix_tool_calling` has nothing left to do exactly when no message is empty, no answered request is
      made again in vain, and the requests that the cut takes are made again. */
  lemma {:induction false} RepairedToolsCleanIff(messages: seq<Message>)
    ensures RepairStability.CleanFor(PFixTools, FixMessages(messages).0) <==>
            && RepairStability.CleanFor(PRemoveEmpty, FixMessages(messages).0)
            && (forall id :: !AskedAgainInVain(Events(messages), id))
            && CutRequestsAskedAgain(BeforeLeadTrail(messages))
  {
    hide FixMessages, FixTools, RemoveEmpty, LeadTrail, Flows, LoopsLeave, CutRequestsAskedAgain, AskedAgainInVain, Events, BeforeLeadTrail, Everywhere;
    RepairPutsRolesRight(messages);
    ToolsCleanIff(FixMessages(messages).0);
    PassesInOrder(messages);
    PlaceholderHasNoEvents(LeadTrail(BeforeLeadTrail(messages)).0);
    EventsBeforeCut(messages);
    CutFlowsIff(BeforeLeadTrail(messages), Events(messages));
    LoopsFlowIff(Events(messages));
  }

  /** When requests have distinct ids, both conditions come down to the one under which they stay paired. */
  lemma {:induction false} DistinctRequestsSettle(messages: seq<Message>)
    requires DistinctRequests(Events(messages))
    ensures forall id :: !AskedAgainInVain(Events(messages), id)
    ensures CutRequestsAskedAgain(BeforeLeadTrail(messages)) <==> StartsSafely(BeforeLeadTrail(messages))
  {
    hide BeforeLeadTrail, Accept;
    var before := BeforeLeadTrail(messages);
    forall id ensures !AskedAgainInVain(Events(messages), id) {
      if AskedAgainInVain(Events(messages), id) {
        var i: nat, j: nat :| AskedAndAnswered(Events(messages), i, j, id);
        var k: nat :| AskedInVain(Events(messages), k, id);
        DistinctMeans(Events(messages), i, k, id);
      }
    }
    EventsBeforeCut(messages);
    FewerAsked(Events(messages), {}, Accept(Events(messages), {}).1);
    SafelyIffNoRequest(before);
    hide StartsSafely, LoopsLeave, DistinctRequests;
    if before != [] {
      forall id | RequestIn(before[0], id) && AskedFirst(Events(before[1..]), id) ensures false {
        NotAskedAgain(before, id);
      }
    }
  }

  lemma {:induction false} SafelyIffNoRequest(messages: seq<Message>)
    ensures StartsSafely(messages) <==> messages == [] || forall id :: !RequestIn(messages[0], id)
  {
    if messages != [] && messages[0].role.Assistant? {
      var content := messages[0].content;
      forall j: nat | j < |content| && content[j].ToolRequest? ensures RequestIn(messages[0], content[j].id) {}
    }
  }

  lemma {:induction false} NotAskedAgain(messages: seq<Message>, id: string)
    requires messages != [] && DistinctRequests(Events(messages)) && RequestIn(messages[0], id)
    ensures !AskedFirst(Events(messages[1..]), id)
  {
    var p := MessageHasItsEvent(messages, 0, Asked(id));
    if AskedFirst(Events(messages[1..]), id) {
      var n := |MessageEvents(messages[0])|;
      var k: nat :| IsAsked(Events(messages[1..]), k, id);
      assert IsAsked(Events(messages), p, id) && IsAsked(Events(messages), n + k, id);
      DistinctMeans(Events(messages), p, n + k, id);
    }
  }

  // ---------- touching texts and empty messages ----------

  /** Message `i` of the list that reaches dedupe is one whose texts repair brings together: at the
      seam of two messages, or around blocks that `fix_tool_calling` or dedupe removes. */
  ghost predicate BringsTextsTogether(messages: seq<Message>, i: nat) {
    var merged := BeforeDedupe(messages);
    && i < |merged| && merged[i].role.Assistant?
    && (MarksBeforeDedupe(messages)[i] || Bridges(merged[i].content, Repeated(merged, i)))
  }

  /** Dedupe leaves nothing but empty text of message `i`. */
  ghost predicate IsEmptied(merged: seq<Message>, i: nat) {
    && i < |merged| && merged[i].role.Assistant?
    && forall j :: 0 <= j < |merged[i].content| ==>
         Repeated(merged, i)[j] || (merged[i].content[j].Text? && merged[i].content[j].text == "")
  }

  lemma {:induction false} BeforeCutIsDeduped(messages: seq<Message>)
    ensures BeforeLeadTrail(messages) == Dedupe(BeforeDedupe(messages), []).0
    ensures |BeforeLeadTrail(messages)| == |BeforeDedupe(messages)|
  {
    PassesInOrder(messages);
    hide BeforeLeadTrail;
    var merged := BeforeDedupe(messages);
    if merged != [] {
      DedupedAt(merged, 0);
    } else {
      assert Dedupe([], []).0 == [];
    }
  }

  /** In the list that reaches the cut, texts touch in exactly these messages, and these are empty. */
  lemma {:induction false} BeforeCutAt(messages: seq<Message>, i: nat)
    requires i < |BeforeDedupe(messages)|
    ensures i < |BeforeLeadTrail(messages)|
    ensures var m := BeforeLeadTrail(messages)[i];
            && (m.role.Assistant? && HasTouching(m.content) <==> BringsTextsTogether(messages, i))
            && (IsEmptyContent(m.content) <==> IsEmptied(BeforeDedupe(messages), i))
  {
    var merged := BeforeDedupe(messages);
    BeforeCutIsDeduped(messages);
    DedupedAt(merged, i);
    BeforeDedupeMarked(messages);
    BeforeDedupeHasNoEmpty(messages, i);
    hide BeforeDedupe, BeforeLeadTrail, Dedupe, MarksBeforeDedupe, HasTouching, Bridges, Kept, IsEmptyContent;
    if merged[i].role.Assistant? {
      var gone := Repeated(merged, i);
      KeptTouchIff(merged[i].content, gone);
      KeptIsEmptyIff(merged[i].content, gone);
    }
  }

  predicate NoneEmpty(messages: seq<Message>) {
    forall i :: 0 <= i < |messages| ==> !IsEmptyContent(messages[i].content)
  }

  lemma {:induction false} RemoveEmptyLeavesNone(messages: seq<Message>)
    ensures NoneEmpty(RemoveEmpty(messages).0)
    decreases |messages|
  {
    hide IsEmptyContent;
    if messages != [] {
      RemoveEmptyLeavesNone(messages[1..]);
    }
  }

  lemma {:induction false} EmptyAppend(a: seq<Block>, b: seq<Block>)
    ensures IsEmptyContent(a + b) <==> IsEmptyContent(a) && IsEmptyContent(b)
    decreases |a|
  {
    if a == [] {
      assert a + b == b;
    } else {
      assert (a + b)[1..] == a[1..] + b;
      EmptyAppend(a[1..], b);
    }
  }

  lemma {:induction false} MergeLeavesNoneEmpty(last: Message, rest: seq<Message>)
    requires !IsEmptyContent(last.content) && NoneEmpty(rest)
    ensures NoneEmpty(MergeFrom(last, rest, false).0)
    decreases |rest|
  {
    hide IsEmptyContent, Joins;
    if rest != [] {
      EmptyAppend(last.content, rest[0].content);
      MergeLeavesNoneEmpty(if Joins(last, rest[0], false) then Join(last, rest[0]) else rest[0], rest[1..]);
    }
  }

  lemma {:induction false} BeforeDedupeHasNoEmpty(messages: seq<Message>, i: nat)
    requires i < |BeforeDedupe(messages)|
    ensures !IsEmptyContent(BeforeDedupe(messages)[i].content)
  {
    hide Screen, DropRequests, RemoveEmpty, IsEmptyContent, BeforeTools, MergeFrom;
    var reach := BeforeTools(messages);
    var screened := Screen(reach, {});
    RemoveEmptyLeavesNone(DropRequests(screened.messages, screened.pending).0);
    var left := FixTools(reach).0;
    if left != [] {
      MergeLeavesNoneEmpty(left[0], left[1..]);
    }
  }

  // ---------- what the first passes of a second run find ----------

  lemma {:induction false} MergeTextCleanIff(messages: seq<Message>)
    ensures Tidy(MergeText, messages).1 == [] <==>
            forall i :: 0 <= i < |messages| ==> !(messages[i].role.Assistant? && HasTouching(messages[i].content))
    decreases |messages|
  {
    hide MergeBlocks, TidyBlocks, HasTouching;
    if messages != [] {
      MergesIffTouching([], messages[0].content);
      MergeTextCleanIff(messages[1..]);
      forall i | 0 <= i < |messages| ensures i > 0 ==> messages[i] == messages[1..][i - 1] {}
    }
  }

  lemma {:induction false} RemoveEmptyCleanIff(messages: seq<Message>)
    ensures RemoveEmpty(messages).1 == [] <==> NoneEmpty(messages)
    decreases |messages|
  {
    hide IsEmptyContent;
    if messages != [] {
      RemoveEmptyCleanIff(messages[1..]);
      forall i | 0 <= i < |messages| ensures i > 0 ==> messages[i] == messages[1..][i - 1] {}
    }
  }

  /** What a predicate says of every message of the result it says of every survivor of the cut. */
  lemma {:induction false} SurvivorsAreTheResult(p: Message -> bool, messages: seq<Message>)
    requires p(PLACEHOLDER)
    ensures var before, fixed := BeforeLeadTrail(messages), FixMessages(messages).0;
            (forall k :: 0 <= k < |fixed| ==> p(fixed[k])) <==>
            forall i: nat :: ConversationShape.Survives(before, i) ==> p(before[i])
  {
    hide FixMessages, BeforeLeadTrail, LeadTrail;
    var before, fixed := BeforeLeadTrail(messages), FixMessages(messages).0;
    PassesInOrder(messages);
    ConversationShape.SurvivorsAreLeft(before);
    var from, left := ConversationShape.CutFrom(before), LeadTrail(before).0;
    forall i: nat | ConversationShape.Survives(before, i) ensures left != [] && before[i] == left[i - from] {}
    forall k | 0 <= k < |left| ensures ConversationShape.Survives(before, from + k) && before[from + k] == left[k] {}
    hide ConversationShape.Survives, ConversationShape.CutFrom, ConversationShape.CutTo;
    if left != [] {
      assert fixed == left;
    }
  }

  lemma {:induction false} CutCleanIff(messages: seq<Message>)
    requires messages != []
    ensures LeadTrail(messages).1 == [] <==> ConversationShape.UserAtBothEnds(messages)
  {
  }

  /** No texts are left to merge, and no message is empty, exactly when no survivor of the cut is one
      whose texts a pass brought together, nor one that dedupe emptied. */
  lemma {:induction false} SurvivorsCleanIff(messages: seq<Message>)
    ensures var fixed := FixMessages(messages).0;
            Tidy(MergeText, fixed).1 == [] && RemoveEmpty(fixed).1 == [] <==>
            forall i: nat :: ConversationShape.Survives(BeforeLeadTrail(messages), i) ==>
              !BringsTextsTogether(messages, i) && !IsEmptied(BeforeDedupe(messages), i)
  {
    hide FixMessages, BeforeLeadTrail, BeforeDedupe, Tidy, RemoveEmpty, BringsTextsTogether, IsEmptied, HasTouching, IsEmptyContent;
    var before, fixed := BeforeLeadTrail(messages), FixMessages(messages).0;
    var good := (m: Message) => !(m.role.Assistant? && HasTouching(m.content)) && !IsEmptyContent(m.content);
    MergeTextCleanIff(fixed);
    RemoveEmptyCleanIff(fixed);
    PlaceholderIsGood();
    SurvivorsAreTheResult(good, messages);
    BeforeCutIsDeduped(messages);
    forall i: nat | ConversationShape.Survives(before, i)
      ensures good(before[i]) <==> !BringsTextsTogether(messages, i) && !IsEmptied(BeforeDedupe(messages), i)
    {
      BeforeCutAt(messages, i);
    }
  }

  lemma {:induction false} PlaceholderIsGood()
    ensures PLACEHOLDER.role.User? && !IsEmptyContent(PLACEHOLDER.content)
  {
  }

  /** One run of the repair is enough exactly when none of its branches leaves work: no surviving
      message has texts that a pass brought together, none was emptied by dedupe, single assistant
      messages stand at the ends, no answered request is made again in vain, and the requests that go
      with the first message are made again. */
  lemma {:induction false} OneRunIsEnoughIff(messages: seq<Message>)
    ensures FixMessages(FixMessages(messages).0).1 == [] <==>
            && (forall i: nat :: ConversationShape.Survives(BeforeLeadTrail(messages), i) ==>
                  !BringsTextsTogether(messages, i) && !IsEmptied(BeforeDedupe(messages), i))
            && ConversationShape.SingleEnds(BeforeLeadTrail(messages))
            && (forall id :: !AskedAgainInVain(Events(messages), id))
            && CutRequestsAskedAgain(BeforeLeadTrail(messages))
  {
    var fixed := FixMessages(messages).0;
    RepairStability.FourPassesDecide(messages);
    SurvivorsCleanIff(messages);
    RepairedToolsCleanIff(messages);
    ConversationShape.EndsAreUserIffSingle(messages);
    PassesInOrder(messages);
    hide FixMessages, BeforeLeadTrail, Tidy, RemoveEmpty, FixTools, LeadTrail;
    CutCleanIff(fixed);
  }
}
