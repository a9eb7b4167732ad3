/** `fix_conversation`: repair of what the agent sees, with everything else left in its place
    (goose-provider-types, conversation.rs). */
module ShadowMap {
  import opened Messages
  import opened ConversationPasses
  import opened ConversationRepair

  datatype MessageSlot = Visible(index: nat) | NonVisible(message: Message)

  /** The messages the agent sees. */
  function AgentVisible(messages: seq<Message>): seq<Message> {
    if messages == [] then []
    else (if messages[0].agentVisible then [messages[0]] else []) + AgentVisible(messages[1..])
  }

  function Hidden(messages: seq<Message>): seq<Message> {
    if messages == [] then []
    else (if messages[0].agentVisible then [] else [messages[0]]) + Hidden(messages[1..])
  }

  /** One slot for each message; visible ones count from `index`. */
  function SlotsOf(messages: seq<Message>, index: nat): seq<MessageSlot> {
    if messages == [] then []
    else if messages[0].agentVisible then [Visible(index)] + SlotsOf(messages[1..], index + 1)
    else [NonVisible(messages[0])] + SlotsOf(messages[1..], index)
  }

  /** Slots filled from the fixed messages; a visible slot without one disappears. */
  function Filled(slots: seq<MessageSlot>, fixed: seq<Message>): seq<Message> {
    if slots == [] then []
    else
      (match slots[0]
       case Visible(index) => if index < |fixed| then [fixed[index]] else []
       case NonVisible(message) => [message]) + Filled(slots[1..], fixed)
  }

  function FixConversation(messages: seq<Message>): (seq<Message>, seq<Issue>) {
    var (fixed, issues) := FixMessages(AgentVisible(messages));
    (Filled(SlotsOf(messages, 0), fixed), issues)
  }

  // ---------- no pass grows the list, and what was visible stays visible ----------

  predicate AllVisible(messages: seq<Message>) {
    forall i :: 0 <= i < |messages| ==> messages[i].agentVisible
  }

  /** `after` is no longer than `before`, and as visible. */
  predicate Kept(before: seq<Message>, after: seq<Message>) {
    |after| <= |before| && (AllVisible(before) ==> AllVisible(after))
  }

  lemma {:induction false} TidyKeeps(pass: MessagePass, messages: seq<Message>)
    ensures Kept(messages, Tidy(pass, messages).0)
    decreases |messages|
  {
    hide TidyBlocks, MergeBlocks;
    if messages != [] {
      TidyKeeps(pass, messages[1..]);
    }
  }

  lemma {:induction false} RemoveEmptyKeeps(messages: seq<Message>)
    ensures Kept(messages, RemoveEmpty(messages).0)
    decreases |messages|
  {
    if messages != [] {
      RemoveEmptyKeeps(messages[1..]);
    }
  }

  lemma {:induction false} ScreenKeeps(messages: seq<Message>, pending: set<string>)
    ensures Kept(messages, Screen(messages, pending).messages)
    decreases |messages|
  {
    hide ScreenBlocks;
    if messages != [] {
      ScreenKeeps(messages[1..], ScreenBlocks(messages[0].role, messages[0].content, pending).pending);
    }
  }

  lemma {:induction false} DropKeeps(messages: seq<Message>, pending: set<string>)
    ensures Kept(messages, DropRequests(messages, pending).0)
    decreases |messages|
  {
    hide DropBlocks;
    if messages != [] {
      DropKeeps(messages[1..], pending);
    }
  }

  lemma {:induction false} MergeFromKeeps(last: Message, rest: seq<Message>, across: bool)
    ensures var merged := MergeFrom(last, rest, across).0;
            |merged| <= 1 + |rest| && (last.agentVisible && AllVisible(rest) ==> AllVisible(merged))
    decreases |rest|
  {
    hide Joins;
    if rest != [] {
      if Joins(last, rest[0], across) {
        MergeFromKeeps(Join(last, rest[0]), rest[1..], across);
      } else {
        MergeFromKeeps(rest[0], rest[1..], across);
      }
    }
  }

  lemma {:induction false} DedupeKeeps(messages: seq<Message>, seen: seq<Block>)
    ensures Kept(messages, Dedupe(messages, seen).0)
    decreases |messages|
  {
    hide DedupeBlocks, SeenAfter;
    if messages != [] {
      DedupeKeeps(messages[1..], seen);
      DedupeKeeps(messages[1..], SeenAfter(messages[0].content, seen));
    }
  }

  lemma {:induction false} PassKeeps(pass: Pass, messages: seq<Message>)
    requires !pass.PPopulate?
    ensures Kept(messages, RunPass(pass, messages).0)
  {
    hide Tidy, RemoveEmpty, Screen, DropRequests, MergeFrom, Dedupe;
    match pass {
      case PTidy(tidy) => TidyKeeps(tidy, messages);
      case PRemoveEmpty => RemoveEmptyKeeps(messages);
      case PFixTools =>
        var screened := Screen(messages, {});
        ScreenKeeps(messages, {});
        DropKeeps(screened.messages, screened.pending);
        RemoveEmptyKeeps(DropRequests(screened.messages, screened.pending).0);
      case PMerge => if messages != [] { MergeFromKeeps(messages[0], messages[1..], false); }
      case PDedupe => DedupeKeeps(messages, []);
      case PLeadTrail =>
    }
  }

  lemma {:induction false} PassesKeep(n: nat, messages: seq<Message>)
    requires n <= 8
    ensures Kept(messages, RunPasses(n, messages).0)
    decreases n
  {
    hide RunPass;
    if n > 0 {
      PassesKeep(n - 1, messages);
      PassKeeps(PassAt(n - 1), RunPasses(n - 1, messages).0);
    }
  }

  /** Repair returns at least one message and at most one for each it was given, or the placeholder. */
  lemma {:induction false} RepairDoesNotGrow(messages: seq<Message>)
    ensures var fixed := FixMessages(messages).0;
            1 <= |fixed| && (|fixed| <= |messages| || fixed == [PLACEHOLDER]) && (AllVisible(messages) ==> AllVisible(fixed))
  {
    hide RunPass, RunPasses, FixMessages;
    RepairThenPopulate(messages);
    PassesKeep(8, messages);
  }

  // ---------- the shadow map refines repair of the visible messages ----------

  lemma {:induction false} VisibleIsVisible(messages: seq<Message>)
    ensures AllVisible(AgentVisible(messages))
    decreases |messages|
  {
    if messages != [] {
      VisibleIsVisible(messages[1..]);
    }
  }

  /** Filling from `index` on puts exactly the fixed messages from there on into the visible slots. */
  lemma {:induction false} FilledVisible(messages: seq<Message>, index: nat, fixed: seq<Message>)
    requires index <= |fixed| <= index + |AgentVisible(messages)| && AllVisible(fixed)
    ensures AgentVisible(Filled(SlotsOf(messages, index), fixed)) == fixed[index..]
    decreases |messages|
  {
    if messages != [] {
      var m, rest := messages[0], messages[1..];
      var index' := if m.agentVisible then index + 1 else index;
      var slot := if m.agentVisible then Visible(index) else NonVisible(m);
      assert ([slot] + SlotsOf(rest, index'))[1..] == SlotsOf(rest, index');
      if m.agentVisible && index == |fixed| {
        FilledNothing(rest, index + 1, fixed);
        assert [] + Filled(SlotsOf(rest, index'), fixed) == Filled(SlotsOf(rest, index'), fixed);
        assert fixed[index..] == [];
      } else {
        FilledVisible(rest, index', fixed);
        var first := if m.agentVisible then fixed[index] else m;
        var tail := Filled(SlotsOf(rest, index'), fixed);
        assert ([first] + tail)[1..] == tail;
        assert m.agentVisible ==> fixed[index..] == [fixed[index]] + fixed[index + 1..];
      }
    }
  }

  /** Slots beyond the fixed messages disappear. */
  lemma {:induction false} FilledNothing(messages: seq<Message>, index: nat, fixed: seq<Message>)
    requires index >= |fixed|
    ensures AgentVisible(Filled(SlotsOf(messages, index), fixed)) == []
    decreases |messages|
  {
    if messages != [] {
      var m, rest := messages[0], messages[1..];
      var index' := if m.agentVisible then index + 1 else index;
      var slot := if m.agentVisible then Visible(index) else NonVisible(m);
      FilledNothing(rest, index', fixed);
      var tail := Filled(SlotsOf(rest, index'), fixed);
      assert ([slot] + SlotsOf(rest, index'))[1..] == SlotsOf(rest, index');
      assert [] + tail == tail && ([m] + tail)[1..] == tail;
    }
  }

  lemma {:induction false} FilledHidden(messages: seq<Message>, index: nat, fixed: seq<Message>)
    requires AllVisible(fixed)
    ensures Hidden(Filled(SlotsOf(messages, index), fixed)) == Hidden(messages)
    decreases |messages|
  {
    if messages != [] {
      var m, rest := messages[0], messages[1..];
      var index' := if m.agentVisible then index + 1 else index;
      var slot := if m.agentVisible then Visible(index) else NonVisible(m);
      FilledHidden(rest, index', fixed);
      var tail := Filled(SlotsOf(rest, index'), fixed);
      assert ([slot] + SlotsOf(rest, index'))[1..] == SlotsOf(rest, index');
      assert [] + tail == tail && ([m] + tail)[1..] == tail;
      assert index < |fixed| ==> ([fixed[index]] + tail)[1..] == tail && [] + Hidden(tail) == Hidden(tail);
      assert [] + Hidden(rest) == Hidden(rest);
    }
  }

  /** What the agent sees of the result is exactly the repair of what it saw, if it saw anything. */
  lemma {:induction false} ShadowMapRefines(messages: seq<Message>)
    ensures AgentVisible(FixConversation(messages).0) == FixMessages(AgentVisible(messages)).0 <==> AgentVisible(messages) != []
    ensures FixConversation(messages).1 == FixMessages(AgentVisible(messages)).1
  {
    hide FixMessages;
    var visible := AgentVisible(messages);
    var fixed := FixMessages(visible).0;
    VisibleIsVisible(messages);
    RepairDoesNotGrow(visible);
    if visible != [] {
      FilledVisible(messages, 0, fixed);
      assert fixed[0..] == fixed;
    } else {
      NoVisibleSlots(messages, fixed);
    }
  }

  lemma {:induction false} NoVisibleSlots(messages: seq<Message>, fixed: seq<Message>)
    requires AgentVisible(messages) == []
    ensures AgentVisible(Filled(SlotsOf(messages, 0), fixed)) == []
    decreases |messages|
  {
    if messages != [] {
      var m, rest := messages[0], messages[1..];
      NoVisibleSlots(rest, fixed);
      var tail := Filled(SlotsOf(rest, 0), fixed);
      assert ([NonVisible(m)] + SlotsOf(rest, 0))[1..] == SlotsOf(rest, 0);
      assert ([m] + tail)[1..] == tail;
    }
  }

  /** What the agent does not see survives unchanged and in order. */
  lemma {:induction false} HiddenMessagesSurvive(messages: seq<Message>)
    ensures Hidden(FixConversation(messages).0) == Hidden(messages)
  {
    hide FixMessages;
    var visible := AgentVisible(messages);
    VisibleIsVisible(messages);
    RepairDoesNotGrow(visible);
    FilledHidden(messages, 0, FixMessages(visible).0);
  }

  lemma {:induction false} VisibleCons(m: Message, rest: seq<Message>)
    ensures AgentVisible([m] + rest) == (if m.agentVisible then [m] else []) + AgentVisible(rest)
    ensures Hidden([m] + rest) == (if m.agentVisible then [] else [m]) + Hidden(rest)
  {
    assert ([m] + rest)[1..] == rest;
  }

  lemma {:induction false} FilledCons(messages: seq<Message>, index: nat, fixed: seq<Message>)
    requires messages != []
    ensures Filled(SlotsOf(messages, index), fixed) ==
            if !messages[0].agentVisible then [messages[0]] + Filled(SlotsOf(messages[1..], index), fixed)
            else (if index < |fixed| then [fixed[index]] else []) + Filled(SlotsOf(messages[1..], index + 1), fixed)
  {
    var m, rest := messages[0], messages[1..];
    assert ([Visible(index)] + SlotsOf(rest, index + 1))[1..] == SlotsOf(rest, index + 1);
    assert ([NonVisible(m)] + SlotsOf(rest, index))[1..] == SlotsOf(rest, index);
  }

  /** Filling with the visible messages themselves gives the list back. */
  lemma {:induction false} FilledWithItself(messages: seq<Message>, before: seq<Message>)
    ensures Filled(SlotsOf(messages, |before|), before + AgentVisible(messages)) == messages
    decreases |messages|
  {
    if messages != [] {
      hide Filled, SlotsOf;
      var m, rest := messages[0], messages[1..];
      assert messages == [m] + rest;
      VisibleCons(m, rest);
      FilledCons(messages, |before|, before + AgentVisible(messages));
      hide AgentVisible;
      if m.agentVisible {
        FilledWithItself(rest, before + [m]);
        assert before + [m] + AgentVisible(rest) == before + ([m] + AgentVisible(rest));
      } else {
        FilledWithItself(rest, before);
        assert [] + AgentVisible(rest) == AgentVisible(rest);
      }
    }
  }

  /** With something visible, no issue means no change and no change means no issue. */
  lemma {:induction false} ConversationUnchangedIffNoIssue(messages: seq<Message>)
    requires AgentVisible(messages) != []
    ensures FixConversation(messages).1 == [] <==> FixConversation(messages).0 == messages
  {
    hide FixMessages;
    var visible := AgentVisible(messages);
    NoIssueIffUnchanged(visible);
    ShadowMapRefines(messages);
    if FixMessages(visible).1 == [] {
      FilledWithItself(messages, []);
      assert [] + visible == visible;
    }
  }

  // ---------- every message keeps its place ----------

  function Min(a: nat, b: nat): nat {
    if a <= b then a else b
  }

  lemma {:induction false} SlotsAppend(a: seq<Message>, b: seq<Message>, index: nat)
    ensures SlotsOf(a + b, index) == SlotsOf(a, index) + SlotsOf(b, index + |AgentVisible(a)|)
    decreases |a|
  {
    if a == [] {
      assert a + b == b;
    } else {
      assert (a + b)[1..] == a[1..] + b;
      SlotsAppend(a[1..], b, if a[0].agentVisible then index + 1 else index);
      assert [] + AgentVisible(a[1..]) == AgentVisible(a[1..]);
    }
  }

  lemma {:induction false} FilledAppend(a: seq<MessageSlot>, b: seq<MessageSlot>, fixed: seq<Message>)
    ensures Filled(a + b, fixed) == Filled(a, fixed) + Filled(b, fixed)
    decreases |a|
  {
    if a == [] {
      assert a + b == b;
    } else {
      assert (a + b)[1..] == a[1..] + b;
      FilledAppend(a[1..], b, fixed);
    }
  }

  /** `filled` holds the hidden messages of `messages`, and the fixed ones from `index` on, as many as
      there are visible ones, if there are that many. */
  predicate FillsPart(filled: seq<Message>, messages: seq<Message>, index: nat, fixed: seq<Message>) {
    var last := Min(index + |AgentVisible(messages)|, |fixed|);
    && AgentVisible(filled) == (if index <= last then fixed[index..last] else [])
    && Hidden(filled) == Hidden(messages)
    && |filled| == |Hidden(messages)| + |AgentVisible(filled)|
  }

  lemma {:induction false} FillsNothing(index: nat, fixed: seq<Message>)
    ensures FillsPart([], [], index, fixed)
  {
  }

  /** Without a fixed message left a visible slot disappears. */
  lemma {:induction false} FillsBeyond(tail: seq<Message>, m: Message, rest: seq<Message>, index: nat, fixed: seq<Message>)
    requires m.agentVisible && index >= |fixed| && FillsPart(tail, rest, index + 1, fixed)
    ensures FillsPart(tail, [m] + rest, index, fixed)
  {
    VisibleCons(m, rest);
    hide AgentVisible, Hidden;
    assert [] + Hidden(rest) == Hidden(rest);
  }

  lemma {:induction false} FillsHidden(tail: seq<Message>, m: Message, rest: seq<Message>, index: nat, fixed: seq<Message>)
    requires !m.agentVisible && FillsPart(tail, rest, index, fixed)
    ensures FillsPart([m] + tail, [m] + rest, index, fixed)
  {
    VisibleCons(m, rest);
    VisibleCons(m, tail);
    hide AgentVisible, Hidden;
    assert [] + AgentVisible(rest) == AgentVisible(rest) && [] + AgentVisible(tail) == AgentVisible(tail);
  }

  lemma {:induction false} FilledPart(messages: seq<Message>, index: nat, fixed: seq<Message>)
    requires AllVisible(fixed)
    ensures FillsPart(Filled(SlotsOf(messages, index), fixed), messages, index, fixed)
    decreases |messages|
  {
    if messages == [] {
      FillsNothing(index, fixed);
    } else {
      hide Filled, SlotsOf, FillsPart, AllVisible;
      var m, rest := messages[0], messages[1..];
      assert messages == [m] + rest;
      FilledCons(messages, index, fixed);
      if m.agentVisible {
        FilledPart(rest, index + 1, fixed);
        FillsSlot(Filled(SlotsOf(rest, index + 1), fixed), m, rest, index, fixed);
      } else {
        FilledPart(rest, index, fixed);
        FillsHidden(Filled(SlotsOf(rest, index), fixed), m, rest, index, fixed);
      }
    }
  }

  lemma {:induction false} FillsSlot(tail: seq<Message>, m: Message, rest: seq<Message>, index: nat, fixed: seq<Message>)
    requires AllVisible(fixed) && m.agentVisible && FillsPart(tail, rest, index + 1, fixed)
    ensures FillsPart((if index < |fixed| then [fixed[index]] else []) + tail, [m] + rest, index, fixed)
  {
    hide FillsPart, AllVisible;
    if index < |fixed| {
      FillsVisible(tail, m, rest, index, fixed);
    } else {
      FillsBeyond(tail, m, rest, index, fixed);
      assert [] + tail == tail;
    }
  }

  lemma {:induction false} FillsVisible(tail: seq<Message>, m: Message, rest: seq<Message>, index: nat, fixed: seq<Message>)
    requires AllVisible(fixed) && m.agentVisible && index < |fixed| && FillsPart(tail, rest, index + 1, fixed)
    ensures FillsPart([fixed[index]] + tail, [m] + rest, index, fixed)
  {
    VisibleCons(m, rest);
    VisibleCons(fixed[index], tail);
    hide AgentVisible, Hidden;
    var last := Min(index + 1 + |AgentVisible(rest)|, |fixed|);
    assert |[m] + AgentVisible(rest)| == 1 + |AgentVisible(rest)|;
    assert fixed[index..last] == [fixed[index]] + fixed[index + 1..last];
    assert [] + Hidden(rest) == Hidden(rest) && [] + Hidden(tail) == Hidden(tail);
  }

  /** Nothing is moved across anything else: up to any point of the conversation stand the hidden
      messages up to there, and as many repaired ones as there were visible ones, if there are that many. */
  lemma {:induction false} EveryMessageKeepsItsPlace(messages: seq<Message>, n: nat)
    requires n <= |messages|
    ensures var fixed, all := FixMessages(AgentVisible(messages)).0, FixConversation(messages).0;
            var visible := Min(|AgentVisible(messages[..n])|, |fixed|);
            var end := |Hidden(messages[..n])| + visible;
            && end <= |all|
            && Hidden(all[..end]) == Hidden(messages[..n]) && AgentVisible(all[..end]) == fixed[..visible]
  {
    hide FixMessages;
    var visible := AgentVisible(messages);
    var fixed := FixMessages(visible).0;
    var front, rest := messages[..n], messages[n..];
    VisibleIsVisible(messages);
    RepairDoesNotGrow(visible);
    assert front + rest == messages;
    SlotsAppend(front, rest, 0);
    FilledAppend(SlotsOf(front, 0), SlotsOf(rest, |AgentVisible(front)|), fixed);
    FilledPart(front, 0, fixed);
    hide Filled, SlotsOf, AgentVisible, Hidden;
    var filled := Filled(SlotsOf(front, 0), fixed);
    var taken := Min(|AgentVisible(front)|, |fixed|);
    assert fixed[0..taken] == fixed[..taken];
    assert FixConversation(messages).0[..|filled|] == filled;
  }
}
