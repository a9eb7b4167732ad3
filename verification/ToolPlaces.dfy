/** The pairing of requests and responses message by message, and the roles they sit in. */
module ToolPlaces {
  import opened Messages
  import opened ConversationPasses
  import opened ToolPairing

  // ---------- which message an event comes from ----------

  function MessageOf(messages: seq<Message>, p: nat): (i: nat)
    requires p < |Events(messages)|
    ensures i < |messages|
  {
    if p < |MessageEvents(messages[0])| then 0 else 1 + MessageOf(messages[1..], p - |MessageEvents(messages[0])|)
  }

  lemma {:induction false} MessageOfGrows(messages: seq<Message>, p: nat, q: nat)
    requires p <= q < |Events(messages)|
    ensures MessageOf(messages, p) <= MessageOf(messages, q)
    decreases |messages|
  {
    hide MessageEvents;
    var n := |MessageEvents(messages[0])|;
    if p >= n {
      MessageOfGrows(messages[1..], p - n, q - n);
    }
  }

  predicate RequestIn(m: Message, id: string) {
    m.role.Assistant? && exists j: nat :: j < |m.content| && m.content[j].ToolRequest? && m.content[j].id == id
  }

  predicate ResponseIn(m: Message, id: string) {
    m.role.User? && exists j: nat :: j < |m.content| && m.content[j].ToolResponse? && m.content[j].id == id
  }

  predicate HasEvent(m: Message, e: Event) {
    if e.Asked? then RequestIn(m, e.id) else ResponseIn(m, e.id)
  }

  lemma {:induction false} EventHasBlock(role: Role, content: seq<Block>, p: nat) returns (j: nat)
    requires p < |ContentEvents(role, content)|
    ensures j < |content| && BlockEvents(role, content[j]) == [ContentEvents(role, content)[p]]
    decreases |content|
  {
    var n := |BlockEvents(role, content[0])|;
    if p < n {
      j := 0;
    } else {
      j := EventHasBlock(role, content[1..], p - n);
      j := j + 1;
    }
  }

  lemma {:induction false} BlockHasEvent(role: Role, content: seq<Block>, j: nat) returns (p: nat)
    requires j < |content| && BlockEvents(role, content[j]) != []
    ensures p < |ContentEvents(role, content)| && [ContentEvents(role, content)[p]] == BlockEvents(role, content[j])
    decreases j
  {
    if j == 0 {
      p := 0;
    } else {
      p := BlockHasEvent(role, content[1..], j - 1);
      p := p + |BlockEvents(role, content[0])|;
    }
  }

  lemma {:induction false} EventIsInItsMessage(messages: seq<Message>, p: nat)
    requires p < |Events(messages)|
    ensures HasEvent(messages[MessageOf(messages, p)], Events(messages)[p])
    decreases |messages|
  {
    var m := messages[0];
    var n := |MessageEvents(m)|;
    if p < n {
      var j := EventHasBlock(m.role, m.content, p);
      assert m.content[j].ToolRequest? || m.content[j].ToolResponse?;
    } else {
      EventIsInItsMessage(messages[1..], p - n);
    }
  }

  lemma {:induction false} MessageHasItsEvent(messages: seq<Message>, i: nat, e: Event) returns (p: nat)
    requires i < |messages| && HasEvent(messages[i], e)
    ensures p < |Events(messages)| && Events(messages)[p] == e && MessageOf(messages, p) == i
    decreases i
  {
    var m := messages[0];
    if i == 0 {
      var j: nat :| j < |m.content| && BlockEvents(m.role, m.content[j]) == [e];
      p := BlockHasEvent(m.role, m.content, j);
      assert [ContentEvents(m.role, m.content)[p]][0] == e;
    } else {
      p := MessageHasItsEvent(messages[1..], i - 1, e);
      p := p + |MessageEvents(m)|;
    }
  }

  // ---------- pairing, message by message ----------

  /** Each request's response is in exactly one, later, user message, and each response's request in
      exactly one, earlier, assistant message. */
  ghost predicate PairedMessages(messages: seq<Message>) {
    && (forall id, i: nat | i < |messages| && RequestIn(messages[i], id) ::
          exists k: nat :: i < k < |messages| && ResponseIn(messages[k], id))
    && (forall id, k: nat | k < |messages| && ResponseIn(messages[k], id) ::
          exists i: nat :: i < k && RequestIn(messages[i], id))
    && (forall id, i: nat, k: nat | i < |messages| && k < |messages| && RequestIn(messages[i], id) && RequestIn(messages[k], id) :: i == k)
    && (forall id, i: nat, k: nat | i < |messages| && k < |messages| && ResponseIn(messages[i], id) && ResponseIn(messages[k], id) :: i == k)
  }

  lemma {:induction false} LaterMessage(messages: seq<Message>, p: nat, q: nat, id: string)
    requires p < q && IsAsked(Events(messages), p, id) && IsAnswered(Events(messages), q, id)
    ensures var i, k := MessageOf(messages, p), MessageOf(messages, q);
            i < k < |messages| && RequestIn(messages[i], id) && ResponseIn(messages[k], id)
  {
    MessageOfGrows(messages, p, q);
    EventIsInItsMessage(messages, p);
    EventIsInItsMessage(messages, q);
  }

  lemma {:induction false} PairedByMessage(messages: seq<Message>)
    requires Paired(Events(messages))
    ensures PairedMessages(messages)
  {
    hide Events, MessageOf, RequestIn, ResponseIn;
    var events := Events(messages);
    forall id, i: nat | i < |messages| && RequestIn(messages[i], id)
      ensures exists k: nat :: i < k < |messages| && ResponseIn(messages[k], id)
    {
      var p := MessageHasItsEvent(messages, i, Asked(id));
      assert IsAsked(events, p, id);
      var q: nat :| p < q && IsAnswered(events, q, id);
      LaterMessage(messages, p, q, id);
    }
    forall id, k: nat | k < |messages| && ResponseIn(messages[k], id)
      ensures exists i: nat :: i < k && RequestIn(messages[i], id)
    {
      var q := MessageHasItsEvent(messages, k, Answered(id));
      assert IsAnswered(events, q, id);
      var p: nat :| p < q && IsAsked(events, p, id);
      LaterMessage(messages, p, q, id);
    }
    forall id, i: nat, k: nat | i < |messages| && k < |messages| && RequestIn(messages[i], id) && RequestIn(messages[k], id) ensures i == k {
      var p := MessageHasItsEvent(messages, i, Asked(id));
      var q := MessageHasItsEvent(messages, k, Asked(id));
      assert IsAsked(events, p, id) && IsAsked(events, q, id);
    }
    forall id, i: nat, k: nat | i < |messages| && k < |messages| && ResponseIn(messages[i], id) && ResponseIn(messages[k], id) ensures i == k {
      var p := MessageHasItsEvent(messages, i, Answered(id));
      var q := MessageHasItsEvent(messages, k, Answered(id));
      assert IsAnswered(events, p, id) && IsAnswered(events, q, id);
    }
  }

  /** `fix_tool_calling` leaves a bijection between requests and responses. */
  lemma {:induction false} FixToolsIsABijection(messages: seq<Message>)
    requires DistinctRequests(Events(messages))
    ensures Paired(Events(FixTools(messages).0)) && PairedMessages(FixTools(messages).0)
  {
    FixToolsPairs(messages);
    MatchesIsPaired(Events(FixTools(messages).0));
    PairedByMessage(FixTools(messages).0);
  }

  /** Message by message, for the whole repair. */
  lemma {:induction false} RepairPairsMessages(messages: seq<Message>)
    requires DistinctRequests(Events(messages)) && StartsSafely(BeforeLeadTrail(messages))
    ensures PairedMessages(FixMessages(messages).0)
  {
    RepairPairsTools(messages);
    PairedByMessage(FixMessages(messages).0);
  }

  // ---------- what holds of every block ----------

  predicate AllBlocks(p: (Role, Block) -> bool, role: Role, content: seq<Block>) {
    forall j :: 0 <= j < |content| ==> p(role, content[j])
  }

  predicate Everywhere(p: (Role, Block) -> bool, messages: seq<Message>) {
    forall i :: 0 <= i < |messages| ==> AllBlocks(p, messages[i].role, messages[i].content)
  }

  lemma {:induction false} ScreenBlocksKeep(p: (Role, Block) -> bool, role: Role, content: seq<Block>, pending: set<string>)
    requires AllBlocks(p, role, content)
    ensures AllBlocks(p, role, ScreenBlocks(role, content, pending).content)
    decreases |content|
  {
    hide ScreenIssue;
    if content != [] {
      ScreenBlocksKeep(p, role, content[1..], PendingAfter(role, content[0], pending));
    }
  }

  lemma {:induction false} ScreenKeeps(p: (Role, Block) -> bool, messages: seq<Message>, pending: set<string>)
    requires Everywhere(p, messages)
    ensures Everywhere(p, Screen(messages, pending).messages)
    decreases |messages|
  {
    hide AllBlocks, ScreenBlocks;
    if messages != [] {
      ScreenBlocksKeep(p, messages[0].role, messages[0].content, pending);
      ScreenKeeps(p, messages[1..], ScreenBlocks(messages[0].role, messages[0].content, pending).pending);
    }
  }

  lemma {:induction false} DropBlocksKeep(p: (Role, Block) -> bool, role: Role, content: seq<Block>, pending: set<string>)
    requires AllBlocks(p, role, content)
    ensures AllBlocks(p, role, DropBlocks(content, pending).0)
    decreases |content|
  {
    if content != [] {
      DropBlocksKeep(p, role, content[1..], pending);
    }
  }

  lemma {:induction false} DropKeeps(p: (Role, Block) -> bool, messages: seq<Message>, pending: set<string>)
    requires Everywhere(p, messages)
    ensures Everywhere(p, DropRequests(messages, pending).0)
    decreases |messages|
  {
    hide AllBlocks, DropBlocks;
    if messages != [] {
      DropBlocksKeep(p, messages[0].role, messages[0].content, pending);
      DropKeeps(p, messages[1..], pending);
    }
  }

  lemma {:induction false} RemoveEmptyKeeps(p: (Role, Block) -> bool, messages: seq<Message>)
    requires Everywhere(p, messages)
    ensures Everywhere(p, RemoveEmpty(messages).0)
    decreases |messages|
  {
    hide AllBlocks;
    if messages != [] {
      RemoveEmptyKeeps(p, messages[1..]);
    }
  }

  lemma {:induction false} FixToolsKeeps(p: (Role, Block) -> bool, messages: seq<Message>)
    requires Everywhere(p, messages)
    ensures Everywhere(p, FixTools(messages).0)
  {
    hide Everywhere, Screen, DropRequests, RemoveEmpty;
    var screened := Screen(messages, {});
    ScreenKeeps(p, messages, {});
    DropKeeps(p, screened.messages, screened.pending);
    RemoveEmptyKeeps(p, DropRequests(screened.messages, screened.pending).0);
  }

  lemma {:induction false} MergeFromKeeps(p: (Role, Block) -> bool, last: Message, rest: seq<Message>, across: bool)
    requires AllBlocks(p, last.role, last.content) && Everywhere(p, rest)
    ensures Everywhere(p, MergeFrom(last, rest, across).0)
    decreases |rest|
  {
    if rest != [] {
      assert AllBlocks(p, rest[0].role, rest[0].content);
      if Joins(last, rest[0], across) {
        MergeFromKeeps(p, Join(last, rest[0]), rest[1..], across);
      } else {
        MergeFromKeeps(p, rest[0], rest[1..], across);
      }
    }
  }

  lemma {:induction false} MergeKeeps(p: (Role, Block) -> bool, messages: seq<Message>, across: bool)
    requires Everywhere(p, messages)
    ensures Everywhere(p, MergeConsecutive(messages, across).0)
  {
    hide MergeFrom, AllBlocks;
    if messages != [] {
      MergeFromKeeps(p, messages[0], messages[1..], across);
    }
  }

  lemma {:induction false} DedupeBlocksKeep(p: (Role, Block) -> bool, role: Role, content: seq<Block>, seen: seq<Block>)
    requires AllBlocks(p, role, content)
    ensures AllBlocks(p, role, DedupeBlocks(content, seen))
    decreases |content|
  {
    if content != [] {
      DedupeBlocksKeep(p, role, content[1..], seen);
      DedupeBlocksKeep(p, role, content[1..], seen + [content[0]]);
    }
  }

  lemma {:induction false} DedupeKeeps(p: (Role, Block) -> bool, messages: seq<Message>, seen: seq<Block>)
    requires Everywhere(p, messages)
    ensures Everywhere(p, Dedupe(messages, seen).0)
    decreases |messages|
  {
    hide AllBlocks, DedupeBlocks, SeenAfter;
    if messages != [] {
      DedupeBlocksKeep(p, messages[0].role, messages[0].content, seen);
      DedupeKeeps(p, messages[1..], seen);
      DedupeKeeps(p, messages[1..], SeenAfter(messages[0].content, seen));
    }
  }

  /** What holds of every block after `fix_tool_calling`, and of the placeholder, holds after repair. */
  lemma {:induction false} LaterPassesKeep(p: (Role, Block) -> bool, messages: seq<Message>)
    requires Everywhere(p, messages) && AllBlocks(p, PLACEHOLDER.role, PLACEHOLDER.content)
    ensures Everywhere(p, Populate(LeadTrail(Dedupe(MergeConsecutive(messages, false).0, []).0).0).0)
  {
    hide Dedupe, MergeConsecutive, AllBlocks;
    MergeKeeps(p, messages, false);
    DedupeKeeps(p, MergeConsecutive(messages, false).0, []);
  }

  // ---------- nothing sits in the wrong role ----------

  predicate RightBlock(role: Role, b: Block) {
    match role
    case User => !b.ToolRequest? && !b.ToolConfirmationRequest? && !b.Thinking? && !b.RedactedThinking?
    case Assistant => !b.ToolResponse? && !b.FrontendToolRequest?
  }

  lemma {:induction false} ScreenedIsRight(role: Role, content: seq<Block>, pending: set<string>)
    ensures AllBlocks(RightBlock, role, ScreenBlocks(role, content, pending).content)
    decreases |content|
  {
    if content != [] {
      ScreenedIsRight(role, content[1..], PendingAfter(role, content[0], pending));
    }
  }

  lemma {:induction false} ScreenIsRight(messages: seq<Message>, pending: set<string>)
    ensures Everywhere(RightBlock, Screen(messages, pending).messages)
    decreases |messages|
  {
    hide AllBlocks, ScreenBlocks;
    if messages != [] {
      ScreenedIsRight(messages[0].role, messages[0].content, pending);
      ScreenIsRight(messages[1..], ScreenBlocks(messages[0].role, messages[0].content, pending).pending);
    }
  }

  lemma {:induction false} FixToolsIsRight(messages: seq<Message>)
    ensures Everywhere(RightBlock, FixTools(messages).0)
  {
    hide Everywhere, Screen, DropRequests, RemoveEmpty;
    var screened := Screen(messages, {});
    ScreenIsRight(messages, {});
    DropKeeps(RightBlock, screened.messages, screened.pending);
    RemoveEmptyKeeps(RightBlock, DropRequests(screened.messages, screened.pending).0);
  }

  /** After repair no block sits in a message of the wrong role, whatever the input. */
  lemma {:induction false} RepairPutsRolesRight(messages: seq<Message>)
    ensures Everywhere(RightBlock, FixMessages(messages).0)
  {
    hide Tidy, RemoveEmpty, FixMessages, FixTools, Everywhere;
    var tidied := Tidy(FillResults, RemoveEmpty(Tidy(TrimText, Tidy(MergeText, messages).0).0).0).0;
    FixToolsIsRight(tidied);
    LaterPassesKeep(RightBlock, FixTools(tidied).0);
    PassesInOrder(messages);
  }
}
