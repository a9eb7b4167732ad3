/** Lists on which one run of the repair is not enough, or on which its promises need their conditions. */
module RepairWitnesses {
  import opened Text
  import opened Messages
  import opened ConversationPasses
  import opened RepairStability
  import opened ToolPairing
  import Merging
  import ConversationShape

  function Says(role: Role, content: seq<Block>): Message {
    Message(None, role, content, true, true, false, None, false)
  }

  /** A block that the passes over text and tool results leave alone. */
  predicate Plain(b: Block) {
    !IsEmptyResult(b) && (b.Text? ==> b.text != "" && !IsWhitespace(b.text[|b.text| - 1]))
  }

  /** A message that the first four passes leave alone. */
  predicate Ready(m: Message) {
    && m.content != []
    && (forall j :: 0 <= j < |m.content| ==> Plain(m.content[j]))
    && forall j :: 0 <= j < |m.content| - 1 ==> !Mergeable(m.content[j], m.content[j + 1])
  }

  lemma {:induction false} NothingMerges(merged: seq<Block>, rest: seq<Block>)
    requires forall j :: 0 <= j < |merged + rest| - 1 ==> !Mergeable((merged + rest)[j], (merged + rest)[j + 1])
    ensures MergeBlocks(merged, rest) == merged + rest
    decreases |rest|
  {
    if rest == [] {
      assert merged + rest == merged;
    } else {
      var all := merged + rest;
      if merged != [] {
        assert all[|merged| - 1] == merged[|merged| - 1] && all[|merged|] == rest[0];
      }
      assert merged + [rest[0]] + rest[1..] == all;
      NothingMerges(merged + [rest[0]], rest[1..]);
    }
  }

  lemma {:induction false} PlainIsTidy(pass: MessagePass, content: seq<Block>)
    requires !pass.MergeText? && forall j :: 0 <= j < |content| ==> Plain(content[j])
    ensures TidyBlocks(pass, content).1 == []
    decreases |content|
  {
    if content != [] {
      assert Plain(content[0]);
      PlainIsTidy(pass, content[1..]);
    }
  }

  lemma {:induction false} ReadyIsClean(messages: seq<Message>)
    requires forall i :: 0 <= i < |messages| ==> Ready(messages[i])
    ensures forall pass :: CleanFor(PTidy(pass), messages)
    ensures CleanFor(PRemoveEmpty, messages)
    decreases |messages|
  {
    if messages != [] {
      var m := messages[0];
      assert Ready(m);
      assert Plain(m.content[0]);
      ReadyIsClean(messages[1..]);
      assert [] + m.content == m.content;
      NothingMerges([], m.content);
      PlainIsTidy(TrimText, m.content);
      PlainIsTidy(FillResults, m.content);
      hide TidyBlocks, MergeBlocks, Ready, Plain;
      forall pass ensures CleanFor(PTidy(pass), messages) {
        assert CleanFor(PTidy(pass), messages[1..]);
      }
    }
  }

  /** Ready messages reach `fix_tool_calling` as they are. */
  lemma {:induction false} ReadyReachesTools(messages: seq<Message>)
    requires forall i :: 0 <= i < |messages| ==> Ready(messages[i])
    ensures BeforeLeadTrail(messages) == Dedupe(MergeConsecutive(FixTools(messages).0, false).0, []).0
  {
    ReadyIsClean(messages);
    hide CleanFor, Ready;
    assert CleanFor(PTidy(MergeText), messages) && CleanFor(PTidy(TrimText), messages) && CleanFor(PTidy(FillResults), messages);
    CleanStays(PTidy(MergeText), messages);
    CleanStays(PTidy(TrimText), messages);
    CleanStays(PRemoveEmpty, messages);
    CleanStays(PTidy(FillResults), messages);
    hide Tidy, RemoveEmpty, FixTools, MergeConsecutive, Dedupe;
    PassesInOrder(messages);
  }

  /** A message whose blocks `fix_tool_calling` has nothing to say about. */
  predicate NoTools(m: Message) {
    forall j :: 0 <= j < |m.content| ==> m.content[j].Text? || (m.role.Assistant? && m.content[j].Thinking?)
  }

  lemma {:induction false} NoToolsStays(role: Role, content: seq<Block>, pending: set<string>)
    requires forall j :: 0 <= j < |content| ==> content[j].Text? || (role.Assistant? && content[j].Thinking?)
    ensures ScreenBlocks(role, content, pending) == Screened(content, [], pending)
    ensures DropBlocks(content, pending) == (content, [])
    decreases |content|
  {
    if content != [] {
      NoToolsStays(role, content[1..], pending);
      assert [content[0]] + content[1..] == content;
      var none: seq<Issue> := [];
      assert none + none == none;
    }
  }

  lemma {:induction false} FixToolsStays(messages: seq<Message>)
    requires forall i :: 0 <= i < |messages| ==> Ready(messages[i]) && NoTools(messages[i])
    ensures FixTools(messages).0 == messages
  {
    ScreenStays(messages, {});
    DropStays(messages, {});
    ReadyIsClean(messages);
    CleanStays(PRemoveEmpty, messages);
    hide Screen, DropRequests, RemoveEmpty;
  }

  lemma {:induction false} ScreenStays(messages: seq<Message>, pending: set<string>)
    requires forall i :: 0 <= i < |messages| ==> NoTools(messages[i])
    ensures Screen(messages, pending) == ScreenedAll(messages, [], pending)
    decreases |messages|
  {
    if messages != [] {
      assert NoTools(messages[0]);
      NoToolsStays(messages[0].role, messages[0].content, pending);
      ScreenStays(messages[1..], pending);
      assert [messages[0]] + messages[1..] == messages;
      var none: seq<Issue> := [];
      assert none + none == none;
    }
  }

  lemma {:induction false} DropStays(messages: seq<Message>, pending: set<string>)
    requires forall i :: 0 <= i < |messages| ==> NoTools(messages[i])
    ensures DropRequests(messages, pending).0 == messages
    decreases |messages|
  {
    if messages != [] {
      assert NoTools(messages[0]);
      NoToolsStays(messages[0].role, messages[0].content, pending);
      DropStays(messages[1..], pending);
      assert [messages[0]] + messages[1..] == messages;
    }
  }

  predicate IsWord(text: string) {
    text != "" && !IsWhitespace(text[|text| - 1])
  }

  function Word(text: string): Block {
    Text(text, None)
  }

  lemma {:induction false} WordIsReady(m: Message, text: string)
    requires IsWord(text) && m.content == [Word(text)]
    ensures Ready(m) && NoTools(m) && !HasToolResponse(m.content)
  {
    assert m.content[1..] == [];
  }

  /** The middle two of four messages join. */
  lemma {:induction false} MiddleJoins(a: Message, b: Message, c: Message, d: Message)
    requires a.role.User? && b.role.Assistant? && c.role.Assistant? && d.role.User?
    requires b.userVisible == c.userVisible && b.turnContext == c.turnContext
    ensures MergeConsecutive([a, b, c, d], false).0 == [a, Join(b, c), d]
  {
    hide HasToolResponse;
    var all, joined := [a, b, c, d], Join(b, c);
    assert all[1..] == [b, c, d] && [b, c, d][1..] == [c, d] && [c, d][1..] == [d] && [d][1..] == [];
    assert MergeFrom(d, [], false).0 == [d];
    assert MergeFrom(joined, [d], false).0 == [joined] + [d];
    assert MergeFrom(b, [c, d], false).0 == [joined] + [d];
    assert MergeFrom(a, [b, c, d], false).0 == [a] + ([joined] + [d]);
  }

  /** Two assistant messages in a row: their texts end up side by side, and the next run merges them. */
  lemma {:induction false} ConsecutiveTextsNeedTwoRuns(u: string, x: string, y: string, v: string)
    requires IsWord(u) && IsWord(x) && IsWord(y) && IsWord(v)
    ensures var messages := [Says(User, [Word(u)]), Says(Assistant, [Word(x)]), Says(Assistant, [Word(y)]), Says(User, [Word(v)])];
            var fixed := [Says(User, [Word(u)]), Says(Assistant, [Word(x), Word(y)]), Says(User, [Word(v)])];
            FixMessages(messages).0 == fixed && FixMessages(fixed).1 != []
  {
    hide FixMessages, FixTools, MergeConsecutive, Dedupe, HasToolResponse;
    var a, b, c, d := Says(User, [Word(u)]), Says(Assistant, [Word(x)]), Says(Assistant, [Word(y)]), Says(User, [Word(v)]);
    var messages := [a, b, c, d];
    var joined := Says(Assistant, [Word(x), Word(y)]);
    var fixed := [a, joined, d];
    WordIsReady(a, u);
    WordIsReady(b, x);
    WordIsReady(c, y);
    WordIsReady(d, v);
    hide Ready, NoTools, IsWord;
    ReadyReachesTools(messages);
    FixToolsStays(messages);
    MiddleJoins(a, b, c, d);
    assert Join(b, c) == joined by {
      assert [Word(x)] + [Word(y)] == [Word(x), Word(y)];
    }
    WordsAreNotDeduped(fixed);
    EndsStay(fixed);
    PassesInOrder(messages);
    hide BeforeLeadTrail, LeadTrail;
    AdjacentTextIsFound(fixed, 1, x, y);
  }

  lemma {:induction false} EndsStay(messages: seq<Message>)
    requires ConversationShape.UserAtBothEnds(messages)
    ensures Populate(LeadTrail(messages).0).0 == messages
  {
  }

  /** Lists of text have no thinking to drop. */
  lemma {:induction false} WordsAreNotDeduped(messages: seq<Message>)
    requires forall i, j :: 0 <= i < |messages| && 0 <= j < |messages[i].content| ==> messages[i].content[j].Text?
    ensures Dedupe(messages, []).0 == messages
    decreases |messages|
  {
    if messages != [] {
      var m := messages[0];
      assert forall j :: 0 <= j < |m.content| ==> m.content[j].Text?;
      TextIsNotDeduped(m.content, []);
      forall i, j | 0 <= i < |messages[1..]| && 0 <= j < |messages[1..][i].content| ensures messages[1..][i].content[j].Text? {
        assert messages[1..][i] == messages[i + 1];
      }
      WordsAreNotDeduped(messages[1..]);
      assert [m] + messages[1..] == messages;
    }
  }

  lemma {:induction false} TextIsNotDeduped(content: seq<Block>, seen: seq<Block>)
    requires forall j :: 0 <= j < |content| ==> content[j].Text?
    ensures DedupeBlocks(content, seen) == content && SeenAfter(content, seen) == seen
    decreases |content|
  {
    if content != [] {
      TextIsNotDeduped(content[1..], seen);
    }
  }

  lemma {:induction false} TwoTextsMerge(x: string, y: string)
    ensures |MergeBlocks([], [Word(x), Word(y)])| == 1
  {
    var content := [Word(x), Word(y)];
    assert content[1..] == [Word(y)] && [Word(y)][1..] == [];
    assert Absorb([], Word(x)) == [Word(x)];
    assert MergeBlocks([], content) == MergeBlocks([Word(x)], [Word(y)]) == Absorb([Word(x)], Word(y));
  }

  /** The first pass has something to say about two texts side by side. */
  lemma {:induction false} AdjacentTextIsFound(messages: seq<Message>, i: nat, x: string, y: string)
    requires i < |messages| && messages[i] == Says(Assistant, [Word(x), Word(y)])
    ensures FixMessages(messages).1 != []
  {
    hide MergeBlocks, TidyBlocks, FixMessages, CleanFor;
    TwoTextsMerge(x, y);
    assert TidyMessage(MergeText, messages[i]).1 != [];
    OneDirtyMessage(MergeText, messages, i);
    NotCleanIsReported(PTidy(MergeText), 0, messages);
  }

  lemma {:induction false} OneDirtyMessage(pass: MessagePass, messages: seq<Message>, i: nat)
    requires i < |messages| && TidyMessage(pass, messages[i]).1 != []
    ensures !CleanFor(PTidy(pass), messages)
    decreases i
  {
    hide TidyMessage;
    if i > 0 {
      OneDirtyMessage(pass, messages[1..], i - 1);
    }
  }

  lemma {:induction false} NotCleanIsReported(pass: Pass, i: nat, messages: seq<Message>)
    requires i < 9 && PassAt(i) == pass && !CleanFor(pass, messages)
    ensures FixMessages(messages).1 != []
  {
    hide CleanFor, RunPasses, PassAt;
    NoIssueIffClean(9, messages);
  }

  /** The blocks of a message with a request between two texts. */
  lemma {:induction false} OrphanContent(x: string, id: string, call: nat, y: string)
    ensures var content := [Word(x), ToolRequest(id, call), Word(y)];
            ScreenBlocks(Assistant, content, {}) == Screened(content, [], {id}) && DropBlocks(content, {id}).0 == [Word(x), Word(y)]
  {
    var r := ToolRequest(id, call);
    var content := [Word(x), r, Word(y)];
    var none: seq<Issue> := [];
    assert none + none == none && {} + {id} == {id};
    assert content[1..] == [r, Word(y)] && [r, Word(y)][1..] == [Word(y)] && [Word(y)][1..] == [];
    assert ScreenBlocks(Assistant, [Word(y)], {id}) == Screened([Word(y)] + [], none, {id});
    assert ScreenBlocks(Assistant, [r, Word(y)], {}) == Screened([r] + [Word(y)], none, {id});
    assert ScreenBlocks(Assistant, content, {}).content == [Word(x)] + ([r] + [Word(y)]) == content;
    assert DropBlocks([Word(y)], {id}).0 == [Word(y)] + [];
    assert DropBlocks([r, Word(y)], {id}).0 == [Word(y)];
    assert DropBlocks(content, {id}).0 == [Word(x)] + [Word(y)];
  }

  lemma {:induction false} ScreenCons(m: Message, rest: seq<Message>, before: set<string>, pending: set<string>)
    requires ScreenBlocks(m.role, m.content, before) == Screened(m.content, [], pending)
    ensures var tail := Screen(rest, pending);
            Screen([m] + rest, before) == ScreenedAll([m] + tail.messages, tail.issues, tail.pending)
  {
    hide ScreenBlocks;
    assert ([m] + rest)[1..] == rest;
    assert [] + Screen(rest, pending).issues == Screen(rest, pending).issues;
  }

  /** The first loop over three messages of which only the middle one has something for it. */
  lemma {:induction false} ScreenMiddle(a: Message, b: Message, d: Message, pending: set<string>)
    requires NoTools(a) && NoTools(d) && a.role.User? && d.role.User?
    requires ScreenBlocks(b.role, b.content, {}) == Screened(b.content, [], pending)
    ensures Screen([a, b, d], {}) == ScreenedAll([a, b, d], [], pending)
  {
    NoToolsStays(User, a.content, {});
    NoToolsStays(User, d.content, pending);
    assert Screen([], pending) == ScreenedAll([], [], pending);
    hide Screen, ScreenBlocks, NoTools;
    ScreenCons(d, [], pending, pending);
    ScreenCons(b, [d] + [], {}, pending);
    ScreenCons(a, [b] + ([d] + []), {}, {});
    assert [a] + ([b] + ([d] + [])) == [a, b, d];
  }

  lemma {:induction false} DropMiddle(a: Message, b: Message, d: Message, pending: set<string>)
    requires a.role.User? && b.role.Assistant? && d.role.User?
    ensures DropRequests([a, b, d], pending).0 == [a, b.(content := DropBlocks(b.content, pending).0), d]
  {
    hide DropBlocks;
    var all := [a, b, d];
    var b' := b.(content := DropBlocks(b.content, pending).0);
    assert all[1..] == [b, d] && [b, d][1..] == [d] && [d][1..] == [];
    assert DropRequests([d], pending).0 == [d] + [];
    assert DropRequests([b, d], pending).0 == [b'] + [d];
    assert DropRequests(all, pending).0 == [a] + ([b'] + [d]);
  }

  /** The same after a request between two texts is dropped for want of a response. */
  lemma {:induction false} OrphanBetweenTextsNeedsTwoRuns(u: string, x: string, id: string, call: nat, y: string, v: string)
    requires IsWord(u) && IsWord(x) && IsWord(y) && IsWord(v)
    ensures var messages := [Says(User, [Word(u)]), Says(Assistant, [Word(x), ToolRequest(id, call), Word(y)]), Says(User, [Word(v)])];
            var fixed := [Says(User, [Word(u)]), Says(Assistant, [Word(x), Word(y)]), Says(User, [Word(v)])];
            FixMessages(messages).0 == fixed && FixMessages(fixed).1 != []
  {
    hide FixMessages, MergeConsecutive, Dedupe, HasToolResponse, Screen, DropRequests, RemoveEmpty, ScreenBlocks, DropBlocks;
    var a, d, joined := Says(User, [Word(u)]), Says(User, [Word(v)]), Says(Assistant, [Word(x), Word(y)]);
    var content := [Word(x), ToolRequest(id, call), Word(y)];
    var b := Says(Assistant, content);
    var messages, fixed := [a, b, d], [a, joined, d];
    WordIsReady(a, u);
    WordIsReady(d, v);
    assert Ready(b);
    hide Ready, NoTools, IsWord;
    ReadyReachesTools(messages);
    OrphanContent(x, id, call, y);
    ScreenMiddle(a, b, d, {id});
    DropMiddle(a, b, d, {id});
    NoEmptyAmongThree(a, joined, d);
    assert FixTools(messages).0 == fixed;
    AlternatingStays(a, joined, d);
    WordsAreNotDeduped(fixed);
    EndsStay(fixed);
    PassesInOrder(messages);
    hide BeforeLeadTrail, LeadTrail;
    AdjacentTextIsFound(fixed, 1, x, y);
  }

  lemma {:induction false} NoEmptyAmongThree(a: Message, b: Message, c: Message)
    requires a.content != [] && b.content != [] && c.content != []
    requires !(a.content[0].Text? && a.content[0].text == "") && !(b.content[0].Text? && b.content[0].text == "")
    requires !(c.content[0].Text? && c.content[0].text == "")
    ensures RemoveEmpty([a, b, c]).0 == [a, b, c]
  {
    var all := [a, b, c];
    assert all[1..] == [b, c] && [b, c][1..] == [c] && [c][1..] == [];
    assert RemoveEmpty([c]).0 == [c] + [];
    assert RemoveEmpty([b, c]).0 == [b] + ([c] + []);
  }

  lemma {:induction false} AlternatingStays(a: Message, b: Message, c: Message)
    requires a.role.User? && b.role.Assistant? && c.role.User?
    ensures MergeConsecutive([a, b, c], false).0 == [a, b, c]
  {
    hide HasToolResponse;
    var all := [a, b, c];
    assert all[1..] == [b, c] && [b, c][1..] == [c] && [c][1..] == [];
    assert MergeFrom(c, [], false).0 == [c];
    assert MergeFrom(b, [c], false).0 == [b] + [c];
    assert MergeFrom(a, [b, c], false).0 == [a] + ([b] + [c]);
  }

  // ---------- an empty message, a lost request, a stray response, an assistant at the start ----------

  /** A message that only repeats signed thinking is left empty, and the next run removes it. */
  lemma {:induction false} RepeatedThinkingNeedsTwoRuns(u: string, t: string, signature: string, v: string, w: string)
    requires IsWord(u) && IsWord(v) && IsWord(w) && signature != ""
    ensures var thought := Says(Assistant, [Thinking(t, signature)]);
            var messages := [Says(User, [Word(u)]), thought, Says(User, [Word(v)]), thought, Says(User, [Word(w)])];
            FixMessages(FixMessages(messages).0).1 != []
  {
    hide FixMessages, FixTools, HasToolResponse;
    var block := Thinking(t, signature);
    var thought, empty := Says(Assistant, [block]), Says(Assistant, []);
    var a, c, e := Says(User, [Word(u)]), Says(User, [Word(v)]), Says(User, [Word(w)]);
    var messages := [a, thought, c, thought, e];
    WordIsReady(a, u);
    WordIsReady(c, v);
    WordIsReady(e, w);
    assert Ready(thought) && NoTools(thought);
    hide Ready, NoTools, IsWord;
    ReadyReachesTools(messages);
    FixToolsStays(messages);
    hide FixTools;
    assert Merging.Separated(messages, false) by {
      assert messages[0].role != messages[1].role && messages[1].role != messages[2].role;
      assert messages[2].role != messages[3].role && messages[3].role != messages[4].role;
    }
    Merging.MergeStaysIffSeparated(messages, false);
    SecondThoughtGoes(a, block, c, e);
    var fixed := [a, thought, c, empty, e];
    EndsStay(fixed);
    PassesInOrder(messages);
    hide BeforeLeadTrail, LeadTrail, MergeConsecutive, Dedupe;
    EmptyIsFound(fixed, 3);
    NotCleanIsReported(PRemoveEmpty, 2, fixed);
  }

  lemma {:induction false} DedupeUser(m: Message, rest: seq<Message>, seen: seq<Block>)
    requires m.role.User?
    ensures Dedupe([m] + rest, seen).0 == [m] + Dedupe(rest, seen).0
  {
    assert ([m] + rest)[1..] == rest;
  }

  lemma {:induction false} DedupeThought(b: Block, rest: seq<Message>, seen: seq<Block>)
    requires IsSignedThinking(b)
    ensures Dedupe([Says(Assistant, [b])] + rest, seen).0 ==
            if b in seen then [Says(Assistant, [])] + Dedupe(rest, seen).0
            else [Says(Assistant, [b])] + Dedupe(rest, seen + [b]).0
  {
    var m := Says(Assistant, [b]);
    assert ([m] + rest)[1..] == rest && [b][1..] == [];
    assert DedupeBlocks([b], seen) == if b in seen then [] else [b] + [];
    assert [b] + [] == [b];
    assert SeenAfter([b], seen) == if b in seen then seen else seen + [b];
  }

  lemma {:induction false} SecondThoughtGoes(a: Message, b: Block, c: Message, e: Message)
    requires IsSignedThinking(b) && a.role.User? && c.role.User? && e.role.User?
    ensures var thought := Says(Assistant, [b]);
            Dedupe([a, thought, c, thought, e], []).0 == [a, thought, c, Says(Assistant, []), e]
  {
    var thought := Says(Assistant, [b]);
    assert Dedupe([], [] + [b]).0 == [];
    hide Dedupe, IsSignedThinking;
    DedupeUser(e, [], [] + [b]);
    DedupeThought(b, [e] + [], [] + [b]);
    DedupeUser(c, [thought] + ([e] + []), [] + [b]);
    DedupeThought(b, [c] + ([thought] + ([e] + [])), []);
    DedupeUser(a, [thought] + ([c] + ([thought] + ([e] + []))), []);
    assert [a] + ([thought] + ([c] + ([thought] + ([e] + [])))) == [a, thought, c, thought, e];
  }

  lemma {:induction false} EmptyIsFound(messages: seq<Message>, i: nat)
    requires i < |messages| && messages[i].content == []
    ensures !CleanFor(PRemoveEmpty, messages)
    decreases i
  {
    if i > 0 {
      EmptyIsFound(messages[1..], i - 1);
    }
  }

  predicate NoThinking(m: Message) {
    forall j :: 0 <= j < |m.content| ==> !IsSignedThinking(m.content[j])
  }

  /** A conversation that starts with an assistant's request loses it at the front, and the response
      stays behind. */
  lemma {:induction false} CutRequestLeavesResponse(id: string, call: nat, x: string, y: string)
    requires IsWord(x) && IsWord(y)
    ensures var messages := [Says(Assistant, [ToolRequest(id, call)]), Says(User, [ToolResponse(id, None)]),
                             Says(Assistant, [Word(x)]), Says(User, [Word(y)])];
            DistinctRequests(Events(messages)) && !Paired(Events(FixMessages(messages).0))
  {
    var a, b := Says(Assistant, [ToolRequest(id, call)]), Says(User, [ToolResponse(id, None)]);
    var c, d := Says(Assistant, [Word(x)]), Says(User, [Word(y)]);
    var messages := [a, b, c, d];
    WordIsReady(c, x);
    WordIsReady(d, y);
    RequestReachesTheFront(a, b, c, d, id, call);
    EventsOfFour(a, b, c, d, id, call);
    hide FixMessages, BeforeLeadTrail, Events, Paired, DistinctRequests;
    assert !StartsSafely(messages) by {
      assert messages[0].content[0].ToolRequest?;
    }
    RepairPairsTools(messages);
  }

  lemma {:induction false} AnsweredToolsStay(a: Message, b: Message, c: Message, d: Message, id: string, call: nat)
    requires a == Says(Assistant, [ToolRequest(id, call)]) && b == Says(User, [ToolResponse(id, None)])
    requires NoTools(c) && NoTools(d) && Ready(c) && Ready(d)
    ensures FixTools([a, b, c, d]).0 == [a, b, c, d]
  {
    var messages := [a, b, c, d];
    assert Ready(a) && Ready(b);
    AnsweredStays(a, b, c, d, id, call);
    hide Ready, NoTools, Screen, DropRequests;
    ReadyIsClean(messages);
    CleanStays(PRemoveEmpty, messages);
    hide RemoveEmpty;
  }

  lemma {:induction false} RequestReachesTheFront(a: Message, b: Message, c: Message, d: Message, id: string, call: nat)
    requires a == Says(Assistant, [ToolRequest(id, call)]) && b == Says(User, [ToolResponse(id, None)])
    requires c.role.Assistant? && d.role.User? && Ready(c) && NoTools(c) && Ready(d) && NoTools(d)
    requires NoThinking(c) && NoThinking(d)
    ensures BeforeLeadTrail([a, b, c, d]) == [a, b, c, d]
  {
    var messages := [a, b, c, d];
    assert Ready(a) && Ready(b);
    AnsweredToolsStay(a, b, c, d, id, call);
    UnsignedFour(messages, id, call);
    hide Ready, NoTools, FixTools, HasToolResponse;
    ReadyReachesTools(messages);
    assert Merging.Separated(messages, false) by {
      assert messages[0].role != messages[1].role && messages[1].role != messages[2].role && messages[2].role != messages[3].role;
    }
    Merging.MergeStaysIffSeparated(messages, false);
  }

  lemma {:induction false} UnsignedFour(messages: seq<Message>, id: string, call: nat)
    requires |messages| == 4 && messages[0].content == [ToolRequest(id, call)] && messages[1].content == [ToolResponse(id, None)]
    requires NoThinking(messages[2]) && NoThinking(messages[3])
    ensures Dedupe(messages, []).0 == messages
  {
    hide Dedupe;
    NoThinkingNoDuplicates(messages);
  }

  lemma {:induction false} EventsOfFour(a: Message, b: Message, c: Message, d: Message, id: string, call: nat)
    requires a == Says(Assistant, [ToolRequest(id, call)]) && b == Says(User, [ToolResponse(id, None)])
    requires NoTools(c) && NoTools(d)
    ensures DistinctRequests(Events([a, b, c, d]))
  {
    NoToolsNoEvents(c.role, c.content);
    NoToolsNoEvents(d.role, d.content);
    hide NoTools;
    var none: seq<Event> := [];
    assert a.content[1..] == [] && b.content[1..] == [];
    NoEvents(Assistant);
    NoEvents(User);
    assert BlockEvents(a.role, a.content[0]) == [Asked(id)] && BlockEvents(b.role, b.content[0]) == [Answered(id)];
    assert MessageEvents(a) == [Asked(id)] + none == [Asked(id)];
    assert MessageEvents(b) == [Answered(id)] + none == [Answered(id)];
    hide ContentEvents;
    var all := [a, b, c, d];
    assert all[1..] == [b, c, d] && [b, c, d][1..] == [c, d] && [c, d][1..] == [d] && [d][1..] == [];
    assert Events([d]) == none + none == none;
    assert Events([c, d]) == none + none == none;
    assert Events([b, c, d]) == [Answered(id)] + none == [Answered(id)];
    assert Events(all) == [Asked(id)] + [Answered(id)];
    OneRequestIsDistinct(id);
    assert Events(all) == [Asked(id), Answered(id)];
  }

  lemma {:induction false} OneRequestIsDistinct(id: string)
    ensures DistinctRequests([Asked(id), Answered(id)])
  {
    assert [Asked(id), Answered(id)][1..] == [Answered(id)] && [Answered(id)][1..] == [];
    assert DistinctRequests([]) && AskedIds([]) == {};
    assert AskedIds([Answered(id)]) == {};
    assert DistinctRequests([Answered(id)]);
  }

  lemma {:induction false} NoToolsNoEvents(role: Role, content: seq<Block>)
    requires forall j :: 0 <= j < |content| ==> content[j].Text? || (role.Assistant? && content[j].Thinking?)
    ensures ContentEvents(role, content) == []
    decreases |content|
  {
    if content != [] {
      NoToolsNoEvents(role, content[1..]);
    }
  }

  lemma {:induction false} AnsweredStays(a: Message, b: Message, c: Message, d: Message, id: string, call: nat)
    requires a == Says(Assistant, [ToolRequest(id, call)]) && b == Says(User, [ToolResponse(id, None)])
    requires NoTools(c) && NoTools(d)
    ensures Screen([a, b, c, d], {}) == ScreenedAll([a, b, c, d], [], {})
    ensures DropRequests([a, b, c, d], {}).0 == [a, b, c, d]
  {
    NoToolsStays(c.role, c.content, {});
    NoToolsStays(d.role, d.content, {});
    hide NoTools;
    RequestThenResponse(id, call);
    assert Screen([], {}) == ScreenedAll([], [], {});
    NothingPendingStays([a, b, c, d]);
    hide Screen, ScreenBlocks, DropRequests;
    ScreenCons(d, [], {}, {});
    ScreenCons(c, [d] + [], {}, {});
    ScreenCons(b, [c] + ([d] + []), {id}, {});
    ScreenCons(a, [b] + ([c] + ([d] + [])), {}, {id});
    assert [a] + ([b] + ([c] + ([d] + []))) == [a, b, c, d];
  }

  lemma {:induction false} RequestThenResponse(id: string, call: nat)
    ensures ScreenBlocks(Assistant, [ToolRequest(id, call)], {}) == Screened([ToolRequest(id, call)], [], {id})
    ensures ScreenBlocks(User, [ToolResponse(id, None)], {id}) == Screened([ToolResponse(id, None)], [], {})
  {
    var r, p := ToolRequest(id, call), ToolResponse(id, None);
    var none: seq<Issue> := [];
    assert [r][1..] == [] && [p][1..] == [] && {} + {id} == {id} && {id} - {id} == {} && none + none == none;
    assert [r] + [] == [r] && [p] + [] == [p];
  }

  lemma {:induction false} NothingPendingContent(content: seq<Block>)
    ensures DropBlocks(content, {}) == (content, [])
    decreases |content|
  {
    if content != [] {
      NothingPendingContent(content[1..]);
      assert [content[0]] + content[1..] == content;
    }
  }

  lemma {:induction false} NothingPendingStays(messages: seq<Message>)
    ensures DropRequests(messages, {}).0 == messages
    decreases |messages|
  {
    if messages != [] {
      NothingPendingContent(messages[0].content);
      NothingPendingStays(messages[1..]);
      assert [messages[0]] + messages[1..] == messages;
    }
  }

  lemma {:induction false} NoThinkingNoDuplicates(messages: seq<Message>)
    requires forall i, j :: 0 <= i < |messages| && 0 <= j < |messages[i].content| ==> !IsSignedThinking(messages[i].content[j])
    ensures Dedupe(messages, []).0 == messages
    decreases |messages|
  {
    if messages != [] {
      var m := messages[0];
      assert forall j :: 0 <= j < |m.content| ==> !IsSignedThinking(m.content[j]);
      UnsignedIsNotDeduped(m.content, []);
      forall i, j | 0 <= i < |messages[1..]| && 0 <= j < |messages[1..][i].content| ensures !IsSignedThinking(messages[1..][i].content[j]) {
        assert messages[1..][i] == messages[i + 1];
      }
      NoThinkingNoDuplicates(messages[1..]);
      assert [m] + messages[1..] == messages;
    }
  }

  lemma {:induction false} UnsignedIsNotDeduped(content: seq<Block>, seen: seq<Block>)
    requires forall j :: 0 <= j < |content| ==> !IsSignedThinking(content[j])
    ensures DedupeBlocks(content, seen) == content && SeenAfter(content, seen) == seen
    decreases |content|
  {
    if content != [] {
      UnsignedIsNotDeduped(content[1..], seen);
    }
  }

  /** When an id is asked for twice, a response can lose its request: both requests are dropped for
      the second one's sake. */
  lemma {:induction false} RepeatedIdLeavesResponse(id: string, call: nat, y: string)
    requires IsWord(y)
    ensures var request, response := Says(Assistant, [ToolRequest(id, call)]), Says(User, [ToolResponse(id, None)]);
            FixTools([request, response, request, Says(User, [Word(y)])]).0 == [response, Says(User, [Word(y)])]
  {
    var r, p := ToolRequest(id, call), ToolResponse(id, None);
    var a, b, d := Says(Assistant, [r]), Says(User, [p]), Says(User, [Word(y)]);
    var none := Says(Assistant, []);
    WordIsReady(d, y);
    NoToolsStays(User, d.content, {id});
    RequestThenResponse(id, call);
    assert Screen([], {id}) == ScreenedAll([], [], {id});
    assert DropBlocks([r], {id}).0 == [] by { assert [r][1..] == []; }
    hide ScreenBlocks, Screen, Ready, NoTools, DropBlocks;
    ScreenCons(d, [], {id}, {id});
    ScreenCons(a, [d] + [], {}, {id});
    ScreenCons(b, [a] + ([d] + []), {id}, {});
    ScreenCons(a, [b] + ([a] + ([d] + [])), {}, {id});
    var messages := [a, b, a, d];
    assert [a] + ([b] + ([a] + ([d] + []))) == messages;
    assert DropRequests(messages, {id}).0 == [none, b, none, d] by {
      assert messages[1..] == [b, a, d] && [b, a, d][1..] == [a, d] && [a, d][1..] == [d] && [d][1..] == [];
      assert DropRequests([d], {id}).0 == [d] + [];
      assert DropRequests([a, d], {id}).0 == [none] + [d];
      assert DropRequests([b, a, d], {id}).0 == [b] + ([none] + [d]);
      assert DropRequests(messages, {id}).0 == [none] + ([b] + ([none] + [d]));
    }
    assert RemoveEmpty([none, b, none, d]).0 == [b, d] by {
      var all := [none, b, none, d];
      assert all[1..] == [b, none, d] && [b, none, d][1..] == [none, d] && [none, d][1..] == [d] && [d][1..] == [];
      assert RemoveEmpty([d]).0 == [d] + [];
      assert RemoveEmpty([none, d]).0 == [d];
      assert RemoveEmpty([b, none, d]).0 == [b] + [d];
    }
  }

  /** Two assistant messages that differ in a flag are not merged, and only one is cut at the front. */
  lemma {:induction false} MixedFlagsLeaveAssistantFirst(x: string, y: string, v: string)
    requires IsWord(x) && IsWord(y) && IsWord(v)
    ensures var messages := [Says(Assistant, [Word(x)]), Says(Assistant, [Word(y)]).(userVisible := false), Says(User, [Word(v)])];
            !ConversationShape.UserAtBothEnds(FixMessages(messages).0)
  {
    hide FixMessages, FixTools, HasToolResponse;
    var a, b, d := Says(Assistant, [Word(x)]), Says(Assistant, [Word(y)]).(userVisible := false), Says(User, [Word(v)]);
    var messages := [a, b, d];
    WordIsReady(a, x);
    WordIsReady(b, y);
    WordIsReady(d, v);
    hide Ready, NoTools, IsWord;
    ReadyReachesTools(messages);
    FixToolsStays(messages);
    assert Merging.Separated(messages, false) by {
      assert messages[0].userVisible != messages[1].userVisible && messages[1].role != messages[2].role;
    }
    Merging.MergeStaysIffSeparated(messages, false);
    WordsAreNotDeduped(messages);
    ConversationShape.EndsAreUserIffSingle(messages);
  }
}
