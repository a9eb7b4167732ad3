/** What a second run of the repair can still find: nothing for five of the nine passes. */
module RepairStability {
  import opened Text
  import opened Messages
  import opened ConversationPasses
  import opened ConversationRepair
  import opened ToolPlaces
  import Merging
  import ToolPairing
  import ConversationShape

  // ---------- no issue means no issue in any pass ----------

  predicate CleanFor(pass: Pass, messages: seq<Message>) {
    RunPass(pass, messages).1 == []
  }

  lemma {:induction false} CleanStays(pass: Pass, messages: seq<Message>)
    requires CleanFor(pass, messages)
    ensures RunPass(pass, messages) == (messages, [])
  {
    if !pass.PPopulate? {
      PassShrinks(pass, messages);
    }
  }

  lemma {:induction false} NoIssueIffClean(n: nat, messages: seq<Message>)
    requires n <= 9
    ensures RunPasses(n, messages).1 == [] <==> forall i: nat :: i < n ==> CleanFor(PassAt(i), messages)
    ensures RunPasses(n, messages).1 == [] ==> RunPasses(n, messages).0 == messages
    decreases n
  {
    hide RunPass, PassAt;
    if n > 0 {
      NoIssueIffClean(n - 1, messages);
      if RunPasses(n - 1, messages).1 == [] && CleanFor(PassAt(n - 1), messages) {
        CleanStays(PassAt(n - 1), messages);
      }
    }
  }

  // ---------- what no pass can find in a repaired list ----------

  predicate TrimmedBlock(role: Role, b: Block) {
    role.Assistant? ==> BlockIssues(TrimText, b) == []
  }

  predicate FilledBlock(role: Role, b: Block) {
    BlockIssues(FillResults, b) == []
  }

  lemma {:induction false} TidyBlocksTidies(pass: MessagePass, content: seq<Block>)
    ensures forall j :: 0 <= j < |TidyBlocks(pass, content).0| ==> BlockIssues(pass, TidyBlocks(pass, content).0[j]) == []
    ensures pass.FillResults? && AllBlocks(TrimmedBlock, Assistant, content) ==>
      AllBlocks(TrimmedBlock, Assistant, TidyBlocks(pass, content).0)
    decreases |content|
  {
    if content != [] {
      TidyBlocksTidies(pass, content[1..]);
      if content[0].Text? {
        TrimEndTwice(content[0].text);
      }
      if IsEmptyResult(content[0]) {
        FilledIsNotEmpty(content[0].result.value);
      }
    }
  }

  lemma {:induction false} TidyTrims(messages: seq<Message>)
    ensures Everywhere(TrimmedBlock, Tidy(TrimText, messages).0)
    decreases |messages|
  {
    hide TidyBlocks;
    if messages != [] {
      TidyTrims(messages[1..]);
      TidyBlocksTidies(TrimText, messages[0].content);
    }
  }

  lemma {:induction false} TidyFills(messages: seq<Message>)
    ensures Everywhere(FilledBlock, Tidy(FillResults, messages).0)
    ensures Everywhere(TrimmedBlock, messages) ==> Everywhere(TrimmedBlock, Tidy(FillResults, messages).0)
    decreases |messages|
  {
    hide TidyBlocks;
    if messages != [] {
      TidyFills(messages[1..]);
      TidyBlocksTidies(FillResults, messages[0].content);
    }
  }

  lemma {:induction false} TidyContentIsClean(pass: MessagePass, content: seq<Block>)
    requires forall j :: 0 <= j < |content| ==> BlockIssues(pass, content[j]) == []
    ensures TidyBlocks(pass, content).1 == []
    decreases |content|
  {
    if content != [] {
      TidyContentIsClean(pass, content[1..]);
    }
  }

  lemma {:induction false} TidyIsClean(pass: MessagePass, messages: seq<Message>)
    requires (pass.TrimText? && Everywhere(TrimmedBlock, messages)) || (pass.FillResults? && Everywhere(FilledBlock, messages))
    ensures CleanFor(PTidy(pass), messages)
    decreases |messages|
  {
    hide TidyBlocks;
    if messages != [] {
      var m := messages[0];
      if pass.FillResults? || m.role.Assistant? {
        assert pass.TrimText? ==> AllBlocks(TrimmedBlock, m.role, m.content);
        assert pass.FillResults? ==> AllBlocks(FilledBlock, m.role, m.content);
        TidyContentIsClean(pass, m.content);
      }
      TidyIsClean(pass, messages[1..]);
    }
  }

  lemma {:induction false} RepairedIsTidy(messages: seq<Message>)
    ensures CleanFor(PTidy(TrimText), FixMessages(messages).0) && CleanFor(PTidy(FillResults), FixMessages(messages).0)
  {
    hide Tidy, RemoveEmpty, FixTools, FixMessages, Everywhere, CleanFor;
    var m2 := Tidy(TrimText, Tidy(MergeText, messages).0).0;
    var m3 := RemoveEmpty(m2).0;
    var m4 := Tidy(FillResults, m3).0;
    TidyTrims(Tidy(MergeText, messages).0);
    RemoveEmptyKeeps(TrimmedBlock, m2);
    TidyFills(m3);
    FixToolsKeeps(TrimmedBlock, m4);
    FixToolsKeeps(FilledBlock, m4);
    LaterPassesKeep(TrimmedBlock, FixTools(m4).0);
    LaterPassesKeep(FilledBlock, FixTools(m4).0);
    ToolPairing.PassesInOrder(messages);
    TidyIsClean(TrimText, FixMessages(messages).0);
    TidyIsClean(FillResults, FixMessages(messages).0);
  }

  // ---------- merging ----------

  lemma {:induction false} RepairedIsMerged(messages: seq<Message>)
    ensures CleanFor(PMerge, FixMessages(messages).0)
  {
    hide FixMessages, HasToolResponse, ToolPairing.BeforeLeadTrail;
    var before := ToolPairing.BeforeLeadTrail(messages);
    ConversationShape.BeforeCutIsSeparated(messages);
    EndsStaySeparated(before);
    Merging.MergeStaysIffSeparated(Populate(LeadTrail(before).0).0, false);
    ToolPairing.PassesInOrder(messages);
  }

  lemma {:induction false} EndsStaySeparated(messages: seq<Message>)
    requires Merging.Separated(messages, false)
    ensures Merging.Separated(Populate(LeadTrail(messages).0).0, false)
  {
    hide Joins;
    var led := FixLead(messages).0;
    forall i | 0 <= i < |led| - 1 ensures !Joins(led[i], led[i + 1], false) {
      var shift := if led == messages then 0 else 1;
      assert led[i] == messages[i + shift] && led[i + 1] == messages[i + 1 + shift];
    }
  }

  // ---------- duplicate thinking ----------

  predicate Within(a: seq<Block>, b: seq<Block>) {
    forall x :: x in a ==> x in b
  }

  lemma {:induction false} DedupeBlocksAgain(content: seq<Block>, seen: seq<Block>)
    ensures DedupeBlocks(DedupeBlocks(content, seen), seen) == DedupeBlocks(content, seen)
    ensures SeenAfter(DedupeBlocks(content, seen), seen) == SeenAfter(content, seen)
    decreases |content|
  {
    if content != [] {
      var b, rest := content[0], content[1..];
      var seen' := if IsSignedThinking(b) && b !in seen then seen + [b] else seen;
      DedupeBlocksAgain(rest, seen');
      var kept := DedupeBlocks(rest, seen');
      assert ([b] + kept)[1..] == kept;
    }
  }

  lemma {:induction false} DedupeAgain(messages: seq<Message>, seen: seq<Block>)
    ensures Dedupe(Dedupe(messages, seen).0, seen).1 == []
    decreases |messages|
  {
    hide DedupeBlocks, SeenAfter;
    if messages != [] {
      var m := messages[0];
      var seen' := if m.role.User? then seen else SeenAfter(m.content, seen);
      var m' := if m.role.User? then m else m.(content := DedupeBlocks(m.content, seen));
      DedupeBlocksAgain(m.content, seen);
      DedupeAgain(messages[1..], seen');
      var rest := Dedupe(messages[1..], seen').0;
      assert ([m'] + rest)[1..] == rest;
    }
  }

  /** Fewer seen blocks make no new duplicate. */
  lemma {:induction false} FewerSeenContent(content: seq<Block>, seen: seq<Block>, fewer: seq<Block>)
    requires Within(fewer, seen) && |DedupeBlocks(content, seen)| == |content|
    ensures |DedupeBlocks(content, fewer)| == |content| && Within(SeenAfter(content, fewer), SeenAfter(content, seen))
    decreases |content|
  {
    if content != [] {
      var b, rest := content[0], content[1..];
      DedupeBlocksShrink(rest, seen);
      if IsSignedThinking(b) {
        FewerSeenContent(rest, seen + [b], fewer + [b]);
      } else {
        FewerSeenContent(rest, seen, fewer);
      }
    }
  }

  lemma {:induction false} FewerSeen(messages: seq<Message>, seen: seq<Block>, fewer: seq<Block>)
    requires Within(fewer, seen) && Dedupe(messages, seen).1 == []
    ensures Dedupe(messages, fewer).1 == []
    decreases |messages|
  {
    hide DedupeBlocks, SeenAfter, Within;
    if messages != [] {
      var m := messages[0];
      if m.role.User? {
        FewerSeen(messages[1..], seen, fewer);
      } else {
        FewerSeenContent(m.content, seen, fewer);
        FewerSeen(messages[1..], SeenAfter(m.content, seen), SeenAfter(m.content, fewer));
      }
    }
  }

  lemma {:induction false} FrontHasNoDuplicates(front: seq<Message>, last: Message, seen: seq<Block>)
    requires Dedupe(front + [last], seen).1 == []
    ensures Dedupe(front, seen).1 == []
    decreases |front|
  {
    hide DedupeBlocks, SeenAfter;
    if front != [] {
      assert (front + [last])[1..] == front[1..] + [last];
      FrontHasNoDuplicates(front[1..], last, if front[0].role.User? then seen else SeenAfter(front[0].content, seen));
    }
  }

  lemma {:induction false} EndsStayDeduped(messages: seq<Message>)
    requires Dedupe(messages, []).1 == []
    ensures Dedupe(LeadTrail(messages).0, []).1 == []
  {
    hide DedupeBlocks, SeenAfter;
    var led := FixLead(messages).0;
    if messages != [] && messages[0].role.Assistant? {
      FewerSeen(messages[1..], SeenAfter(messages[0].content, []), []);
    }
    if led != [] && led[|led| - 1].role.Assistant? {
      assert led == led[..|led| - 1] + [led[|led| - 1]];
      FrontHasNoDuplicates(led[..|led| - 1], led[|led| - 1], []);
    }
  }

  lemma {:induction false} RepairedIsDeduped(messages: seq<Message>)
    ensures CleanFor(PDedupe, FixMessages(messages).0)
  {
    hide Tidy, RemoveEmpty, FixTools, FixMessages, MergeConsecutive, Dedupe, LeadTrail;
    var m6 := MergeConsecutive(FixTools(Tidy(FillResults, RemoveEmpty(Tidy(TrimText, Tidy(MergeText, messages).0).0).0).0).0, false).0;
    DedupeAgain(m6, []);
    EndsStayDeduped(Dedupe(m6, []).0);
    ToolPairing.PassesInOrder(messages);
    PlaceholderIsDeduped();
  }

  lemma {:induction false} PlaceholderIsDeduped()
    ensures Dedupe([PLACEHOLDER], []).1 == []
  {
    PlaceholderStays(PDedupe);
  }

  // ---------- what a second run may still find ----------

  /** Five of the nine passes never have anything left to do on a repaired list. */
  lemma {:induction false} FivePassesStayClean(messages: seq<Message>)
    ensures var fixed := FixMessages(messages).0;
            && CleanFor(PTidy(TrimText), fixed) && CleanFor(PTidy(FillResults), fixed)
            && CleanFor(PMerge, fixed) && CleanFor(PDedupe, fixed) && CleanFor(PPopulate, fixed)
  {
    hide CleanFor, FixMessages;
    RepairedIsTidy(messages);
    RepairedIsMerged(messages);
    RepairedIsDeduped(messages);
    RepairedIsPopulated(messages);
  }

  /** So the other four decide whether a second run has something to report. */
  lemma {:induction false} FourPassesDecide(messages: seq<Message>)
    ensures var fixed := FixMessages(messages).0;
            FixMessages(fixed).1 == [] <==>
              && CleanFor(PTidy(MergeText), fixed) && CleanFor(PRemoveEmpty, fixed)
              && CleanFor(PFixTools, fixed) && CleanFor(PLeadTrail, fixed)
  {
    hide CleanFor, FixMessages, RunPasses;
    var fixed := FixMessages(messages).0;
    FivePassesStayClean(messages);
    NoIssueIffClean(9, fixed);
    FixMessagesIsPasses(fixed);
    if CleanFor(PassAt(0), fixed) && CleanFor(PassAt(2), fixed) && CleanFor(PassAt(4), fixed) && CleanFor(PassAt(7), fixed) {
      forall i: nat | i < 9 ensures CleanFor(PassAt(i), fixed) {}
    }
    assert PassAt(0) == PTidy(MergeText) && PassAt(2) == PRemoveEmpty && PassAt(4) == PFixTools && PassAt(7) == PLeadTrail;
  }

  lemma {:induction false} FixMessagesIsPasses(messages: seq<Message>)
    ensures FixMessages(messages) == RunPasses(9, messages)
  {
  }

  lemma {:induction false} RepairedIsPopulated(messages: seq<Message>)
    ensures CleanFor(PPopulate, FixMessages(messages).0)
  {
    hide FixMessages;
    ToolPairing.PassesInOrder(messages);
  }
}
