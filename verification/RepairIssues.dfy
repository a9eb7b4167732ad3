/** What repair reports: one issue for every block it removes or fills, naming its request. */
module RepairIssues {
  import opened Messages
  import opened ConversationPasses
  import opened Grains
  import opened RepairContents
  import TouchingTexts

  /** What is reported of a block that is in the wrong place, or without its partner, or has nothing to show. */
  function IssueFor(g: Grain): Issue {
    if g.Letter? then RemovedEmptyMessage
    else
      match (g.voice.role, g.block)
      case (User, ToolRequest(id, _)) => RemovedRequestFromUser(id)
      case (User, ToolConfirmationRequest(id)) => RemovedConfirmationFromUser(id)
      case (User, ToolResponse(id, _)) => RemovedOrphanedResponse(id)
      case (User, _) => RemovedThinkingFromUser
      case (Assistant, ToolResponse(id, _)) => RemovedResponseFromAssistant(id)
      case (Assistant, FrontendToolRequest(id)) => RemovedFrontendRequest(id)
      case (Assistant, ToolRequest(id, _)) => RemovedOrphanedRequest(id)
      case (Assistant, _) => RemovedEmptyMessage
  }

  /** The issues of the grains that are out, in order. */
  function Reports(grains: seq<Grain>, out: seq<bool>): seq<Issue>
    requires |out| == |grains|
  {
    if grains == [] then [] else (if out[0] then [IssueFor(grains[0])] else []) + Reports(grains[1..], out[1..])
  }

  lemma {:induction false} IssueAssoc(a: seq<Issue>, b: seq<Issue>, c: seq<Issue>)
    ensures a + b + c == a + (b + c)
  {
  }

  lemma {:induction false} ReportsAppend(a: seq<Grain>, b: seq<Grain>, outA: seq<bool>, outB: seq<bool>)
    requires |outA| == |a| && |outB| == |b|
    ensures Reports(a + b, outA + outB) == Reports(a, outA) + Reports(b, outB)
    decreases |a|
  {
    hide IssueFor;
    if a == [] {
      assert a + b == b && outA + outB == outB;
    } else {
      assert (a + b)[1..] == a[1..] + b && (outA + outB)[1..] == outA[1..] + outB;
      ReportsAppend(a[1..], b, outA[1..], outB);
      IssueAssoc(if outA[0] then [IssueFor(a[0])] else [], Reports(a[1..], outA[1..]), Reports(b, outB));
    }
  }

  lemma {:induction false} NothingReported(grains: seq<Grain>, out: seq<bool>)
    requires |out| == |grains| && forall p :: 0 <= p < |out| ==> !out[p]
    ensures Reports(grains, out) == []
    decreases |grains|
  {
    if grains != [] {
      NothingReported(grains[1..], out[1..]);
    }
  }

  lemma {:induction false} OneReport(g: Grain, out: bool)
    ensures Reports([g], [out]) == if out then [IssueFor(g)] else []
  {
    assert [g][1..] == [] && [out][1..] == [];
  }

  // ---------- the first loop ----------

  lemma {:induction false} ScreenBlockReports(v: Voice, b: Block, pending: set<string>)
    ensures var grains := BlockGrains(v, b);
            |ScreenedOut(grains, pending)| == |grains| && Reports(grains, ScreenedOut(grains, pending)) == AsSeq(ScreenIssue(v.role, b, pending))
  {
    var grains := BlockGrains(v, b);
    if b.Text? {
      NothingReported(grains, ScreenedOut(grains, pending));
    } else {
      assert PendingAt(grains, pending, 0) == pending;
      assert ScreenedOut(grains, pending) == [ScreenIssue(v.role, b, pending).Some?];
      OneReport(grains[0], ScreenIssue(v.role, b, pending).Some?);
    }
  }

  lemma {:induction false} ScreenContentReports(v: Voice, content: seq<Block>, pending: set<string>)
    ensures var grains := ContentGrains(v, content);
            && |ScreenedOut(grains, pending)| == |grains|
            && ScreenBlocks(v.role, content, pending).issues == Reports(grains, ScreenedOut(grains, pending))
    decreases |content|
  {
    if content == [] {
      assert ContentGrains(v, content) == [];
      ScreenedSize([], pending);
      NothingReported([], ScreenedOut([], pending));
    } else {
      var b, first, rest := content[0], BlockGrains(v, content[0]), ContentGrains(v, content[1..]);
      var pending' := PendingAfter(v.role, b, pending);
      ScreenBlockReports(v, b, pending);
      ScreenBlockGrains(v, b, pending);
      ScreenContentReports(v, content[1..], pending');
      hide ScreenIssue, PendingAfter, BlockGrains, PendingAt, ScreenedOut, Reports;
      ScreenedAppend(first, rest, pending);
      ReportsAppend(first, rest, ScreenedOut(first, pending), ScreenedOut(rest, pending'));
    }
  }

  lemma {:induction false} ScreenReports(messages: seq<Message>, pending: set<string>)
    ensures var grains := GrainsOf(messages);
            && |ScreenedOut(grains, pending)| == |grains|
            && Screen(messages, pending).issues == Reports(grains, ScreenedOut(grains, pending))
    decreases |messages|
  {
    hide ScreenBlocks, ContentGrains, PendingAt, ScreenedOut, Reports;
    if messages == [] {
      ScreenedSize([], pending);
      NothingReported([], ScreenedOut([], pending));
    } else {
      var m, v := messages[0], VoiceOf(messages[0]);
      var first, rest := ContentGrains(v, m.content), GrainsOf(messages[1..]);
      var screened := ScreenBlocks(m.role, m.content, pending);
      ScreenContentReports(v, m.content, pending);
      ScreenContentGrains(v, m.content, pending);
      ScreenReports(messages[1..], screened.pending);
      ScreenedAppend(first, rest, pending);
      ReportsAppend(first, rest, ScreenedOut(first, pending), ScreenedOut(rest, screened.pending));
    }
  }

  // ---------- the second loop ----------

  lemma {:induction false} DropBlockReports(v: Voice, b: Block, ids: set<string>)
    ensures var grains := BlockGrains(v, b);
            && |Dropped(grains, ids)| == |grains|
            && Reports(grains, Dropped(grains, ids)) ==
               if v.role.Assistant? && b.ToolRequest? && b.id in ids then [RemovedOrphanedRequest(b.id)] else []
  {
    var grains := BlockGrains(v, b);
    if b.Text? {
      NothingReported(grains, Dropped(grains, ids));
    } else {
      assert Dropped(grains, ids) == [Drops(grains[0], ids)];
      OneReport(grains[0], Drops(grains[0], ids));
    }
  }

  lemma {:induction false} DroppedSplit(a: seq<Grain>, b: seq<Grain>, ids: set<string>)
    ensures Reports(a + b, Dropped(a + b, ids)) == Reports(a, Dropped(a, ids)) + Reports(b, Dropped(b, ids))
  {
    DroppedAppend(a, b, ids);
    ReportsAppend(a, b, Dropped(a, ids), Dropped(b, ids));
  }

  lemma {:induction false} DropContentReports(v: Voice, content: seq<Block>, ids: set<string>)
    ensures var grains := ContentGrains(v, content);
            Reports(grains, Dropped(grains, ids)) == if v.role.Assistant? then DropBlocks(content, ids).1 else []
    decreases |content|
  {
    if content != [] {
      DropBlockReports(v, content[0], ids);
      DropContentReports(v, content[1..], ids);
      hide BlockGrains, Reports, Dropped;
      DroppedSplit(BlockGrains(v, content[0]), ContentGrains(v, content[1..]), ids);
    } else {
      assert Dropped([], ids) == [];
    }
  }

  lemma {:induction false} DropReports(messages: seq<Message>, ids: set<string>)
    ensures DropRequests(messages, ids).1 == Reports(GrainsOf(messages), Dropped(GrainsOf(messages), ids))
    decreases |messages|
  {
    hide DropBlocks, ContentGrains, Reports;
    if messages == [] {
      assert Dropped([], ids) == [];
      NothingReported([], []);
    } else {
      var m, v := messages[0], VoiceOf(messages[0]);
      DropContentReports(v, m.content, ids);
      DropReports(messages[1..], ids);
      hide Dropped;
      DroppedSplit(ContentGrains(v, m.content), GrainsOf(messages[1..]), ids);
    }
  }

  // ---------- the pass ----------

  /** Blocks in the wrong place and responses without a request, which the first loop removes. */
  ghost predicate IsMisplaced(grains: seq<Grain>, p: nat)
    requires p < |grains|
  {
    ToolIsOut(grains, p) && !(grains[p].voice.role.Assistant? && grains[p].block.ToolRequest?)
  }

  /** Requests that stay without a response, which the second loop removes. */
  ghost predicate IsUnanswered(grains: seq<Grain>, p: nat)
    requires p < |grains|
  {
    ToolIsOut(grains, p) && grains[p].voice.role.Assistant? && grains[p].block.ToolRequest?
  }

  ghost function Misplaced(grains: seq<Grain>): (out: seq<bool>)
    ensures |out| == |grains|
  {
    seq(|grains|, p requires 0 <= p < |grains| => IsMisplaced(grains, p))
  }

  ghost function Unanswered(grains: seq<Grain>): (out: seq<bool>)
    ensures |out| == |grains|
  {
    seq(|grains|, p requires 0 <= p < |grains| => IsUnanswered(grains, p))
  }

  /** The reports on what a first removal leaves are those of the whole, when it leaves what they are about. */
  lemma {:induction false} ReportsOfKept(grains: seq<Grain>, gone: seq<bool>, ids: set<string>, out: seq<bool>)
    requires |gone| == |grains| == |out|
    requires forall p :: 0 <= p < |grains| ==> (out[p] <==> !gone[p] && Drops(grains[p], ids))
    ensures var kept := TouchingTexts.Kept(grains, gone); Reports(kept, Dropped(kept, ids)) == Reports(grains, out)
    decreases |grains|
  {
    hide Drops, IssueFor;
    if grains == [] {
      assert Dropped([], ids) == [];
    } else {
      ReportsOfKept(grains[1..], gone[1..], ids, out[1..]);
      var kept := TouchingTexts.Kept(grains[1..], gone[1..]);
      if gone[0] {
        assert [] + Reports(grains[1..], out[1..]) == Reports(grains[1..], out[1..]);
      } else {
        DroppedSplit([grains[0]], kept, ids);
        assert Dropped([grains[0]], ids) == [Drops(grains[0], ids)];
        OneReport(grains[0], Drops(grains[0], ids));
      }
    }
  }

  /** `fix_tool_calling` reports, in order, every block in the wrong place and every response without a
      request, then every request without a response, each with its id, and then the empty messages. */
  lemma {:induction false} ToolIssuesNameWhatGoes(messages: seq<Message>)
    ensures var grains, issues := GrainsOf(messages), FixTools(messages).1;
            var named := Reports(grains, Misplaced(grains)) + Reports(grains, Unanswered(grains));
            named <= issues && forall k :: |named| <= k < |issues| ==> issues[k] == RemovedEmptyMessage
  {
    var grains := GrainsOf(messages);
    var screened := Screen(messages, {});
    var dropped := DropRequests(screened.messages, screened.pending);
    ScreenReports(messages, {});
    ScreenGrains(messages, {});
    DropReports(screened.messages, screened.pending);
    RemoveEmptyReports(dropped.0);
    hide Screen, DropRequests, RemoveEmpty, GrainsOf, PendingAt, OpenAt, Reports;
    forall p: nat | p < |grains|
      ensures Misplaced(grains)[p] <==> ScreenedOut(grains, {})[p]
      ensures Unanswered(grains)[p] <==> !ScreenedOut(grains, {})[p] && Drops(grains[p], screened.pending)
    {
      if grains[p].Whole? && (grains[p].block.ToolResponse? || grains[p].block.ToolRequest?) {
        PendingIsOpen(grains, p, grains[p].block.id);
        PendingIsOpen(grains, |grains|, grains[p].block.id);
      }
    }
    assert Misplaced(grains) == ScreenedOut(grains, {});
    ReportsOfKept(grains, ScreenedOut(grains, {}), screened.pending, Unanswered(grains));
  }

  lemma {:induction false} RemoveEmptyReports(messages: seq<Message>)
    ensures forall k :: 0 <= k < |RemoveEmpty(messages).1| ==> RemoveEmpty(messages).1[k] == RemovedEmptyMessage
    decreases |messages|
  {
    if messages != [] {
      RemoveEmptyReports(messages[1..]);
    }
  }

  // ---------- empty tool results ----------

  predicate IsFilled(g: Grain) {
    g.Whole? && WithPlaceholder(g.block) != g.block
  }

  /** The ids of the results that get the placeholder, in order. */
  function FilledIssues(grains: seq<Grain>): seq<Issue> {
    if grains == [] then []
    else (if IsFilled(grains[0]) && grains[0].block.ToolResponse? then [AddedResultPlaceholder(grains[0].block.id)] else []) + FilledIssues(grains[1..])
  }

  lemma {:induction false} FilledIssuesAppend(a: seq<Grain>, b: seq<Grain>)
    ensures FilledIssues(a + b) == FilledIssues(a) + FilledIssues(b)
    decreases |a|
  {
    hide IsFilled;
    if a == [] {
      assert a + b == b;
    } else {
      assert (a + b)[1..] == a[1..] + b;
      FilledIssuesAppend(a[1..], b);
    }
  }

  lemma {:induction false} FilledBlockIssues(v: Voice, b: Block)
    ensures FilledIssues(BlockGrains(v, b)) == BlockIssues(FillResults, b)
  {
    var grains := BlockGrains(v, b);
    if b.Text? {
      NoFilledLetters(grains);
    } else {
      assert grains[1..] == [];
      if b.ToolResponse? && b.result.Some? {
        ShowsSomethingIff(b.result.value);
        assert |b.result.value + [TextItem("(empty result)")]| != |b.result.value|;
      }
    }
  }

  lemma {:induction false} NoFilledLetters(grains: seq<Grain>)
    requires forall p :: 0 <= p < |grains| ==> grains[p].Letter?
    ensures FilledIssues(grains) == []
    decreases |grains|
  {
    if grains != [] {
      NoFilledLetters(grains[1..]);
    }
  }

  lemma {:induction false} FilledContentIssues(v: Voice, content: seq<Block>)
    ensures TidyBlocks(FillResults, content).1 == FilledIssues(ContentGrains(v, content))
    decreases |content|
  {
    hide BlockGrains, BlockIssues;
    if content != [] {
      FilledBlockIssues(v, content[0]);
      FilledContentIssues(v, content[1..]);
      FilledIssuesAppend(BlockGrains(v, content[0]), ContentGrains(v, content[1..]));
    }
  }

  /** `fix_empty_tool_results` reports exactly the results that it fills, by their ids and in order. */
  lemma {:induction false} PlaceholderIssuesNameTheResults(messages: seq<Message>)
    ensures Tidy(FillResults, messages).1 == FilledIssues(GrainsOf(messages))
    decreases |messages|
  {
    hide TidyBlocks, MergeBlocks, ContentGrains;
    if messages != [] {
      var m, v := messages[0], VoiceOf(messages[0]);
      FilledContentIssues(v, m.content);
      PlaceholderIssuesNameTheResults(messages[1..]);
      FilledIssuesAppend(ContentGrains(v, m.content), GrainsOf(messages[1..]));
    }
  }
}
