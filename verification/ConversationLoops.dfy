/** The passes that change vectors and sets in loops, as the source writes them, proved against the
    functions of `ConversationPasses`. */
module ConversationLoops {
  import opened Text
  import opened Messages
  import opened ConversationPasses

  // ---------- removing blocks by index, last first ----------

  function RemoveAt<T>(s: seq<T>, i: nat): seq<T>
    requires i < |s|
  {
    s[..i] + s[i + 1..]
  }

  predicate Ascending(indices: seq<nat>, bound: nat) {
    && (forall j :: 0 <= j < |indices| ==> indices[j] < bound)
    && forall j, k :: 0 <= j < k < |indices| ==> indices[j] < indices[k]
  }

  function Without<T>(s: seq<T>, indices: seq<nat>): seq<T>
    requires Ascending(indices, |s|)
    decreases |indices|
  {
    if indices == [] then s
    else
      var last := |indices| - 1;
      Without(RemoveAt(s, indices[last]), indices[..last])
  }

  lemma {:induction false} WithoutKeepsTail<T>(s: seq<T>, x: T, indices: seq<nat>)
    requires Ascending(indices, |s|)
    ensures Ascending(indices, |s + [x]|) && Without(s + [x], indices) == Without(s, indices) + [x]
    decreases |indices|
  {
    if indices != [] {
      var last := |indices| - 1;
      assert RemoveAt(s + [x], indices[last]) == RemoveAt(s, indices[last]) + [x];
      WithoutKeepsTail(RemoveAt(s, indices[last]), x, indices[..last]);
    }
  }

  lemma {:induction false} WithoutTheLast<T>(s: seq<T>, x: T, indices: seq<nat>)
    requires Ascending(indices, |s|)
    ensures Ascending(indices + [|s|], |s + [x]|) && Without(s + [x], indices + [|s|]) == Without(s, indices)
  {
    assert RemoveAt(s + [x], |s|) == s;
    assert (indices + [|s|])[..|indices|] == indices;
  }

  /** One index further: the block there is kept, or its index is collected. */
  lemma {:induction false} WithoutStep(content: seq<Block>, i: nat, indices: seq<nat>)
    requires i < |content| && Ascending(indices, i)
    ensures Ascending(indices, i + 1) && Ascending(indices + [i], i + 1)
    ensures Without(content[..i + 1], indices) == Without(content[..i], indices) + [content[i]]
    ensures Without(content[..i + 1], indices + [i]) == Without(content[..i], indices)
  {
    assert content[..i + 1] == content[..i] + [content[i]];
    WithoutKeepsTail(content[..i], content[i], indices);
    WithoutTheLast(content[..i], content[i], indices);
  }

  method RemoveIndices(content: seq<Block>, toRemove: seq<nat>) returns (kept: seq<Block>)
    requires Ascending(toRemove, |content|)
    ensures kept == Without(content, toRemove)
  {
    kept := content;
    var j := |toRemove|;
    assert toRemove[..j] == toRemove;
    while j > 0
      invariant 0 <= j <= |toRemove| && Ascending(toRemove[..j], |kept|)
      invariant Without(content, toRemove) == Without(kept, toRemove[..j])
    {
      assert toRemove[..j][..j - 1] == toRemove[..j - 1];
      kept := RemoveAt(kept, toRemove[j - 1]);
      j := j - 1;
    }
  }

  // ---------- fix_tool_calling ----------

  /** One block further in `ScreenBlocks`. */
  lemma {:induction false} ScreenStep(role: Role, content: seq<Block>, i: nat, pending: set<string>, kept: seq<Block>, issues: seq<Issue>)
    requires i < |content|
    ensures var b := content[i];
            var issue := ScreenIssue(role, b, pending);
            var rest := ScreenBlocks(role, content[i + 1..], PendingAfter(role, b, pending));
            var all := ScreenBlocks(role, content[i..], pending);
            && kept + all.content == (if issue.None? then kept + [b] else kept) + rest.content
            && issues + all.issues == issues + AsSeq(issue) + rest.issues
            && all.pending == rest.pending
  {
    assert content[i..][1..] == content[i + 1..];
  }

  /** What one block of a message means for it and for the unanswered requests. */
  method ScreenBlock(role: Role, b: Block, pendingBefore: set<string>) returns (issue: Option<Issue>, pending: set<string>)
    ensures issue == ScreenIssue(role, b, pendingBefore) && pending == PendingAfter(role, b, pendingBefore)
  {
    issue, pending := None, pendingBefore;
    match role {
      case User =>
        match b {
          case ToolRequest(id, _) => issue := Some(RemovedRequestFromUser(id));
          case ToolConfirmationRequest(id) => issue := Some(RemovedConfirmationFromUser(id));
          case Thinking(_, _) => issue := Some(RemovedThinkingFromUser);
          case RedactedThinking(_) => issue := Some(RemovedThinkingFromUser);
          case ToolResponse(id, _) =>
            if id in pending {
              pending := pending - {id};
            } else {
              issue := Some(RemovedOrphanedResponse(id));
            }
          case _ =>
        }
      case Assistant =>
        match b {
          case ToolResponse(id, _) => issue := Some(RemovedResponseFromAssistant(id));
          case FrontendToolRequest(id) => issue := Some(RemovedFrontendRequest(id));
          case ToolRequest(id, _) => pending := pending + {id};
          case _ =>
        }
    }
  }

  /** Up to block `idx` the loop has collected the blocks to remove, and has these issues and requests. */
  ghost predicate ScreenedTo(role: Role, content: seq<Block>, before: set<string>, idx: nat,
                             toRemove: seq<nat>, issues: seq<Issue>, pending: set<string>)
  {
    && idx <= |content| && Ascending(toRemove, idx)
    && var whole, rest := ScreenBlocks(role, content, before), ScreenBlocks(role, content[idx..], pending);
       && whole.content == Without(content[..idx], toRemove) + rest.content
       && whole.issues == issues + rest.issues && whole.pending == rest.pending
  }

  lemma {:induction false} ScreenedStart(role: Role, content: seq<Block>, before: set<string>)
    ensures ScreenedTo(role, content, before, 0, [], [], before)
  {
    assert content[0..] == content && content[..0] == [];
  }

  lemma {:induction false} ScreenedEnd(role: Role, content: seq<Block>, before: set<string>, toRemove: seq<nat>,
                                       issues: seq<Issue>, pending: set<string>)
    requires ScreenedTo(role, content, before, |content|, toRemove, issues, pending)
    ensures Ascending(toRemove, |content|)
    ensures ScreenBlocks(role, content, before) == Screened(Without(content, toRemove), issues, pending)
  {
    assert content[..|content|] == content && content[|content|..] == [];
  }

  lemma {:induction false} ScreenedNext(role: Role, content: seq<Block>, before: set<string>, idx: nat,
                                        toRemove: seq<nat>, issues: seq<Issue>, pending: set<string>)
    requires ScreenedTo(role, content, before, idx, toRemove, issues, pending) && idx < |content|
    ensures var b := content[idx];
            var issue := ScreenIssue(role, b, pending);
            ScreenedTo(role, content, before, idx + 1, if issue.Some? then toRemove + [idx] else toRemove,
                       issues + AsSeq(issue), PendingAfter(role, b, pending))
  {
    ScreenStep(role, content, idx, pending, Without(content[..idx], toRemove), issues);
    WithoutStep(content, idx, toRemove);
    hide Without, ScreenBlocks, ScreenIssue, PendingAfter, Ascending;
  }

  method ScreenMessage(role: Role, content: seq<Block>, pendingBefore: set<string>)
    returns (kept: seq<Block>, issues: seq<Issue>, pending: set<string>)
    ensures var screened := ScreenBlocks(role, content, pendingBefore);
            kept == screened.content && issues == screened.issues && pending == screened.pending
  {
    hide ScreenIssue, PendingAfter, ScreenedTo, ScreenBlocks, Without, Ascending;
    var contentToRemove: seq<nat> := [];
    issues, pending := [], pendingBefore;
    ScreenedStart(role, content, pendingBefore);
    var idx := 0;
    while idx < |content|
      invariant 0 <= idx <= |content|
      invariant ScreenedTo(role, content, pendingBefore, idx, contentToRemove, issues, pending)
    {
      ScreenedNext(role, content, pendingBefore, idx, contentToRemove, issues, pending);
      var issue;
      issue, pending := ScreenBlock(role, content[idx], pending);
      if issue.Some? {
        contentToRemove := contentToRemove + [idx];
        issues := issues + [issue.value];
      } else {
        assert issues + [] == issues;
      }
      idx := idx + 1;
    }
    ScreenedEnd(role, content, pendingBefore, contentToRemove, issues, pending);
    kept := RemoveIndices(content, contentToRemove);
  }

  /** The same for the requests of the second loop. */
  ghost predicate DroppedTo(content: seq<Block>, pending: set<string>, idx: nat, toRemove: seq<nat>, issues: seq<Issue>) {
    && idx <= |content| && Ascending(toRemove, idx)
    && var whole, rest := DropBlocks(content, pending), DropBlocks(content[idx..], pending);
       && whole.0 == Without(content[..idx], toRemove) + rest.0
       && whole.1 == issues + rest.1
  }

  lemma {:induction false} DroppedNext(content: seq<Block>, pending: set<string>, idx: nat, toRemove: seq<nat>, issues: seq<Issue>)
    requires DroppedTo(content, pending, idx, toRemove, issues) && idx < |content|
    ensures var b := content[idx];
            if b.ToolRequest? && b.id in pending then
              DroppedTo(content, pending, idx + 1, toRemove + [idx], issues + [RemovedOrphanedRequest(b.id)])
            else
              DroppedTo(content, pending, idx + 1, toRemove, issues)
  {
    DropStep(content, idx, pending, Without(content[..idx], toRemove), issues);
    WithoutStep(content, idx, toRemove);
    hide Without, DropBlocks, Ascending;
  }

  lemma {:induction false} DroppedEnds(content: seq<Block>, pending: set<string>, toRemove: seq<nat>, issues: seq<Issue>)
    ensures DroppedTo(content, pending, 0, [], [])
    ensures DroppedTo(content, pending, |content|, toRemove, issues) ==>
              Ascending(toRemove, |content|) && DropBlocks(content, pending) == (Without(content, toRemove), issues)
  {
    assert content[0..] == content && content[..0] == [];
    assert content[..|content|] == content && content[|content|..] == [];
    if DroppedTo(content, pending, |content|, toRemove, issues) {
      assert DropBlocks(content, pending).0 == Without(content, toRemove) + [] == Without(content, toRemove);
      assert DropBlocks(content, pending).1 == issues + [] == issues;
    }
  }

  method DropFromMessage(content: seq<Block>, pending: set<string>) returns (kept: seq<Block>, issues: seq<Issue>)
    ensures kept == DropBlocks(content, pending).0 && issues == DropBlocks(content, pending).1
  {
    hide DroppedTo, DropBlocks, Without, Ascending;
    var contentToRemove: seq<nat> := [];
    issues := [];
    DroppedEnds(content, pending, [], []);
    var idx := 0;
    while idx < |content|
      invariant 0 <= idx <= |content|
      invariant DroppedTo(content, pending, idx, contentToRemove, issues)
    {
      DroppedNext(content, pending, idx, contentToRemove, issues);
      if content[idx].ToolRequest? && content[idx].id in pending {
        contentToRemove := contentToRemove + [idx];
        issues := issues + [RemovedOrphanedRequest(content[idx].id)];
      }
      idx := idx + 1;
    }
    DroppedEnds(content, pending, contentToRemove, issues);
    kept := RemoveIndices(content, contentToRemove);
  }

  lemma {:induction false} DropStep(content: seq<Block>, i: nat, pending: set<string>, kept: seq<Block>, issues: seq<Issue>)
    requires i < |content|
    ensures var b := content[i];
            var rest, all := DropBlocks(content[i + 1..], pending), DropBlocks(content[i..], pending);
            if b.ToolRequest? && b.id in pending then
              kept + all.0 == kept + rest.0 && issues + all.1 == issues + [RemovedOrphanedRequest(b.id)] + rest.1
            else
              kept + all.0 == kept + [b] + rest.0 && issues + all.1 == issues + rest.1
  {
    assert content[i..][1..] == content[i + 1..];
  }

  lemma {:induction false} ScreenAllStep(messages: seq<Message>, i: nat, pending: set<string>, done: seq<Message>, issues: seq<Issue>)
    requires i < |messages|
    ensures var first := ScreenBlocks(messages[i].role, messages[i].content, pending);
            var rest, all := Screen(messages[i + 1..], first.pending), Screen(messages[i..], pending);
            && done + all.messages == done + [messages[i].(content := first.content)] + rest.messages
            && issues + all.issues == issues + first.issues + rest.issues
            && all.pending == rest.pending
  {
    assert messages[i..][1..] == messages[i + 1..];
  }

  lemma {:induction false} DropAllStep(messages: seq<Message>, i: nat, pending: set<string>, done: seq<Message>, issues: seq<Issue>)
    requires i < |messages|
    ensures var m, dropped := messages[i], DropBlocks(messages[i].content, pending);
            var rest, all := DropRequests(messages[i + 1..], pending), DropRequests(messages[i..], pending);
            && done + all.0 == done + [if m.role.Assistant? then m.(content := dropped.0) else m] + rest.0
            && issues + all.1 == (if m.role.Assistant? then issues + dropped.1 else issues) + rest.1
  {
    assert messages[i..][1..] == messages[i + 1..];
  }

  /** The first loop over the messages. */
  method ScreenMessages(messages: seq<Message>)
    returns (work: seq<Message>, issues: seq<Issue>, pendingToolRequests: set<string>)
    ensures var screened := Screen(messages, {});
            work == screened.messages && issues == screened.issues && pendingToolRequests == screened.pending
  {
    hide ScreenBlocks;
    work, issues, pendingToolRequests := messages, [], {};
    ghost var screened := Screen(messages, {});
    assert messages[0..] == messages && messages[..0] == [];
    var i := 0;
    while i < |messages|
      invariant 0 <= i <= |messages| == |work| && work[i..] == messages[i..]
      invariant screened.messages == work[..i] + Screen(messages[i..], pendingToolRequests).messages
      invariant screened.issues == issues + Screen(messages[i..], pendingToolRequests).issues
      invariant screened.pending == Screen(messages[i..], pendingToolRequests).pending
    {
      assert work[i] == work[i..][0] == messages[i];
      ScreenAllStep(messages, i, pendingToolRequests, work[..i], issues);
      var content, more;
      content, more, pendingToolRequests := ScreenMessage(work[i].role, work[i].content, pendingToolRequests);
      ghost var before := work;
      work := work[i := work[i].(content := content)];
      assert work[..i + 1] == before[..i] + [messages[i].(content := content)];
      assert work[i + 1..] == before[i..][1..];
      issues := issues + more;
      i := i + 1;
    }
    assert work[..i] == work;
  }

  /** `fix_tool_calling`. */
  method FixToolCalling(messages: seq<Message>) returns (result: seq<Message>, issues: seq<Issue>)
    ensures result == FixTools(messages).0 && issues == FixTools(messages).1
  {
    hide Screen, DropRequests, RemoveEmpty;
    var work, pendingToolRequests;
    work, issues, pendingToolRequests := ScreenMessages(messages);
    work, issues := DropOrphanedRequests(work, issues, pendingToolRequests);
    var (full, removed) := RemoveEmpty(work);
    result, issues := full, issues + removed;
  }

  method DropOrphanedRequests(messages: seq<Message>, issuesBefore: seq<Issue>, pending: set<string>)
    returns (work: seq<Message>, issues: seq<Issue>)
    ensures work == DropRequests(messages, pending).0 && issues == issuesBefore + DropRequests(messages, pending).1
  {
    hide DropBlocks;
    work, issues := messages, issuesBefore;
    ghost var dropped := DropRequests(messages, pending);
    assert messages[0..] == messages && messages[..0] == [];
    var i := 0;
    while i < |messages|
      invariant 0 <= i <= |messages| == |work| && work[i..] == messages[i..]
      invariant dropped.0 == work[..i] + DropRequests(messages[i..], pending).0
      invariant issuesBefore + dropped.1 == issues + DropRequests(messages[i..], pending).1
    {
      assert work[i] == work[i..][0] == messages[i];
      DropAllStep(messages, i, pending, work[..i], issues);
      ghost var before := work;
      if work[i].role == Assistant {
        var content, more := DropFromMessage(work[i].content, pending);
        work := work[i := work[i].(content := content)];
        issues := issues + more;
      }
      assert work[..i + 1] == before[..i] + [work[i]];
      assert work[i + 1..] == before[i..][1..];
      i := i + 1;
    }
    assert work[..i] == work;
  }

  // ---------- merge_consecutive ----------

  /** The list so far and what is still to come. */
  lemma {:induction false} MergeStep(done: seq<Message>, last: Message, messages: seq<Message>, i: nat, across: bool, issues: seq<Issue>)
    requires i < |messages|
    ensures var next := messages[i];
            var all := MergeFrom(last, messages[i..], across);
            if Joins(last, next, across) then
              var rest := MergeFrom(Join(last, next), messages[i + 1..], across);
              done + all.0 == done + rest.0 && issues + all.1 == issues + [MergedConsecutive(EffectiveRoleOf(next))] + rest.1
            else
              var rest := MergeFrom(next, messages[i + 1..], across);
              done + all.0 == done + [last] + rest.0 && issues + all.1 == issues + rest.1
  {
    assert messages[i..][1..] == messages[i + 1..];
  }

  method MergeMessages(messages: seq<Message>, acrossVisibility: bool) returns (merged: seq<Message>, issues: seq<Issue>)
    ensures merged == MergeConsecutive(messages, acrossVisibility).0 && issues == MergeConsecutive(messages, acrossVisibility).1
  {
    hide Joins;
    merged, issues := [], [];
    ghost var whole := MergeConsecutive(messages, acrossVisibility);
    var i := 0;
    while i < |messages|
      invariant 0 <= i <= |messages| && (i == 0 <==> merged == [])
      invariant i == 0 ==> issues == []
      invariant i > 0 ==> whole.0 == merged[..|merged| - 1] + MergeFrom(merged[|merged| - 1], messages[i..], acrossVisibility).0
      invariant i > 0 ==> whole.1 == issues + MergeFrom(merged[|merged| - 1], messages[i..], acrossVisibility).1
    {
      ghost var before := merged;
      if merged != [] {
        var last := merged[|merged| - 1];
        MergeStep(merged[..|merged| - 1], last, messages, i, acrossVisibility, issues);
        if Joins(last, messages[i], acrossVisibility) {
          merged := merged[|merged| - 1 := Join(last, messages[i])];
          issues := issues + [MergedConsecutive(EffectiveRoleOf(messages[i]))];
          assert merged[..|merged| - 1] == before[..|before| - 1];
          i := i + 1;
          continue;
        }
        assert before[..|before| - 1] + [last] == before;
      }
      merged := merged + [messages[i]];
      assert merged[..|merged| - 1] == before;
      i := i + 1;
    }
    if i > 0 {
      assert messages[i..] == [];
    }
  }

  // ---------- dedupe_signed_thinking ----------

  lemma {:induction false} DedupeStep(content: seq<Block>, i: nat, seen: seq<Block>, kept: seq<Block>)
    requires i < |content|
    ensures var b := content[i];
            var signed := IsSignedThinking(b);
            var seen' := if signed && b !in seen then seen + [b] else seen;
            && kept + DedupeBlocks(content[i..], seen) ==
               (if signed && b in seen then kept else kept + [b]) + DedupeBlocks(content[i + 1..], seen')
            && SeenAfter(content[i..], seen) == SeenAfter(content[i + 1..], seen')
  {
    assert content[i..][1..] == content[i + 1..];
  }

  method DedupeMessage(content: seq<Block>, seenBefore: seq<Block>) returns (deduped: seq<Block>, seen: seq<Block>)
    ensures deduped == DedupeBlocks(content, seenBefore) && seen == SeenAfter(content, seenBefore)
  {
    deduped, seen := [], seenBefore;
    assert content[0..] == content;
    var i := 0;
    while i < |content|
      invariant 0 <= i <= |content|
      invariant DedupeBlocks(content, seenBefore) == deduped + DedupeBlocks(content[i..], seen)
      invariant SeenAfter(content, seenBefore) == SeenAfter(content[i..], seen)
    {
      DedupeStep(content, i, seen, deduped);
      hide DedupeBlocks, SeenAfter;
      var b := content[i];
      var isSigned := IsSignedThinking(b);
      i := i + 1;
      if isSigned && b in seen {
        continue;
      }
      if isSigned {
        seen := seen + [b];
      }
      deduped := deduped + [b];
    }
  }

  lemma {:induction false} DedupeAllStep(messages: seq<Message>, i: nat, seen: seq<Block>, done: seq<Message>, issues: seq<Issue>)
    requires i < |messages|
    ensures var m, all := messages[i], Dedupe(messages[i..], seen);
            var user := m.role.User?;
            var kept := DedupeBlocks(m.content, seen);
            var rest := Dedupe(messages[i + 1..], if user then seen else SeenAfter(m.content, seen));
            && done + all.0 == done + [if user then m else m.(content := kept)] + rest.0
            && issues + all.1 == (if !user && |kept| != |m.content| then issues + [RemovedDuplicateThinking] else issues) + rest.1
  {
    assert messages[i..][1..] == messages[i + 1..];
  }

  lemma {:induction false} DedupeShortens(content: seq<Block>, seen: seq<Block>)
    ensures |DedupeBlocks(content, seen)| <= |content|
    ensures |DedupeBlocks(content, seen)| == |content| ==> DedupeBlocks(content, seen) == content
    decreases |content|
  {
    if content != [] {
      DedupeShortens(content[1..], seen);
      DedupeShortens(content[1..], seen + [content[0]]);
    }
  }

  method DedupeSignedThinking(messages: seq<Message>) returns (fixed: seq<Message>, issues: seq<Issue>)
    ensures fixed == Dedupe(messages, []).0 && issues == Dedupe(messages, []).1
  {
    fixed, issues := [], [];
    var seen: seq<Block> := [];
    assert messages[0..] == messages;
    var i := 0;
    while i < |messages|
      invariant 0 <= i <= |messages|
      invariant Dedupe(messages, []).0 == fixed + Dedupe(messages[i..], seen).0
      invariant Dedupe(messages, []).1 == issues + Dedupe(messages[i..], seen).1
    {
      DedupeAllStep(messages, i, seen, fixed, issues);
      hide Dedupe, DedupeBlocks, SeenAfter;
      var message := messages[i];
      i := i + 1;
      if message.role != Assistant {
        fixed := fixed + [message];
        continue;
      }
      DedupeShortens(message.content, seen);
      var originalLen := |message.content|;
      var deduped;
      deduped, seen := DedupeMessage(message.content, seen);
      if |deduped| != originalLen {
        issues := issues + [RemovedDuplicateThinking];
        message := message.(content := deduped);
      }
      fixed := fixed + [message];
    }
  }

  // ---------- fix_lead_trail ----------

  method FixLeadTrail(messages: seq<Message>) returns (fixed: seq<Message>, issues: seq<Issue>)
    ensures fixed == LeadTrail(messages).0 && issues == LeadTrail(messages).1
  {
    fixed, issues := messages, [];
    if fixed != [] && fixed[0].role == Assistant {
      fixed := fixed[1..];
      issues := issues + [RemovedLeadingAssistant];
    }
    if fixed != [] && fixed[|fixed| - 1].role == Assistant {
      fixed := fixed[..|fixed| - 1];
      issues := issues + [RemovedTrailingAssistant];
    }
  }
}
