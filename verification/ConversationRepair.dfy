/** Repair reports nothing exactly when it changes nothing, and repeating it ends. */
module ConversationRepair {
  import opened Text
  import opened Messages
  import opened ConversationPasses

  // ---------- the measure: messages, blocks, text and empty tool results ----------

  function BlockSize(b: Block): nat {
    1 + (if b.Text? then |b.text| else 0) + if IsEmptyResult(b) then 1 else 0
  }

  function ContentSize(content: seq<Block>): nat {
    if content == [] then 0 else BlockSize(content[0]) + ContentSize(content[1..])
  }

  function MessageSize(m: Message): nat {
    1 + ContentSize(m.content)
  }

  function Size(messages: seq<Message>): nat {
    if messages == [] then 0 else MessageSize(messages[0]) + Size(messages[1..])
  }

  /** A pass with no issue changes nothing; one with an issue makes the list smaller. */
  predicate Shrinks(before: seq<Message>, after: seq<Message>, issues: seq<Issue>) {
    if issues == [] then after == before else Size(after) < Size(before)
  }

  predicate ContentShrinks(before: seq<Block>, after: seq<Block>, issues: seq<Issue>) {
    if issues == [] then after == before else ContentSize(after) < ContentSize(before)
  }

  lemma {:induction false} ContentSizeAppend(a: seq<Block>, b: seq<Block>)
    ensures ContentSize(a + b) == ContentSize(a) + ContentSize(b)
    decreases |a|
  {
    if a == [] {
      assert a + b == b;
    } else {
      assert (a + b)[1..] == a[1..] + b;
      ContentSizeAppend(a[1..], b);
    }
  }

  lemma {:induction false} ContentSizeOne(b: Block)
    ensures ContentSize([b]) == BlockSize(b)
  {
    assert [b][1..] == [];
  }

  lemma {:induction false} SizeAppend(a: seq<Message>, b: seq<Message>)
    ensures Size(a + b) == Size(a) + Size(b)
    decreases |a|
  {
    if a == [] {
      assert a + b == b;
    } else {
      assert (a + b)[1..] == a[1..] + b;
      SizeAppend(a[1..], b);
    }
  }

  lemma {:induction false} SizeCons(m: Message, rest: seq<Message>)
    ensures Size([m] + rest) == MessageSize(m) + Size(rest)
  {
    assert ([m] + rest)[1..] == rest;
  }

  // ---------- every pass but the last shrinks ----------

  lemma {:induction false} AbsorbShrinks(merged: seq<Block>, b: Block)
    ensures var after := Absorb(merged, b);
            && (after == merged + [b] || (|after| == |merged| && ContentSize(after) + 1 == ContentSize(merged + [b])))
  {
    if merged != [] && Mergeable(merged[|merged| - 1], b) {
      var front, last := merged[..|merged| - 1], merged[|merged| - 1];
      assert merged + [b] == front + [last] + [b];
      ContentSizeAppend(front + [last], [b]);
      ContentSizeAppend(front, [last]);
      ContentSizeAppend(front, [MergeInto(last, b)]);
      ContentSizeOne(last);
      ContentSizeOne(b);
      ContentSizeOne(MergeInto(last, b));
    }
  }

  lemma {:induction false} MergeBlocksShrinks(merged: seq<Block>, rest: seq<Block>)
    ensures var after := MergeBlocks(merged, rest);
            && |after| <= |merged| + |rest|
            && if |after| == |merged| + |rest| then after == merged + rest else ContentSize(after) < ContentSize(merged + rest)
    decreases |rest|
  {
    if rest == [] {
      assert merged + rest == merged;
    } else {
      var next := Absorb(merged, rest[0]);
      AbsorbShrinks(merged, rest[0]);
      MergeBlocksShrinks(next, rest[1..]);
      assert merged + [rest[0]] + rest[1..] == merged + rest;
      ContentSizeAppend(next, rest[1..]);
      ContentSizeAppend(merged + [rest[0]], rest[1..]);
    }
  }

  lemma {:induction false} TrimEndShortens(s: string)
    ensures |TrimEnd(s)| <= |s| && (|TrimEnd(s)| == |s| ==> TrimEnd(s) == s)
    decreases |s|
  {
    if s != "" {
      TrimEndShortens(s[..|s| - 1]);
    }
  }

  lemma {:induction false} FilledIsNotEmpty(items: seq<Item>)
    ensures HasToolResultContent(items + [TextItem(EMPTY_RESULT)])
    decreases |items|
  {
    if items == [] {
      assert items + [TextItem(EMPTY_RESULT)] == [TextItem(EMPTY_RESULT)];
    } else {
      assert (items + [TextItem(EMPTY_RESULT)])[1..] == items[1..] + [TextItem(EMPTY_RESULT)];
      FilledIsNotEmpty(items[1..]);
    }
  }

  lemma {:induction false} TidyBlockShrinks(pass: MessagePass, b: Block)
    ensures if BlockIssues(pass, b) == [] then TidyBlock(pass, b) == b else BlockSize(TidyBlock(pass, b)) < BlockSize(b)
  {
    if b.Text? {
      TrimEndShortens(b.text);
    }
    if IsEmptyResult(b) {
      FilledIsNotEmpty(b.result.value);
    }
  }

  lemma {:induction false} TidyBlocksShrink(pass: MessagePass, content: seq<Block>)
    ensures ContentShrinks(content, TidyBlocks(pass, content).0, TidyBlocks(pass, content).1)
    decreases |content|
  {
    hide TidyBlock, BlockIssues, BlockSize;
    if content != [] {
      var (rest, issues) := TidyBlocks(pass, content[1..]);
      TidyBlockShrinks(pass, content[0]);
      TidyBlocksShrink(pass, content[1..]);
      assert ([TidyBlock(pass, content[0])] + rest)[1..] == rest;
      assert content == [content[0]] + content[1..];
    }
  }

  lemma {:induction false} TidyMessageShrinks(pass: MessagePass, m: Message)
    ensures if TidyMessage(pass, m).1 == [] then TidyMessage(pass, m).0 == m
            else MessageSize(TidyMessage(pass, m).0) < MessageSize(m)
  {
    hide TidyBlocks, MergeBlocks;
    TidyBlocksShrink(pass, m.content);
    MergeBlocksShrinks([], m.content);
    assert [] + m.content == m.content;
  }

  lemma {:induction false} TidyShrinks(pass: MessagePass, messages: seq<Message>)
    ensures Shrinks(messages, Tidy(pass, messages).0, Tidy(pass, messages).1)
    decreases |messages|
  {
    hide TidyMessage, MessageSize;
    if messages != [] {
      TidyMessageShrinks(pass, messages[0]);
      TidyShrinks(pass, messages[1..]);
      SizeCons(TidyMessage(pass, messages[0]).0, Tidy(pass, messages[1..]).0);
      assert messages == [messages[0]] + messages[1..];
    }
  }

  lemma {:induction false} RemoveEmptyShrinks(messages: seq<Message>)
    ensures Shrinks(messages, RemoveEmpty(messages).0, RemoveEmpty(messages).1)
    decreases |messages|
  {
    hide IsEmptyContent;
    if messages != [] {
      RemoveEmptyShrinks(messages[1..]);
      SizeCons(messages[0], RemoveEmpty(messages[1..]).0);
      assert messages == [messages[0]] + messages[1..];
    }
  }

  lemma {:induction false} ScreenBlocksShrink(role: Role, content: seq<Block>, pending: set<string>)
    ensures var screened := ScreenBlocks(role, content, pending); ContentShrinks(content, screened.content, screened.issues)
    decreases |content|
  {
    hide ScreenIssue, PendingAfter;
    if content != [] {
      var rest := ScreenBlocks(role, content[1..], PendingAfter(role, content[0], pending));
      ScreenBlocksShrink(role, content[1..], PendingAfter(role, content[0], pending));
      assert ([content[0]] + rest.content)[1..] == rest.content;
      assert content == [content[0]] + content[1..];
      assert [] + rest.content == rest.content;
    }
  }

  lemma {:induction false} ScreenShrinks(messages: seq<Message>, pending: set<string>)
    ensures var screened := Screen(messages, pending); Shrinks(messages, screened.messages, screened.issues)
    decreases |messages|
  {
    hide ScreenBlocks;
    if messages != [] {
      var first := ScreenBlocks(messages[0].role, messages[0].content, pending);
      ScreenBlocksShrink(messages[0].role, messages[0].content, pending);
      ScreenShrinks(messages[1..], first.pending);
      SizeCons(messages[0].(content := first.content), Screen(messages[1..], first.pending).messages);
      assert messages == [messages[0]] + messages[1..];
    }
  }

  lemma {:induction false} DropBlocksShrink(content: seq<Block>, pending: set<string>)
    ensures ContentShrinks(content, DropBlocks(content, pending).0, DropBlocks(content, pending).1)
    decreases |content|
  {
    if content != [] {
      var (rest, issues) := DropBlocks(content[1..], pending);
      DropBlocksShrink(content[1..], pending);
      assert ([content[0]] + rest)[1..] == rest;
      assert content == [content[0]] + content[1..];
    }
  }

  lemma {:induction false} DropRequestsShrinks(messages: seq<Message>, pending: set<string>)
    ensures Shrinks(messages, DropRequests(messages, pending).0, DropRequests(messages, pending).1)
    decreases |messages|
  {
    hide DropBlocks;
    if messages != [] {
      var dropped := DropBlocks(messages[0].content, pending);
      var rest := DropRequests(messages[1..], pending).0;
      DropBlocksShrink(messages[0].content, pending);
      DropRequestsShrinks(messages[1..], pending);
      SizeCons(messages[0].(content := dropped.0), rest);
      SizeCons(messages[0], rest);
      assert messages == [messages[0]] + messages[1..];
    }
  }

  lemma {:induction false} FixToolsShrinks(messages: seq<Message>)
    ensures Shrinks(messages, FixTools(messages).0, FixTools(messages).1)
  {
    hide Screen, DropRequests, RemoveEmpty;
    var screened := Screen(messages, {});
    ScreenShrinks(messages, {});
    DropRequestsShrinks(screened.messages, screened.pending);
    RemoveEmptyShrinks(DropRequests(screened.messages, screened.pending).0);
  }

  /** Merging keeps every block, and saves one message for each issue. */
  lemma {:induction false} MergeFromShrinks(last: Message, rest: seq<Message>, across: bool)
    ensures var (messages, issues) := MergeFrom(last, rest, across);
            && Size(messages) + |issues| == MessageSize(last) + Size(rest)
            && (issues == [] ==> messages == [last] + rest)
    decreases |rest|
  {
    hide Joins;
    if rest == [] {
      SizeCons(last, []);
      assert [last] + [] == [last];
    } else if Joins(last, rest[0], across) {
      MergeFromShrinks(Join(last, rest[0]), rest[1..], across);
      ContentSizeAppend(last.content, rest[0].content);
    } else {
      MergeFromShrinks(rest[0], rest[1..], across);
      SizeCons(last, MergeFrom(rest[0], rest[1..], across).0);
      assert [rest[0]] + rest[1..] == rest;
    }
  }

  lemma {:induction false} MergeShrinks(messages: seq<Message>, across: bool)
    ensures Shrinks(messages, MergeConsecutive(messages, across).0, MergeConsecutive(messages, across).1)
  {
    if messages != [] {
      MergeFromShrinks(messages[0], messages[1..], across);
      assert messages == [messages[0]] + messages[1..];
    }
  }

  lemma {:induction false} DedupeBlocksShrink(content: seq<Block>, seen: seq<Block>)
    ensures var kept := DedupeBlocks(content, seen);
            |kept| <= |content| && if |kept| == |content| then kept == content else ContentSize(kept) < ContentSize(content)
    decreases |content|
  {
    if content != [] {
      var rest := content[1..];
      DedupeBlocksShrink(rest, seen);
      DedupeBlocksShrink(rest, seen + [content[0]]);
      assert ([content[0]] + DedupeBlocks(rest, seen))[1..] == DedupeBlocks(rest, seen);
      assert ([content[0]] + DedupeBlocks(rest, seen + [content[0]]))[1..] == DedupeBlocks(rest, seen + [content[0]]);
      assert content == [content[0]] + rest;
    }
  }

  lemma {:induction false} DedupeShrinks(messages: seq<Message>, seen: seq<Block>)
    ensures Shrinks(messages, Dedupe(messages, seen).0, Dedupe(messages, seen).1)
    decreases |messages|
  {
    hide DedupeBlocks, SeenAfter, ContentSize;
    if messages != [] {
      var m := messages[0];
      var seen' := if m.role.User? then seen else SeenAfter(m.content, seen);
      var kept := DedupeBlocks(m.content, seen);
      var m' := if m.role.User? then m else m.(content := kept);
      DedupeBlocksShrink(m.content, seen);
      DedupeShrinks(messages[1..], seen');
      SizeCons(m', Dedupe(messages[1..], seen').0);
      assert messages == [m] + messages[1..];
    }
  }

  lemma {:induction false} LeadTrailShrinks(messages: seq<Message>)
    ensures Shrinks(messages, LeadTrail(messages).0, LeadTrail(messages).1)
  {
    var led := FixLead(messages).0;
    if led != [] {
      assert led == led[..|led| - 1] + [led[|led| - 1]];
      SizeAppend(led[..|led| - 1], [led[|led| - 1]]);
      SizeCons(led[|led| - 1], []);
      assert [led[|led| - 1]] + [] == [led[|led| - 1]];
    }
  }

  lemma {:induction false} PassShrinks(pass: Pass, messages: seq<Message>)
    requires !pass.PPopulate?
    ensures Shrinks(messages, RunPass(pass, messages).0, RunPass(pass, messages).1)
  {
    hide Shrinks;
    match pass {
      case PTidy(tidy) => TidyShrinks(tidy, messages);
      case PRemoveEmpty => RemoveEmptyShrinks(messages);
      case PFixTools => FixToolsShrinks(messages);
      case PMerge => MergeShrinks(messages, false);
      case PDedupe => DedupeShrinks(messages, []);
      case PLeadTrail => LeadTrailShrinks(messages);
    }
  }

  // ---------- the whole repair ----------

  lemma {:induction false} PassesShrink(n: nat, messages: seq<Message>)
    requires n <= 8
    ensures Shrinks(messages, RunPasses(n, messages).0, RunPasses(n, messages).1)
    decreases n
  {
    hide RunPass, Size;
    if n > 0 {
      PassesShrink(n - 1, messages);
      PassShrinks(PassAt(n - 1), RunPasses(n - 1, messages).0);
    }
  }

  /** The eight passes that repair, and then the one that fills an empty list. */
  lemma {:induction false} RepairThenPopulate(messages: seq<Message>)
    ensures var (repaired, issues) := RunPasses(8, messages);
            FixMessages(messages) == (Populate(repaired).0, issues + Populate(repaired).1)
    ensures Shrinks(messages, RunPasses(8, messages).0, RunPasses(8, messages).1)
  {
    PassesShrink(8, messages);
    assert RunPass(PassAt(8), RunPasses(8, messages).0) == Populate(RunPasses(8, messages).0);
    hide RunPass, Shrinks;
  }

  lemma {:induction false} NoRepairOfPlaceholder()
    ensures RunPasses(8, [PLACEHOLDER]) == ([PLACEHOLDER], [])
  {
    forall i: nat | i < 8 ensures RunPass(PassAt(i), [PLACEHOLDER]) == ([PLACEHOLDER], []) {
      PlaceholderStays(PassAt(i));
    }
    hide RunPass;
    SkipPasses(8, [PLACEHOLDER]);
  }

  lemma {:induction false} SkipPasses(n: nat, messages: seq<Message>)
    requires n <= 9 && forall i: nat :: i < n ==> RunPass(PassAt(i), messages) == (messages, [])
    ensures RunPasses(n, messages) == (messages, [])
    decreases n
  {
    hide RunPass, PassAt;
    if n > 0 {
      SkipPasses(n - 1, messages);
      var none: seq<Issue> := [];
      assert none + none == none;
    }
  }

  lemma {:induction false} PlaceholderStays(pass: Pass)
    requires !pass.PPopulate?
    ensures RunPass(pass, [PLACEHOLDER]) == ([PLACEHOLDER], [])
  {
    var block := Text("Hello", None);
    var it := [PLACEHOLDER];
    assert it[1..] == [] && it == [PLACEHOLDER] + [] && [block][1..] == [];
    assert [block] + [] == [block];
    assert PLACEHOLDER.(content := [block]) == PLACEHOLDER;
    assert !HasToolResponse([block]);
    assert !IsEmptyContent([block]);
    assert ScreenBlocks(User, [block], {}) == Screened([block], [], {});
    var none: seq<Issue> := [];
    assert none + none == none;
    match pass {
      case PTidy(tidy) =>
        assert "Hello"[4] == 'o' && !IsWhitespace('o');
        assert TidyBlock(tidy, block) == block && BlockIssues(tidy, block) == none;
        assert TidyBlocks(tidy, [block]) == ([block], none);
        assert TidyMessage(tidy, PLACEHOLDER) == (PLACEHOLDER, none);
        assert Tidy(tidy, it[1..]) == ([], none);
        assert Tidy(tidy, it) == ([PLACEHOLDER] + [], none + none);
      case PFixTools =>
        assert Screen(it, {}) == ScreenedAll(it, none, {});
        assert DropRequests(it, {}) == (it, none);
        assert RemoveEmpty(it) == (it, none);
      case PLeadTrail =>
      case PDedupe =>
        assert Dedupe([], []).0 == [];
        assert Dedupe(it, []) == ([PLACEHOLDER] + Dedupe([], []).0, none);
      case PMerge =>
        assert MergeConsecutive(it, false) == (it, none);
      case PRemoveEmpty =>
        assert RemoveEmpty(it[1..]) == ([], none);
        assert RemoveEmpty(it) == ([PLACEHOLDER] + [], none);
    }
  }

  /** Repair reports no issue exactly when it returns its input. */
  lemma {:induction false} NoIssueIffUnchanged(messages: seq<Message>)
    ensures FixMessages(messages).1 == [] <==> FixMessages(messages).0 == messages
  {
    RepairThenPopulate(messages);
    NoRepairOfPlaceholder();
    hide FixMessages, RunPasses;
  }

  /** `Conversation::new`: a list is accepted when repair has nothing to report. */
  function New(messages: seq<Message>): (r: Option<seq<Message>>) {
    if FixMessages(messages).1 == [] then Some(messages) else None
  }

  /** A list is accepted exactly when repair would leave it as it is. */
  lemma {:induction false} NewAcceptsFixedPoints(messages: seq<Message>)
    ensures New(messages) == if FixMessages(messages).0 == messages then Some(messages) else None
  {
    NoIssueIffUnchanged(messages);
  }

  function Repeat(messages: seq<Message>, n: nat): seq<Message>
    decreases n
  {
    if n == 0 then messages else Repeat(FixMessages(messages).0, n - 1)
  }

  /** Once repair has nothing to report, repeating it changes nothing. */
  lemma {:induction false} RepairedStays(messages: seq<Message>, n: nat)
    ensures FixMessages(messages).1 == [] ==> Repeat(messages, n) == messages
    decreases n
  {
    NoIssueIffUnchanged(messages);
    hide FixMessages;
    if n > 0 && FixMessages(messages).1 == [] {
      RepairedStays(FixMessages(messages).0, n - 1);
    }
  }

  /** One round settles the list, or makes it smaller, or leaves only the placeholder. */
  lemma {:induction false} OneRound(messages: seq<Message>)
    ensures var (fixed, issues) := FixMessages(messages);
            issues == [] || Size(fixed) < Size(messages) || (fixed == [PLACEHOLDER] && FixMessages(fixed).1 == [])
  {
    RepairThenPopulate(messages);
    RepairThenPopulate([PLACEHOLDER]);
    NoRepairOfPlaceholder();
    hide FixMessages, RunPasses;
  }

  /** Repeating the repair ends, after at most as many rounds as there are messages, blocks, characters
      of text and empty tool results, and one for the placeholder. */
  lemma {:induction false} RepairConverges(messages: seq<Message>)
    ensures exists n: nat :: n <= Size(messages) + 1 && FixMessages(Repeat(messages, n)).1 == []
    decreases Size(messages)
  {
    OneRound(messages);
    hide FixMessages;
    var (fixed, issues) := FixMessages(messages);
    assert Repeat(messages, 0) == messages;
    if issues != [] {
      assert Repeat(fixed, 0) == fixed && Repeat(messages, 1) == fixed;
      if Size(fixed) < Size(messages) {
        RepairConverges(fixed);
        var n: nat :| n <= Size(fixed) + 1 && FixMessages(Repeat(fixed, n)).1 == [];
        assert Repeat(messages, n + 1) == Repeat(fixed, n);
      }
    }
  }
}
