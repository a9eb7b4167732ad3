/** Which assistant messages of a repaired list hold touching texts, followed through the passes by
    the branches that bring texts together. */
module TouchingMessages {
  import opened Messages
  import opened ConversationPasses
  import opened TouchingTexts
  import ToolPairing

  /** The marked assistant messages are those with touching texts. */
  predicate Marked(messages: seq<Message>, marks: seq<bool>) {
    && |marks| == |messages|
    && forall i :: 0 <= i < |messages| && messages[i].role.Assistant? ==> (marks[i] <==> HasTouching(messages[i].content))
  }

  lemma {:induction false} MarkedCons(m: Message, mark: bool, rest: seq<Message>, marks: seq<bool>)
    requires Marked(rest, marks) && (m.role.Assistant? ==> (mark <==> HasTouching(m.content)))
    ensures Marked([m] + rest, [mark] + marks)
  {
  }

  lemma {:induction false} MarkedTail(messages: seq<Message>, marks: seq<bool>)
    requires Marked(messages, marks) && messages != []
    ensures Marked(messages[1..], marks[1..])
    ensures messages[0].role.Assistant? ==> (marks[0] <==> HasTouching(messages[0].content))
  {
  }

  // ---------- the passes before fix_tool_calling ----------

  predicate NoneTouch(messages: seq<Message>) {
    forall i :: 0 <= i < |messages| && messages[i].role.Assistant? ==> !HasTouching(messages[i].content)
  }

  lemma {:induction false} MergeTextSeparates(messages: seq<Message>)
    ensures NoneTouch(Tidy(MergeText, messages).0)
    decreases |messages|
  {
    hide MergeBlocks, TidyBlocks, HasTouching;
    if messages != [] {
      assert !HasTouching([]) by { NothingTouches(); }
      MergedDoNotTouch([], messages[0].content);
      MergeTextSeparates(messages[1..]);
    }
  }

  lemma {:induction false} NothingTouches()
    ensures !HasTouching([])
  {
  }

  lemma {:induction false} TidyBlocksTouch(pass: MessagePass, content: seq<Block>)
    ensures HasTouching(TidyBlocks(pass, content).0) <==> HasTouching(content)
    ensures |TidyBlocks(pass, content).0| == |content|
    decreases |content|
  {
    hide TidyBlocks, HasTouching;
    TidyBlocksTouchStep(pass, content);
    if content != [] {
      TidyBlocksTouch(pass, content[1..]);
    }
  }

  lemma {:induction false} TidyBlocksTouchStep(pass: MessagePass, content: seq<Block>)
    ensures content == [] ==> TidyBlocks(pass, content).0 == []
    ensures content != [] && |TidyBlocks(pass, content[1..]).0| == |content[1..]|
              && (HasTouching(TidyBlocks(pass, content[1..]).0) <==> HasTouching(content[1..])) ==>
            && |TidyBlocks(pass, content).0| == |content|
            && (HasTouching(TidyBlocks(pass, content).0) <==> HasTouching(content))
  {
    if content != [] {
      var b, rest := TidyBlock(pass, content[0]), TidyBlocks(pass, content[1..]).0;
      assert ([b] + rest)[1..] == rest && ([b] + rest)[..1] == [b] && content[..1] == [content[0]];
      if rest != [] {
        assert rest[0] == TidyBlock(pass, content[1]);
      }
    }
  }

  lemma {:induction false} TidyStaysSeparated(pass: MessagePass, messages: seq<Message>)
    requires NoneTouch(messages) && !pass.MergeText?
    ensures NoneTouch(Tidy(pass, messages).0)
    decreases |messages|
  {
    hide TidyBlocks, HasTouching;
    if messages != [] {
      TidyBlocksTouch(pass, messages[0].content);
      TidyStaysSeparated(pass, messages[1..]);
    }
  }

  lemma {:induction false} RemoveEmptyStaysSeparated(messages: seq<Message>)
    requires NoneTouch(messages)
    ensures NoneTouch(RemoveEmpty(messages).0)
    decreases |messages|
  {
    hide HasTouching, IsEmptyContent;
    if messages != [] {
      RemoveEmptyStaysSeparated(messages[1..]);
    }
  }

  /** No texts touch in the list that reaches `fix_tool_calling`. */
  lemma {:induction false} BeforeToolsNoneTouch(messages: seq<Message>)
    ensures NoneTouch(ToolPairing.BeforeTools(messages))
  {
    hide Tidy, RemoveEmpty, NoneTouch;
    MergeTextSeparates(messages);
    TidyStaysSeparated(TrimText, Tidy(MergeText, messages).0);
    RemoveEmptyStaysSeparated(Tidy(TrimText, Tidy(MergeText, messages).0).0);
    TidyStaysSeparated(FillResults, RemoveEmpty(Tidy(TrimText, Tidy(MergeText, messages).0).0).0);
  }

  // ---------- fix_tool_calling ----------

  /** `fix_tool_calling` takes the block out of an assistant message when these requests stay without response. */
  predicate LosesTool(b: Block, unanswered: set<string>) {
    b.ToolResponse? || b.FrontendToolRequest? || (b.ToolRequest? && b.id in unanswered)
  }

  function LostTools(content: seq<Block>, unanswered: set<string>): seq<bool> {
    seq(|content|, j requires 0 <= j < |content| => LosesTool(content[j], unanswered))
  }

  lemma {:induction false} ToolsAreKept(content: seq<Block>, pending: set<string>, unanswered: set<string>)
    ensures DropBlocks(ScreenBlocks(Assistant, content, pending).content, unanswered).0 == Kept(content, LostTools(content, unanswered))
    decreases |content|
  {
    if content != [] {
      var pending' := PendingAfter(Assistant, content[0], pending);
      ToolsAreKept(content[1..], pending', unanswered);
      assert LostTools(content, unanswered)[1..] == LostTools(content[1..], unanswered);
      var rest := ScreenBlocks(Assistant, content[1..], pending').content;
      assert ([content[0]] + rest)[1..] == rest && [] + rest == rest;
    }
  }

  /** What the two loops of `fix_tool_calling` leave, before empty messages are removed. */
  function AfterLoops(messages: seq<Message>, pending: set<string>, unanswered: set<string>): seq<Message> {
    DropRequests(Screen(messages, pending).messages, unanswered).0
  }

  lemma {:induction false} AfterLoopsAt(messages: seq<Message>, pending: set<string>, unanswered: set<string>)
    ensures var looped := AfterLoops(messages, pending, unanswered);
            && |looped| == |messages|
            && forall i :: 0 <= i < |messages| ==>
                 && looped[i].role == messages[i].role
                 && (messages[i].role.Assistant? ==>
                       looped[i].content == Kept(messages[i].content, LostTools(messages[i].content, unanswered)))
    decreases |messages|
  {
    hide ScreenBlocks, DropBlocks, Kept, LostTools;
    if messages != [] {
      var m := messages[0];
      var first := ScreenBlocks(m.role, m.content, pending);
      ToolsAreKept(m.content, pending, unanswered);
      AfterLoopsAt(messages[1..], first.pending, unanswered);
      var rest := Screen(messages[1..], first.pending).messages;
      assert ([m.(content := first.content)] + rest)[1..] == rest;
    }
  }

  /** Marks the messages in which a block that `fix_tool_calling` removes stands between mergeable texts. */
  ghost function ToolMarks(messages: seq<Message>, unanswered: set<string>): seq<bool> {
    seq(|messages|, i requires 0 <= i < |messages| =>
      Bridges(messages[i].content, LostTools(messages[i].content, unanswered)))
  }

  lemma {:induction false} ToolsMarked(messages: seq<Message>, unanswered: set<string>)
    requires NoneTouch(messages)
    ensures Marked(AfterLoops(messages, {}, unanswered), ToolMarks(messages, unanswered))
  {
    AfterLoopsAt(messages, {}, unanswered);
    hide AfterLoops, HasTouching, Bridges, Kept;
    forall i | 0 <= i < |messages| && messages[i].role.Assistant?
      ensures ToolMarks(messages, unanswered)[i] <==> HasTouching(AfterLoops(messages, {}, unanswered)[i].content)
    {
      KeptTouchIff(messages[i].content, LostTools(messages[i].content, unanswered));
    }
  }

  /** The marks of the messages that are not empty. */
  function FullMarks(messages: seq<Message>, marks: seq<bool>): (left: seq<bool>)
    requires |marks| == |messages|
    ensures |left| == |RemoveEmpty(messages).0|
  {
    if messages == [] then []
    else (if IsEmptyContent(messages[0].content) then [] else [marks[0]]) + FullMarks(messages[1..], marks[1..])
  }

  lemma {:induction false} FullMarked(messages: seq<Message>, marks: seq<bool>)
    requires Marked(messages, marks)
    ensures Marked(RemoveEmpty(messages).0, FullMarks(messages, marks))
    decreases |messages|
  {
    hide Marked, IsEmptyContent;
    if messages == [] {
      assert Marked([], []) by { NothingMarked(); }
      assert marks == [] by { assert |marks| == 0 by { MarkedSize(messages, marks); } }
    } else {
      MarkedSize(messages, marks);
      MarkedTail(messages, marks);
      FullMarked(messages[1..], marks[1..]);
      var rest, left := RemoveEmpty(messages[1..]).0, FullMarks(messages[1..], marks[1..]);
      MarkedCons(messages[0], marks[0], rest, left);
      assert [] + left == left;
    }
  }

  lemma {:induction false} MarkedSize(messages: seq<Message>, marks: seq<bool>)
    requires Marked(messages, marks)
    ensures |marks| == |messages|
  {
  }

  lemma {:induction false} NothingMarked()
    ensures Marked([], [])
  {
  }

  // ---------- merge_consecutive ----------

  /** The marks after merging: a joined message is marked when a part was, or when its parts meet in
      mergeable texts. */
  function MergeMarks(last: Message, mark: bool, rest: seq<Message>, marks: seq<bool>): (merged: seq<bool>)
    requires |marks| == |rest|
    ensures |merged| == |MergeFrom(last, rest, false).0|
    decreases |rest|
  {
    if rest == [] then [mark]
    else if Joins(last, rest[0], false) then
      MergeMarks(Join(last, rest[0]), mark || marks[0] || Meet(last.content, rest[0].content), rest[1..], marks[1..])
    else
      [mark] + MergeMarks(rest[0], marks[0], rest[1..], marks[1..])
  }

  lemma {:induction false} MergeMarked(last: Message, mark: bool, rest: seq<Message>, marks: seq<bool>)
    requires Marked(rest, marks) && (last.role.Assistant? ==> (mark <==> HasTouching(last.content)))
    ensures Marked(MergeFrom(last, rest, false).0, MergeMarks(last, mark, rest, marks))
    decreases |rest|
  {
    hide Marked, Joins, HasTouching, Meet;
    MarkedSize(rest, marks);
    if rest == [] {
      NothingMarked();
      MarkedCons(last, mark, [], []);
      assert [last] + [] == [last] && [mark] + [] == [mark];
    } else {
      MarkedTail(rest, marks);
      if Joins(last, rest[0], false) {
        JoinedRoles(last, rest[0]);
        TouchingAppend(last.content, rest[0].content);
        MergeMarked(Join(last, rest[0]), mark || marks[0] || Meet(last.content, rest[0].content), rest[1..], marks[1..]);
      } else {
        MergeMarked(rest[0], marks[0], rest[1..], marks[1..]);
        MarkedCons(last, mark, MergeFrom(rest[0], rest[1..], false).0, MergeMarks(rest[0], marks[0], rest[1..], marks[1..]));
      }
    }
  }

  lemma {:induction false} JoinedRoles(last: Message, next: Message)
    requires Joins(last, next, false)
    ensures last.role == next.role
  {
  }

  /** The list that reaches `dedupe_signed_thinking`. */
  function BeforeDedupe(messages: seq<Message>): seq<Message> {
    MergeConsecutive(FixTools(ToolPairing.BeforeTools(messages)).0, false).0
  }

  /** Marks in that list the messages into which `fix_tool_calling` or `merge_consecutive` brought
      touching texts. */
  ghost function MarksBeforeDedupe(messages: seq<Message>): (marks: seq<bool>)
    ensures |marks| == |BeforeDedupe(messages)|
  {
    var reach := ToolPairing.BeforeTools(messages);
    var unanswered := Screen(reach, {}).pending;
    var looped := AfterLoops(reach, {}, unanswered);
    var marks := ToolMarks(reach, unanswered);
    AfterLoopsAt(reach, {}, unanswered);
    var left, full := FixTools(reach).0, FullMarks(looped, marks);
    if left == [] then [] else MergeMarks(left[0], full[0], left[1..], full[1..])
  }

  lemma {:induction false} BeforeDedupeMarked(messages: seq<Message>)
    ensures Marked(BeforeDedupe(messages), MarksBeforeDedupe(messages))
  {
    var reach := ToolPairing.BeforeTools(messages);
    var unanswered := Screen(reach, {}).pending;
    var looped := AfterLoops(reach, {}, unanswered);
    var marks := ToolMarks(reach, unanswered);
    AfterLoopsAt(reach, {}, unanswered);
    BeforeToolsNoneTouch(messages);
    ToolsMarked(reach, unanswered);
    FullMarked(looped, marks);
    var left, full := FixTools(reach).0, FullMarks(looped, marks);
    assert left == RemoveEmpty(looped).0;
    hide Marked, ToolMarks, FullMarks, RemoveEmpty, ToolPairing.BeforeTools, AfterLoops;
    if left == [] {
      NothingMarked();
    } else {
      MarkedTail(left, full);
      MergeMarked(left[0], full[0], left[1..], full[1..]);
    }
  }

  // ---------- dedupe_signed_thinking ----------

  /** An earlier assistant message contains the block. */
  ghost predicate SaidBefore(messages: seq<Message>, i: nat, b: Block) {
    exists k :: 0 <= k < i && k < |messages| && messages[k].role.Assistant? && b in messages[k].content
  }

  /** Which blocks of message `i` are signed thinking that was there before. */
  ghost function Repeated(messages: seq<Message>, i: nat): (gone: seq<bool>)
    requires i < |messages|
  {
    var content := messages[i].content;
    seq(|content|, j requires 0 <= j < |content| =>
      IsSignedThinking(content[j]) && (content[j] in content[..j] || SaidBefore(messages, i, content[j])))
  }

  /** The signed blocks seen before message `i`. */
  function SeenBefore(messages: seq<Message>, seen: seq<Block>, i: nat): seq<Block>
    requires i < |messages|
    decreases i
  {
    if i == 0 then seen
    else SeenBefore(messages[1..], if messages[0].role.User? then seen else SeenAfter(messages[0].content, seen), i - 1)
  }

  lemma {:induction false} SeenAfterHas(content: seq<Block>, seen: seq<Block>, b: Block)
    requires IsSignedThinking(b)
    ensures b in SeenAfter(content, seen) <==> b in seen || b in content
    decreases |content|
  {
    if content != [] {
      var first := content[0];
      SeenAfterHas(content[1..], if IsSignedThinking(first) && first !in seen then seen + [first] else seen, b);
      assert content == [first] + content[1..];
    }
  }

  lemma {:induction false} SeenBeforeHas(messages: seq<Message>, seen: seq<Block>, i: nat, b: Block)
    requires i < |messages| && IsSignedThinking(b)
    ensures b in SeenBefore(messages, seen, i) <==> b in seen || SaidBefore(messages, i, b)
    decreases i
  {
    hide SeenAfter;
    if i > 0 {
      var m := messages[0];
      SeenAfterHas(m.content, seen, b);
      SeenBeforeHas(messages[1..], if m.role.User? then seen else SeenAfter(m.content, seen), i - 1, b);
      assert SaidBefore(messages, i, b) <==> SaidBefore(messages[1..], i - 1, b) || (m.role.Assistant? && b in m.content) by {
        if m.role.Assistant? && b in m.content {
          assert messages[0] == m;
        }
        forall k | 0 <= k < i - 1 ensures messages[1..][k] == messages[k + 1] {}
        forall k | 0 <= k < i && k < |messages| ensures k > 0 ==> messages[k] == messages[1..][k - 1] {}
      }
    }
  }

  lemma {:induction false} DedupeAt(messages: seq<Message>, seen: seq<Block>, i: nat)
    requires i < |messages|
    ensures var deduped := Dedupe(messages, seen).0;
            && |deduped| == |messages| && deduped[i].role == messages[i].role
            && deduped[i].content ==
               if messages[i].role.User? then messages[i].content else DedupeBlocks(messages[i].content, SeenBefore(messages, seen, i))
    decreases |messages|
  {
    hide DedupeBlocks, SeenAfter;
    var seen' := if messages[0].role.User? then seen else SeenAfter(messages[0].content, seen);
    if i > 0 {
      DedupeAt(messages[1..], seen', i - 1);
    } else if |messages| > 1 {
      DedupeAt(messages[1..], seen', 0);
    } else {
      assert Dedupe(messages[1..], seen').0 == [];
    }
  }

  predicate DedupeGone(content: seq<Block>, seen: seq<Block>, j: nat)
    requires j < |content|
  {
    IsSignedThinking(content[j]) && (content[j] in seen || content[j] in content[..j])
  }

  lemma {:induction false} DedupeKeeps(content: seq<Block>, seen: seq<Block>, gone: seq<bool>)
    requires |gone| == |content| && forall j :: 0 <= j < |content| ==> (gone[j] <==> DedupeGone(content, seen, j))
    ensures DedupeBlocks(content, seen) == Kept(content, gone)
    decreases |content|
  {
    if content != [] {
      var b, rest := content[0], content[1..];
      var seen' := if IsSignedThinking(b) && b !in seen then seen + [b] else seen;
      forall j | 0 <= j < |rest| ensures gone[1..][j] <==> DedupeGone(rest, seen', j) {
        assert gone[1..][j] == gone[j + 1] && content[j + 1] == rest[j];
        assert content[..j + 1] == [b] + rest[..j];
        assert DedupeGone(content, seen, j + 1) <==> gone[j + 1];
      }
      DedupeKeeps(rest, seen', gone[1..]);
      assert gone[0] <==> DedupeGone(content, seen, 0);
    }
  }

  /** What `dedupe_signed_thinking` leaves of each message. */
  lemma {:induction false} DedupedAt(messages: seq<Message>, i: nat)
    requires i < |messages|
    ensures var deduped := Dedupe(messages, []).0;
            && |deduped| == |messages| && deduped[i].role == messages[i].role
            && deduped[i].content ==
               if messages[i].role.User? then messages[i].content else Kept(messages[i].content, Repeated(messages, i))
  {
    hide Dedupe, DedupeBlocks, SeenBefore, Kept, SaidBefore;
    DedupeAt(messages, [], i);
    var content := messages[i].content;
    var seen := SeenBefore(messages, [], i);
    forall j | 0 <= j < |content| ensures Repeated(messages, i)[j] <==> DedupeGone(content, seen, j) {
      if IsSignedThinking(content[j]) {
        SeenBeforeHas(messages, [], i, content[j]);
      }
    }
    DedupeKeeps(content, seen, Repeated(messages, i));
  }
}
