/** Merging consecutive messages: it loses and moves no block, merging once more changes nothing, and
    merging for a request after merging for storage is merging for a request. */
module Merging {
  import opened Messages
  import opened ConversationPasses

  // ---------- joining keeps what decides about joining ----------

  lemma {:induction false} ToolResponseInEither(a: seq<Block>, b: seq<Block>)
    ensures HasToolResponse(a + b) == (HasToolResponse(a) || HasToolResponse(b))
    decreases |a|
  {
    if a == [] {
      assert a + b == b;
    } else {
      assert (a + b)[1..] == a[1..] + b;
      ToolResponseInEither(a[1..], b);
    }
  }

  /** Two messages that any other message joins with alike. */
  predicate Alike(a: Message, b: Message) {
    EffectiveRoleOf(a) == EffectiveRoleOf(b) && a.role == b.role && a.userVisible == b.userVisible && a.turnContext == b.turnContext
  }

  lemma {:induction false} JoinIsAlike(last: Message, next: Message, across: bool)
    requires Joins(last, next, across)
    ensures Alike(Join(last, next), last) && last.role == next.role
  {
    ToolResponseInEither(last.content, next.content);
  }

  lemma {:induction false} FirstIsAlike(last: Message, rest: seq<Message>, across: bool)
    ensures MergeFrom(last, rest, across).0 != [] && Alike(MergeFrom(last, rest, across).0[0], last)
    decreases |rest|
  {
    hide HasToolResponse;
    if rest != [] && Joins(last, rest[0], across) {
      JoinIsAlike(last, rest[0], across);
      FirstIsAlike(Join(last, rest[0]), rest[1..], across);
    }
  }

  // ---------- the result is separated, and separated lists stay ----------

  /** No two adjacent messages join. */
  predicate Separated(messages: seq<Message>, across: bool) {
    forall i :: 0 <= i < |messages| - 1 ==> !Joins(messages[i], messages[i + 1], across)
  }

  lemma {:induction false} MergeFromSeparates(last: Message, rest: seq<Message>, across: bool)
    ensures Separated(MergeFrom(last, rest, across).0, across)
    decreases |rest|
  {
    hide HasToolResponse;
    if rest != [] {
      if Joins(last, rest[0], across) {
        MergeFromSeparates(Join(last, rest[0]), rest[1..], across);
      } else {
        MergeFromSeparates(rest[0], rest[1..], across);
        FirstIsAlike(rest[0], rest[1..], across);
      }
    }
  }

  /** After a merge for a request the effective roles alternate strictly; after a merge for storage
      they do so among messages of one visibility and context. */
  lemma {:induction false} MergeSeparates(messages: seq<Message>, across: bool)
    ensures Separated(MergeConsecutive(messages, across).0, across)
  {
    if messages != [] {
      MergeFromSeparates(messages[0], messages[1..], across);
    }
  }

  lemma {:induction false} RequestFormAlternates(messages: seq<Message>, i: nat)
    requires i + 1 < |MergeConsecutive(messages, true).0|
    ensures var merged := MergeConsecutive(messages, true).0; EffectiveRoleOf(merged[i]) != EffectiveRoleOf(merged[i + 1])
  {
    MergeSeparates(messages, true);
  }

  /** In the form for storage adjacent messages differ in effective role or in a flag. */
  lemma {:induction false} StoredFormAlternates(messages: seq<Message>, i: nat)
    requires i + 1 < |MergeConsecutive(messages, false).0|
    ensures var merged := MergeConsecutive(messages, false).0;
            || EffectiveRoleOf(merged[i]) != EffectiveRoleOf(merged[i + 1])
            || merged[i].userVisible != merged[i + 1].userVisible || merged[i].turnContext != merged[i + 1].turnContext
  {
    MergeSeparates(messages, false);
  }

  /** A user message takes a tool turn exactly when one of its blocks is a tool response. */
  lemma {:induction false} EffectiveRoleMeans(m: Message)
    ensures EffectiveRoleOf(m).AssistantTurn? <==> m.role.Assistant?
    ensures EffectiveRoleOf(m).ToolTurn? <==> m.role.User? && exists j :: 0 <= j < |m.content| && m.content[j].ToolResponse?
  {
    HasResponseMeans(m.content);
  }

  lemma {:induction false} HasResponseMeans(content: seq<Block>)
    ensures HasToolResponse(content) <==> exists j :: 0 <= j < |content| && content[j].ToolResponse?
    decreases |content|
  {
    if content != [] {
      HasResponseMeans(content[1..]);
      forall j | 0 <= j < |content| ensures j > 0 ==> content[j] == content[1..][j - 1] {}
      if exists j :: 0 <= j < |content[1..]| && content[1..][j].ToolResponse? {
        var j :| 0 <= j < |content[1..]| && content[1..][j].ToolResponse?;
        assert content[j + 1].ToolResponse?;
      }
    }
  }

  lemma {:induction false} SeparatedStaysFrom(last: Message, rest: seq<Message>, across: bool)
    requires Separated([last] + rest, across)
    ensures MergeFrom(last, rest, across) == ([last] + rest, [])
    decreases |rest|
  {
    hide Joins;
    if rest == [] {
      assert [last] + rest == [last];
    } else {
      var all := [last] + rest;
      assert !Joins(all[0], all[1], across);
      assert [rest[0]] + rest[1..] == rest;
      forall i | 0 <= i < |rest| - 1 ensures !Joins(rest[i], rest[i + 1], across) {
        assert !Joins(all[i + 1], all[i + 2], across);
      }
      SeparatedStaysFrom(rest[0], rest[1..], across);
    }
  }

  /** Merging changes a list exactly when two adjacent messages join. */
  lemma {:induction false} MergeStaysIffSeparated(messages: seq<Message>, across: bool)
    ensures MergeConsecutive(messages, across) == (messages, []) <==> Separated(messages, across)
  {
    MergeSeparates(messages, across);
    if Separated(messages, across) && messages != [] {
      assert [messages[0]] + messages[1..] == messages;
      SeparatedStaysFrom(messages[0], messages[1..], across);
    }
  }

  /** Merging twice is merging once. */
  lemma {:induction false} MergeIsIdempotent(messages: seq<Message>, across: bool)
    ensures var once := MergeConsecutive(messages, across).0; MergeConsecutive(once, across) == (once, [])
  {
    MergeSeparates(messages, across);
    MergeStaysIffSeparated(MergeConsecutive(messages, across).0, across);
  }

  // ---------- no block is lost or moved ----------

  datatype Said = Said(role: Role, block: Block)

  function Tagged(role: Role, content: seq<Block>): seq<Said> {
    seq(|content|, i requires 0 <= i < |content| => Said(role, content[i]))
  }

  /** Every block with its role, in order. */
  function Flatten(messages: seq<Message>): seq<Said> {
    if messages == [] then [] else Tagged(messages[0].role, messages[0].content) + Flatten(messages[1..])
  }

  lemma {:induction false} MergeFromKeeps(last: Message, rest: seq<Message>, across: bool)
    ensures Flatten(MergeFrom(last, rest, across).0) == Tagged(last.role, last.content) + Flatten(rest)
    decreases |rest|
  {
    if rest == [] {
      assert [last][1..] == [];
    } else if Joins(last, rest[0], across) {
      var joined := Join(last, rest[0]);
      JoinIsAlike(last, rest[0], across);
      hide Joins;
      MergeFromKeeps(joined, rest[1..], across);
      assert Tagged(last.role, joined.content) == Tagged(last.role, last.content) + Tagged(last.role, rest[0].content);
    } else {
      hide Joins;
      MergeFromKeeps(rest[0], rest[1..], across);
      var merged := MergeFrom(rest[0], rest[1..], across).0;
      assert ([last] + merged)[1..] == merged;
    }
  }

  lemma {:induction false} MergeKeepsBlocks(messages: seq<Message>, across: bool)
    ensures Flatten(MergeConsecutive(messages, across).0) == Flatten(messages)
  {
    if messages != [] {
      MergeFromKeeps(messages[0], messages[1..], across);
    }
  }

  // ---------- confluence ----------

  lemma {:induction false} JoinAssociates(a: Message, b: Message, c: Message)
    ensures Join(Join(a, b), c) == Join(a, Join(b, c))
  {
    assert a.content + b.content + c.content == a.content + (b.content + c.content);
  }

  /** Joining two messages that follow `cur` before the merge makes no difference to it. */
  lemma {:induction false} JoinFirst(cur: Message, a: Message, b: Message, rest: seq<Message>)
    requires Joins(a, b, false)
    ensures MergeFrom(cur, [Join(a, b)] + rest, true).0 == MergeFrom(cur, [a, b] + rest, true).0
  {
    hide HasToolResponse;
    JoinIsAlike(a, b, false);
    var joined, apart := [Join(a, b)] + rest, [a, b] + rest;
    assert joined[1..] == rest && apart[1..] == [b] + rest && ([b] + rest)[1..] == rest;
    if Joins(cur, a, true) {
      JoinIsAlike(cur, a, true);
      JoinAssociates(cur, a, b);
      assert Joins(cur, Join(a, b), true) && Joins(Join(cur, a), b, true);
    }
  }

  /** After `cur`, what was merged for storage merges for a request as if it had not been. */
  lemma {:induction false} MergeInTwoSteps(cur: Message, next: Message, rest: seq<Message>)
    ensures MergeFrom(cur, MergeFrom(next, rest, false).0, true).0 == MergeFrom(cur, [next] + rest, true).0
    decreases |rest|
  {
    hide Joins, Join;
    if rest == [] {
      assert [next] + rest == [next];
    } else if Joins(next, rest[0], false) {
      MergeInTwoSteps(cur, Join(next, rest[0]), rest[1..]);
      JoinFirst(cur, next, rest[0], rest[1..]);
      assert [next, rest[0]] + rest[1..] == [next] + rest;
    } else {
      var merged := MergeFrom(rest[0], rest[1..], false).0;
      assert ([next] + merged)[1..] == merged && ([next] + rest)[1..] == rest && [rest[0]] + rest[1..] == rest;
      MergeInTwoSteps(if Joins(cur, next, true) then Join(cur, next) else next, rest[0], rest[1..]);
    }
  }

  lemma {:induction false} MergeFromInTwoSteps(first: Message, rest: seq<Message>)
    ensures MergeConsecutive(MergeFrom(first, rest, false).0, true).0 == MergeFrom(first, rest, true).0
    decreases |rest|
  {
    if rest == [] {
      assert [first][1..] == [];
    } else if Joins(first, rest[0], false) {
      MergeFromInTwoSteps(Join(first, rest[0]), rest[1..]);
    } else {
      var merged := MergeFrom(rest[0], rest[1..], false).0;
      assert ([first] + merged)[1..] == merged && [rest[0]] + rest[1..] == rest;
      MergeInTwoSteps(first, rest[0], rest[1..]);
    }
  }

  /** Merging for a request gives the same list whether or not it was merged for storage before. */
  lemma {:induction false} MergingIsConfluent(messages: seq<Message>)
    ensures MergeConsecutive(MergeConsecutive(messages, false).0, true).0 == MergeConsecutive(messages, true).0
  {
    if messages != [] {
      MergeFromInTwoSteps(messages[0], messages[1..]);
    }
  }
}
