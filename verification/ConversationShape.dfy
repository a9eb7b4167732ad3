/** The shape repair promises: user messages at both ends, and turns that alternate. */
module ConversationShape {
  import opened Messages
  import opened ConversationPasses
  import opened Merging
  import ToolPairing

  /** All messages agree on what decides about joining besides the role. */
  predicate Uniform(messages: seq<Message>) {
    forall i, j :: 0 <= i < |messages| && 0 <= j < |messages| ==>
      messages[i].userVisible == messages[j].userVisible && messages[i].turnContext == messages[j].turnContext
  }

  /** Every message carries the flags of some message of `from`. */
  ghost predicate FlagsFrom(messages: seq<Message>, from: seq<Message>) {
    forall i :: 0 <= i < |messages| ==> FlagsOfOne(messages[i], from)
  }

  ghost predicate FlagsOfOne(m: Message, from: seq<Message>) {
    exists j :: 0 <= j < |from| && from[j].userVisible == m.userVisible && from[j].turnContext == m.turnContext
  }

  lemma {:induction false} UniformFrom(messages: seq<Message>, from: seq<Message>)
    requires Uniform(from) && FlagsFrom(messages, from)
    ensures Uniform(messages)
  {
    forall i, j | 0 <= i < |messages| && 0 <= j < |messages|
      ensures messages[i].userVisible == messages[j].userVisible && messages[i].turnContext == messages[j].turnContext
    {
      assert FlagsOfOne(messages[i], from) && FlagsOfOne(messages[j], from);
    }
  }

  /** Sharing flags with a longer list. */
  lemma {:induction false} FlagsFromTail(messages: seq<Message>, first: Message, rest: seq<Message>)
    requires FlagsFrom(messages, rest)
    ensures FlagsFrom(messages, [first] + rest)
  {
    forall i | 0 <= i < |messages| ensures FlagsOfOne(messages[i], [first] + rest) {
      assert FlagsOfOne(messages[i], rest);
      var j :| 0 <= j < |rest| && rest[j].userVisible == messages[i].userVisible && rest[j].turnContext == messages[i].turnContext;
      assert ([first] + rest)[j + 1] == rest[j];
    }
  }

  lemma {:induction false} FlagsFromCons(m: Message, messages: seq<Message>, first: Message, rest: seq<Message>)
    requires FlagsFrom(messages, rest) && m.userVisible == first.userVisible && m.turnContext == first.turnContext
    ensures FlagsFrom([m] + messages, [first] + rest)
  {
    FlagsFromTail(messages, first, rest);
    assert ([first] + rest)[0] == first;
    forall i | 0 <= i < |[m] + messages| ensures FlagsOfOne(([m] + messages)[i], [first] + rest) {
      if i > 0 {
        assert FlagsOfOne(messages[i - 1], [first] + rest);
      }
    }
  }

  lemma {:induction false} FlagsFromTrans(a: seq<Message>, b: seq<Message>, c: seq<Message>)
    requires FlagsFrom(a, b) && FlagsFrom(b, c)
    ensures FlagsFrom(a, c)
  {
    forall i | 0 <= i < |a| ensures FlagsOfOne(a[i], c) {
      assert FlagsOfOne(a[i], b);
      var j :| 0 <= j < |b| && b[j].userVisible == a[i].userVisible && b[j].turnContext == a[i].turnContext;
      assert FlagsOfOne(b[j], c);
    }
  }

  lemma {:induction false} TidyFlags(pass: MessagePass, messages: seq<Message>)
    ensures FlagsFrom(Tidy(pass, messages).0, messages)
    decreases |messages|
  {
    if messages != [] {
      TidyFlags(pass, messages[1..]);
      assert messages == [messages[0]] + messages[1..];
      FlagsFromCons(TidyMessage(pass, messages[0]).0, Tidy(pass, messages[1..]).0, messages[0], messages[1..]);
    }
  }

  lemma {:induction false} RemoveEmptyFlags(messages: seq<Message>)
    ensures FlagsFrom(RemoveEmpty(messages).0, messages)
    decreases |messages|
  {
    if messages != [] {
      var rest := RemoveEmpty(messages[1..]).0;
      RemoveEmptyFlags(messages[1..]);
      assert messages == [messages[0]] + messages[1..];
      FlagsFromTail(rest, messages[0], messages[1..]);
      FlagsFromCons(messages[0], rest, messages[0], messages[1..]);
    }
  }

  lemma {:induction false} ScreenFlags(messages: seq<Message>, pending: set<string>)
    ensures FlagsFrom(Screen(messages, pending).messages, messages)
    decreases |messages|
  {
    hide ScreenBlocks;
    if messages != [] {
      var first := ScreenBlocks(messages[0].role, messages[0].content, pending);
      ScreenFlags(messages[1..], first.pending);
      assert messages == [messages[0]] + messages[1..];
      FlagsFromCons(messages[0].(content := first.content), Screen(messages[1..], first.pending).messages, messages[0], messages[1..]);
    }
  }

  lemma {:induction false} DropFlags(messages: seq<Message>, pending: set<string>)
    ensures FlagsFrom(DropRequests(messages, pending).0, messages)
    decreases |messages|
  {
    hide DropBlocks;
    if messages != [] {
      var rest := DropRequests(messages[1..], pending).0;
      DropFlags(messages[1..], pending);
      assert messages == [messages[0]] + messages[1..];
      FlagsFromCons(messages[0].(content := DropBlocks(messages[0].content, pending).0), rest, messages[0], messages[1..]);
      FlagsFromCons(messages[0], rest, messages[0], messages[1..]);
    }
  }

  lemma {:induction false} FixToolsFlags(messages: seq<Message>)
    ensures FlagsFrom(FixTools(messages).0, messages)
  {
    hide Screen, DropRequests, RemoveEmpty, FlagsFrom;
    var screened := Screen(messages, {});
    var dropped := DropRequests(screened.messages, screened.pending).0;
    ScreenFlags(messages, {});
    DropFlags(screened.messages, screened.pending);
    RemoveEmptyFlags(dropped);
    FlagsFromTrans(dropped, screened.messages, messages);
    FlagsFromTrans(RemoveEmpty(dropped).0, dropped, messages);
  }

  lemma {:induction false} MergeFromFlags(last: Message, rest: seq<Message>, across: bool)
    ensures FlagsFrom(MergeFrom(last, rest, across).0, [last] + rest)
    decreases |rest|
  {
    hide Joins;
    if rest == [] {
      assert ([last] + rest)[0] == last;
      assert FlagsOfOne(last, [last] + rest);
    } else {
      assert [rest[0]] + rest[1..] == rest;
      if Joins(last, rest[0], across) {
        var joined := Join(last, rest[0]);
        MergeFromFlags(joined, rest[1..], across);
        assert FlagsFrom([joined] + rest[1..], [last] + rest) by {
          SelfFlags(rest[1..]);
          FlagsFromTail(rest[1..], rest[0], rest[1..]);
          FlagsFromCons(joined, rest[1..], last, rest);
        }
        FlagsFromTrans(MergeFrom(joined, rest[1..], across).0, [joined] + rest[1..], [last] + rest);
      } else {
        MergeFromFlags(rest[0], rest[1..], across);
        FlagsFromCons(last, MergeFrom(rest[0], rest[1..], across).0, last, rest);
      }
    }
  }

  lemma {:induction false} SelfFlags(messages: seq<Message>)
    ensures FlagsFrom(messages, messages)
  {
    forall i | 0 <= i < |messages| ensures FlagsOfOne(messages[i], messages) {
      assert messages[i].userVisible == messages[i].userVisible;
    }
  }

  /** Adjacent messages have different effective roles. */
  predicate Alternates(messages: seq<Message>) {
    forall i :: 0 <= i < |messages| - 1 ==> EffectiveRoleOf(messages[i]) != EffectiveRoleOf(messages[i + 1])
  }

  lemma {:induction false} DedupeKeepsAlike(messages: seq<Message>, seen: seq<Block>)
    ensures var deduped := Dedupe(messages, seen).0;
            |deduped| == |messages| && forall i :: 0 <= i < |messages| ==> Alike(deduped[i], messages[i])
    decreases |messages|
  {
    hide DedupeBlocks, SeenAfter, HasToolResponse;
    if messages != [] {
      DedupeKeepsAlike(messages[1..], seen);
      DedupeKeepsAlike(messages[1..], SeenAfter(messages[0].content, seen));
    }
  }

  /** In the list that reaches `fix_lead_trail` no two adjacent messages join. */
  lemma {:induction false} BeforeCutIsSeparated(messages: seq<Message>)
    ensures Separated(ToolPairing.BeforeLeadTrail(messages), false)
  {
    ToolPairing.PassesInOrder(messages);
    hide ToolPairing.BeforeLeadTrail, ToolPairing.BeforeTools, FixTools, MergeConsecutive, Dedupe, HasToolResponse;
    var m5 := FixTools(ToolPairing.BeforeTools(messages)).0;
    var m6 := MergeConsecutive(m5, false).0;
    var m7 := Dedupe(m6, []).0;
    MergeSeparates(m5, false);
    DedupeKeepsAlike(m6, []);
    forall i | 0 <= i < |m7| - 1 ensures !Joins(m7[i], m7[i + 1], false) {
      assert Alike(m7[i], m6[i]) && Alike(m7[i + 1], m6[i + 1]) && !Joins(m6[i], m6[i + 1], false);
    }
  }

  /** In the list that reaches `fix_lead_trail` the flags agree if they agreed before. */
  lemma {:induction false} BeforeCutIsUniform(messages: seq<Message>)
    requires Uniform(messages)
    ensures Uniform(ToolPairing.BeforeLeadTrail(messages))
  {
    ToolPairing.PassesInOrder(messages);
    hide Tidy, RemoveEmpty, FixTools, MergeFrom, Dedupe, FlagsFrom, HasToolResponse;
    var m1 := Tidy(MergeText, messages).0;
    var m2 := Tidy(TrimText, m1).0;
    var m3 := RemoveEmpty(m2).0;
    var m4 := Tidy(FillResults, m3).0;
    var m5 := FixTools(m4).0;
    var m6 := MergeConsecutive(m5, false).0;
    assert Uniform(m6) by {
      hide Uniform;
      TidyFlags(MergeText, messages);
      TidyFlags(TrimText, m1);
      RemoveEmptyFlags(m2);
      TidyFlags(FillResults, m3);
      FixToolsFlags(m4);
      FlagsFromTrans(m2, m1, messages);
      FlagsFromTrans(m3, m2, messages);
      FlagsFromTrans(m4, m3, messages);
      FlagsFromTrans(m5, m4, messages);
      UniformFrom(m5, messages);
      MergedIsUniform(m5);
    }
    DedupeKeepsAlike(m6, []);
    var m7 := Dedupe(m6, []).0;
    forall i, j | 0 <= i < |m7| && 0 <= j < |m7|
      ensures m7[i].userVisible == m7[j].userVisible && m7[i].turnContext == m7[j].turnContext
    {
      assert Alike(m7[i], m6[i]) && Alike(m7[j], m6[j]);
    }
  }

  lemma {:induction false} MergedIsUniform(messages: seq<Message>)
    requires Uniform(messages)
    ensures Uniform(MergeConsecutive(messages, false).0)
  {
    if messages != [] {
      MergeFromFlags(messages[0], messages[1..], false);
      assert [messages[0]] + messages[1..] == messages;
      UniformFrom(MergeConsecutive(messages, false).0, messages);
    }
  }

  predicate UserAtBothEnds(messages: seq<Message>) {
    messages != [] && messages[0].role.User? && messages[|messages| - 1].role.User?
  }

  /** No two assistant messages stand at the end of the list, nor at its start, unless they are all there is. */
  predicate SingleEnds(messages: seq<Message>) {
    var led := if messages != [] && messages[0].role.Assistant? then messages[1..] else messages;
    |led| <= 1 || (led[0].role.User? && (led[|led| - 1].role.User? || led[|led| - 2].role.User?))
  }

  /** Cutting one message at each end is enough exactly when no two assistant messages stand there. */
  lemma {:induction false} EndsAreUserIffSingle(messages: seq<Message>)
    ensures UserAtBothEnds(FixMessages(messages).0) <==> SingleEnds(ToolPairing.BeforeLeadTrail(messages))
  {
    hide FixMessages, ToolPairing.BeforeLeadTrail;
    ToolPairing.PassesInOrder(messages);
    CutEnds(ToolPairing.BeforeLeadTrail(messages));
  }

  lemma {:induction false} CutEnds(messages: seq<Message>)
    ensures UserAtBothEnds(Populate(LeadTrail(messages).0).0) <==> SingleEnds(messages)
  {
  }

  // ---------- what the cut leaves ----------

  function CutFrom(messages: seq<Message>): nat {
    if messages != [] && messages[0].role.Assistant? then 1 else 0
  }

  function CutTo(messages: seq<Message>): nat {
    var n := |messages|;
    if n > CutFrom(messages) && messages[n - 1].role.Assistant? then n - 1 else n
  }

  /** The cut leaves message `i`: it is a user message, or stands at neither end. */
  predicate Survives(messages: seq<Message>, i: nat) {
    i < |messages| && (messages[i].role.User? || 0 < i < |messages| - 1)
  }

  lemma {:induction false} SurvivorsAreLeft(messages: seq<Message>)
    ensures CutFrom(messages) <= CutTo(messages) <= |messages|
    ensures LeadTrail(messages).0 == messages[CutFrom(messages)..CutTo(messages)]
    ensures forall i: nat :: Survives(messages, i) <==> CutFrom(messages) <= i < CutTo(messages)
  {
  }

  /** Two adjacent survivors have the same effective role; they were kept apart by a flag. */
  predicate Clash(messages: seq<Message>, i: nat) {
    && Survives(messages, i) && Survives(messages, i + 1)
    && EffectiveRoleOf(messages[i]) == EffectiveRoleOf(messages[i + 1])
    && (messages[i].userVisible != messages[i + 1].userVisible || messages[i].turnContext != messages[i + 1].turnContext)
  }

  /** Among messages that do not join, two adjacent survivors clash when they have the same effective role. */
  lemma {:induction false} ClashMeans(messages: seq<Message>, i: nat)
    requires Separated(messages, false)
    ensures Clash(messages, i) <==>
            && CutFrom(messages) <= i && i + 1 < CutTo(messages)
            && EffectiveRoleOf(messages[i]) == EffectiveRoleOf(messages[i + 1])
  {
    hide HasToolResponse;
    SurvivorsAreLeft(messages);
    if i + 1 < |messages| {
      assert !Joins(messages[i], messages[i + 1], false);
    }
  }

  lemma {:induction false} CutAlternatesIff(messages: seq<Message>)
    requires Separated(messages, false)
    ensures Alternates(LeadTrail(messages).0) <==> forall i: nat :: !Clash(messages, i)
  {
    SurvivorsAreLeft(messages);
    hide Separated, Survives, LeadTrail, Clash, CutFrom, CutTo, EffectiveRoleOf;
    var from, left := CutFrom(messages), LeadTrail(messages).0;
    if Alternates(left) {
      forall i: nat ensures !Clash(messages, i) {
        ClashMeans(messages, i);
        if from <= i && i + 1 < CutTo(messages) {
          assert left[i - from] == messages[i] && left[i - from + 1] == messages[i + 1];
        }
      }
    }
    if forall i: nat :: !Clash(messages, i) {
      forall i | 0 <= i < |left| - 1 ensures EffectiveRoleOf(left[i]) != EffectiveRoleOf(left[i + 1]) {
        ClashMeans(messages, from + i);
        assert left[i] == messages[from + i] && left[i + 1] == messages[from + i + 1];
      }
    }
  }

  /** For any list the effective roles of the result alternate exactly when in the list that reaches
      the cut no two adjacent survivors of one role differ in a flag. */
  lemma {:induction false} AlternatesIffNoClash(messages: seq<Message>)
    ensures Alternates(FixMessages(messages).0) <==> forall i: nat :: !Clash(ToolPairing.BeforeLeadTrail(messages), i)
  {
    hide FixMessages, ToolPairing.BeforeLeadTrail, LeadTrail, Separated, Clash, EffectiveRoleOf;
    BeforeCutIsSeparated(messages);
    ToolPairing.PassesInOrder(messages);
    CutAlternatesIff(ToolPairing.BeforeLeadTrail(messages));
  }

  /** What the documentation promises, for lists whose messages agree on `user_visible` and
      `turn_context`: the result is not empty, starts and ends with a user message, and no two
      adjacent messages have the same effective role. */
  lemma {:induction false} RepairShapesUniformLists(messages: seq<Message>)
    requires Uniform(messages)
    ensures UserAtBothEnds(FixMessages(messages).0) && Alternates(FixMessages(messages).0)
  {
    hide FixMessages, ToolPairing.BeforeLeadTrail, HasToolResponse;
    var before := ToolPairing.BeforeLeadTrail(messages);
    BeforeCutIsUniform(messages);
    BeforeCutIsSeparated(messages);
    AlternatesIffNoClash(messages);
    forall i | 0 <= i < |before| - 1 && before[i].role.Assistant? ensures before[i + 1].role.User? {
      assert !Joins(before[i], before[i + 1], false);
    }
    EndsAreUserIffSingle(messages);
  }
}
