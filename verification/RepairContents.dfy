/** What repair keeps of a conversation: every character and block of it, but for trailing whitespace of
    assistant text, tool blocks in the wrong place or without their partner, and repeated thinking. */
module RepairContents {
  import opened Text
  import opened Messages
  import opened ConversationPasses
  import opened TouchingTexts
  import opened Grains
  import ConversationShape
  import ToolPairing

  // ---------- leaving grains out ----------

  lemma {:induction false} KeptAppend(a: seq<Grain>, b: seq<Grain>, goneA: seq<bool>, goneB: seq<bool>)
    requires |goneA| == |a| && |goneB| == |b|
    ensures Kept(a + b, goneA + goneB) == Kept(a, goneA) + Kept(b, goneB)
    decreases |a|
  {
    if a == [] {
      assert a + b == b && goneA + goneB == goneB;
    } else {
      assert (a + b)[1..] == a[1..] + b && (goneA + goneB)[1..] == goneA[1..] + goneB;
      KeptAppend(a[1..], b, goneA[1..], goneB);
    }
  }

  lemma {:induction false} NothingGone(grains: seq<Grain>, gone: seq<bool>)
    requires |gone| == |grains| && forall p :: 0 <= p < |gone| ==> !gone[p]
    ensures Kept(grains, gone) == grains
    decreases |grains|
  {
    if grains != [] {
      NothingGone(grains[1..], gone[1..]);
    }
  }

  lemma {:induction false} KeptOne(g: Grain, gone: bool)
    ensures Kept([g], [gone]) == if gone then [] else [g]
  {
    assert [g][1..] == [] && [gone][1..] == [];
  }

  // ---------- fix_tool_calling ----------

  predicate Asks(g: Grain, id: string) {
    g.Whole? && g.voice.role.Assistant? && g.block.ToolRequest? && g.block.id == id
  }

  predicate Answers(g: Grain, id: string) {
    g.Whole? && g.voice.role.User? && g.block.ToolResponse? && g.block.id == id
  }

  /** The request is made at `q` and not answered from there to `p`. */
  predicate OpenSince(grains: seq<Grain>, p: nat, id: string, q: nat)
    requires p <= |grains|
  {
    q < p && Asks(grains[q], id) && forall r :: q < r < p ==> !Answers(grains[r], id)
  }

  /** A request for `id` made before `p` waits for its response there. */
  ghost predicate OpenAt(grains: seq<Grain>, p: nat, id: string)
    requires p <= |grains|
  {
    exists q: nat :: OpenSince(grains, p, id, q)
  }

  /** What `fix_tool_calling` leaves out: from user messages requests, confirmations and thinking, and
      responses to no open request; from assistant messages responses and frontend requests, and the
      requests of an id that is still open at the end. */
  ghost predicate ToolIsOut(grains: seq<Grain>, p: nat)
    requires p < |grains|
  {
    grains[p].Whole? &&
    var b := grains[p].block;
    match grains[p].voice.role
    case User =>
      b.ToolRequest? || b.ToolConfirmationRequest? || b.Thinking? || b.RedactedThinking? || (b.ToolResponse? && !OpenAt(grains, p, b.id))
    case Assistant =>
      b.ToolResponse? || b.FrontendToolRequest? || (b.ToolRequest? && OpenAt(grains, |grains|, b.id))
  }

  ghost function ToolsOut(grains: seq<Grain>): (gone: seq<bool>)
    ensures |gone| == |grains|
  {
    seq(|grains|, p requires 0 <= p < |grains| => ToolIsOut(grains, p))
  }

  /** The unanswered requests after a grain. */
  function PendingStep(g: Grain, pending: set<string>): set<string> {
    if g.Whole? then PendingAfter(g.voice.role, g.block, pending) else pending
  }

  function PendingAt(grains: seq<Grain>, pending: set<string>, p: nat): set<string>
    requires p <= |grains|
  {
    if p == 0 then pending else PendingStep(grains[p - 1], PendingAt(grains, pending, p - 1))
  }

  predicate Screens(g: Grain, pending: set<string>) {
    g.Whole? && ScreenIssue(g.voice.role, g.block, pending).Some?
  }

  function ScreenedOut(grains: seq<Grain>, pending: set<string>): seq<bool> {
    seq(|grains|, p requires 0 <= p < |grains| => Screens(grains[p], PendingAt(grains, pending, p)))
  }

  lemma {:induction false} PendingAppend(a: seq<Grain>, b: seq<Grain>, pending: set<string>, p: nat)
    requires p <= |a| + |b|
    ensures PendingAt(a + b, pending, p) ==
            if p <= |a| then PendingAt(a, pending, p) else PendingAt(b, PendingAt(a, pending, |a|), p - |a|)
    decreases p
  {
    hide PendingStep;
    if p > 0 {
      PendingAppend(a, b, pending, p - 1);
    }
  }

  lemma {:induction false} ScreenedAppend(a: seq<Grain>, b: seq<Grain>, pending: set<string>)
    ensures ScreenedOut(a + b, pending) == ScreenedOut(a, pending) + ScreenedOut(b, PendingAt(a, pending, |a|))
  {
    hide PendingAt, Screens;
    forall p: nat | p < |a| + |b|
      ensures PendingAt(a + b, pending, p) ==
              if p < |a| then PendingAt(a, pending, p) else PendingAt(b, PendingAt(a, pending, |a|), p - |a|)
    {
      PendingAppend(a, b, pending, p);
      StartPending(b, PendingAt(a, pending, |a|));
    }
  }

  lemma {:induction false} StartPending(grains: seq<Grain>, pending: set<string>)
    ensures PendingAt(grains, pending, 0) == pending
  {
  }

  lemma {:induction false} ScreenBlockGrains(v: Voice, b: Block, pending: set<string>)
    ensures var grains := BlockGrains(v, b);
            && Kept(grains, ScreenedOut(grains, pending)) == (if ScreenIssue(v.role, b, pending).Some? then [] else grains)
            && PendingAt(grains, pending, |grains|) == PendingAfter(v.role, b, pending)
  {
    var grains := BlockGrains(v, b);
    if b.Text? {
      NothingGone(grains, ScreenedOut(grains, pending));
      LettersKeepPending(v, b.text, b.audience, pending, |b.text|);
    } else {
      assert PendingAt(grains, pending, 0) == pending;
      assert ScreenedOut(grains, pending) == [ScreenIssue(v.role, b, pending).Some?];
      KeptOne(grains[0], ScreenIssue(v.role, b, pending).Some?);
    }
  }

  lemma {:induction false} LettersKeepPending(v: Voice, text: string, audience: Option<seq<Role>>, pending: set<string>, p: nat)
    requires p <= |text|
    ensures PendingAt(Letters(v, text, audience), pending, p) == pending
    decreases p
  {
    if p > 0 {
      LettersKeepPending(v, text, audience, pending, p - 1);
    }
  }

  lemma {:induction false} PendingAll(a: seq<Grain>, b: seq<Grain>, pending: set<string>)
    ensures PendingAt(a + b, pending, |a + b|) == PendingAt(b, PendingAt(a, pending, |a|), |b|)
  {
    PendingAppend(a, b, pending, |a| + |b|);
    StartPending(b, PendingAt(a, pending, |a|));
  }

  lemma {:induction false} ScreenContentGrains(v: Voice, content: seq<Block>, pending: set<string>)
    ensures var screened, grains := ScreenBlocks(v.role, content, pending), ContentGrains(v, content);
            && ContentGrains(v, screened.content) == Kept(grains, ScreenedOut(grains, pending))
            && screened.pending == PendingAt(grains, pending, |grains|)
    decreases |content|
  {
    if content != [] {
      var b, first, rest := content[0], BlockGrains(v, content[0]), ContentGrains(v, content[1..]);
      var pending' := PendingAfter(v.role, b, pending);
      ScreenBlockGrains(v, b, pending);
      ScreenContentGrains(v, content[1..], pending');
      hide ScreenIssue, PendingAfter, BlockGrains, PendingAt, ScreenedOut;
      ScreenedAppend(first, rest, pending);
      PendingAll(first, rest, pending);
      ScreenedSize(first, pending);
      ScreenedSize(rest, pending');
      KeptAppend(first, rest, ScreenedOut(first, pending), ScreenedOut(rest, pending'));
      var kept := ScreenBlocks(v.role, content[1..], pending').content;
      assert ([b] + kept)[1..] == kept && [] + kept == kept;
      assert [] + ContentGrains(v, kept) == ContentGrains(v, kept);
    } else {
      StartPending([], pending);
    }
  }

  lemma {:induction false} ScreenedSize(grains: seq<Grain>, pending: set<string>)
    ensures |ScreenedOut(grains, pending)| == |grains|
  {
  }

  lemma {:induction false} ScreenGrains(messages: seq<Message>, pending: set<string>)
    ensures var screened, grains := Screen(messages, pending), GrainsOf(messages);
            && GrainsOf(screened.messages) == Kept(grains, ScreenedOut(grains, pending))
            && screened.pending == PendingAt(grains, pending, |grains|)
    decreases |messages|
  {
    hide ScreenBlocks, ContentGrains, PendingAt, ScreenedOut, Kept;
    if messages == [] {
      StartPending([], pending);
      ScreenedSize([], pending);
      NothingGone([], ScreenedOut([], pending));
    } else {
      var m, v := messages[0], VoiceOf(messages[0]);
      var first, rest := ContentGrains(v, m.content), GrainsOf(messages[1..]);
      var screened := ScreenBlocks(m.role, m.content, pending);
      ScreenContentGrains(v, m.content, pending);
      ScreenGrains(messages[1..], screened.pending);
      ScreenedAppend(first, rest, pending);
      PendingAll(first, rest, pending);
      ScreenedSize(first, pending);
      ScreenedSize(rest, screened.pending);
      KeptAppend(first, rest, ScreenedOut(first, pending), ScreenedOut(rest, screened.pending));
      var tail := Screen(messages[1..], screened.pending).messages;
      assert ([m.(content := screened.content)] + tail)[1..] == tail;
    }
  }

  predicate Drops(g: Grain, ids: set<string>) {
    g.Whole? && g.voice.role.Assistant? && g.block.ToolRequest? && g.block.id in ids
  }

  function Dropped(grains: seq<Grain>, ids: set<string>): seq<bool> {
    seq(|grains|, p requires 0 <= p < |grains| => Drops(grains[p], ids))
  }

  lemma {:induction false} DroppedAppend(a: seq<Grain>, b: seq<Grain>, ids: set<string>)
    ensures Dropped(a + b, ids) == Dropped(a, ids) + Dropped(b, ids)
    ensures Kept(a + b, Dropped(a + b, ids)) == Kept(a, Dropped(a, ids)) + Kept(b, Dropped(b, ids))
  {
    hide Drops;
    assert Dropped(a + b, ids) == Dropped(a, ids) + Dropped(b, ids);
    KeptAppend(a, b, Dropped(a, ids), Dropped(b, ids));
  }

  lemma {:induction false} DropBlockGrains(v: Voice, b: Block, ids: set<string>)
    ensures var grains := BlockGrains(v, b);
            Kept(grains, Dropped(grains, ids)) == if v.role.Assistant? && b.ToolRequest? && b.id in ids then [] else grains
  {
    var grains := BlockGrains(v, b);
    if b.Text? {
      NothingGone(grains, Dropped(grains, ids));
    } else {
      assert Dropped(grains, ids) == [Drops(grains[0], ids)];
      KeptOne(grains[0], Drops(grains[0], ids));
    }
  }

  lemma {:induction false} DropContentGrains(v: Voice, content: seq<Block>, ids: set<string>)
    ensures var grains := ContentGrains(v, content);
            Kept(grains, Dropped(grains, ids)) ==
            ContentGrains(v, if v.role.Assistant? then DropBlocks(content, ids).0 else content)
    decreases |content|
  {
    if content != [] {
      var b := content[0];
      DropBlockGrains(v, b, ids);
      DropContentGrains(v, content[1..], ids);
      hide BlockGrains, Kept, Dropped;
      DroppedAppend(BlockGrains(v, b), ContentGrains(v, content[1..]), ids);
      var kept := DropBlocks(content[1..], ids).0;
      assert ([b] + kept)[1..] == kept;
      assert [] + ContentGrains(v, kept) == ContentGrains(v, kept);
    }
  }

  lemma {:induction false} DropGrains(messages: seq<Message>, ids: set<string>)
    ensures GrainsOf(DropRequests(messages, ids).0) == Kept(GrainsOf(messages), Dropped(GrainsOf(messages), ids))
    decreases |messages|
  {
    hide DropBlocks, ContentGrains, Drops;
    if messages != [] {
      var m, v := messages[0], VoiceOf(messages[0]);
      DropContentGrains(v, m.content, ids);
      DropGrains(messages[1..], ids);
      DroppedAppend(ContentGrains(v, m.content), GrainsOf(messages[1..]), ids);
      hide Kept, Dropped;
      var rest := DropRequests(messages[1..], ids).0;
      var m' := if m.role.Assistant? then m.(content := DropBlocks(m.content, ids).0) else m;
      assert ([m'] + rest)[1..] == rest;
    }
  }

  /** Leaving out twice is leaving out what either leaves out. */
  lemma {:induction false} KeptTwice(grains: seq<Grain>, gone: seq<bool>, ids: set<string>, out: seq<bool>)
    requires |gone| == |grains| == |out|
    requires forall p :: 0 <= p < |grains| ==> (out[p] <==> gone[p] || Drops(grains[p], ids))
    ensures Kept(Kept(grains, gone), Dropped(Kept(grains, gone), ids)) == Kept(grains, out)
    decreases |grains|
  {
    hide Drops;
    if grains != [] {
      KeptTwice(grains[1..], gone[1..], ids, out[1..]);
      var kept := Kept(grains[1..], gone[1..]);
      if !gone[0] {
        DroppedAppend([grains[0]], kept, ids);
        assert Dropped([grains[0]], ids) == [Drops(grains[0], ids)];
        KeptOne(grains[0], Drops(grains[0], ids));
        assert [] + Kept(kept, Dropped(kept, ids)) == Kept(kept, Dropped(kept, ids));
      }
    }
  }

  lemma {:induction false} OpenGrows(grains: seq<Grain>, p: nat, id: string)
    requires p < |grains|
    ensures OpenAt(grains, p + 1, id) <==> Asks(grains[p], id) || (OpenAt(grains, p, id) && !Answers(grains[p], id))
  {
    if Asks(grains[p], id) {
      assert OpenSince(grains, p + 1, id, p);
    }
    if OpenAt(grains, p + 1, id) && !Asks(grains[p], id) {
      var q: nat :| OpenSince(grains, p + 1, id, q);
      assert OpenSince(grains, p, id, q) && !Answers(grains[p], id);
    }
    forall q: nat | OpenSince(grains, p, id, q) && !Answers(grains[p], id) ensures OpenSince(grains, p + 1, id, q) {}
  }

  /** The requests the loop holds as unanswered are those open there. */
  lemma {:induction false} PendingIsOpen(grains: seq<Grain>, p: nat, id: string)
    requires p <= |grains|
    ensures id in PendingAt(grains, {}, p) <==> OpenAt(grains, p, id)
    decreases p
  {
    if p > 0 {
      PendingIsOpen(grains, p - 1, id);
      OpenGrows(grains, p - 1, id);
      hide OpenAt, PendingAt;
      assert PendingAt(grains, {}, p) == PendingStep(grains[p - 1], PendingAt(grains, {}, p - 1)) by { NextPending(grains, p); }
    }
  }

  lemma {:induction false} NextPending(grains: seq<Grain>, p: nat)
    requires 0 < p <= |grains|
    ensures PendingAt(grains, {}, p) == PendingStep(grains[p - 1], PendingAt(grains, {}, p - 1))
  {
  }

  /** `fix_tool_calling` leaves out exactly the tool blocks that `ToolIsOut` names. */
  lemma {:induction false} ToolsLeaveOut(messages: seq<Message>)
    ensures GrainsOf(FixTools(messages).0) == Kept(GrainsOf(messages), ToolsOut(GrainsOf(messages)))
  {
    var grains := GrainsOf(messages);
    var screened := Screen(messages, {});
    ScreenGrains(messages, {});
    DropGrains(screened.messages, screened.pending);
    RemoveEmptyKeepsGrains(DropRequests(screened.messages, screened.pending).0);
    hide Screen, DropRequests, RemoveEmpty, GrainsOf, PendingAt, OpenAt;
    forall p: nat | p < |grains|
      ensures ToolsOut(grains)[p] <==> ScreenedOut(grains, {})[p] || Drops(grains[p], screened.pending)
    {
      if grains[p].Whole? && (grains[p].block.ToolResponse? || grains[p].block.ToolRequest?) {
        PendingIsOpen(grains, p, grains[p].block.id);
        PendingIsOpen(grains, |grains|, grains[p].block.id);
      }
    }
    KeptTwice(grains, ScreenedOut(grains, {}), screened.pending, ToolsOut(grains));
  }

  // ---------- dedupe_signed_thinking ----------

  predicate IsSigned(b: Block) {
    (b.Thinking? && b.signature != "") || b.RedactedThinking?
  }

  /** An assistant message said the block before `p`. */
  ghost predicate SaidBefore(grains: seq<Grain>, p: nat, b: Block)
    requires p <= |grains|
  {
    exists q :: 0 <= q < p && grains[q].Whole? && grains[q].voice.role.Assistant? && grains[q].block == b
  }

  /** Signed thinking of an assistant message that was said before. */
  ghost predicate IsRepeated(grains: seq<Grain>, p: nat, seen: seq<Block>)
    requires p < |grains|
  {
    var g := grains[p];
    g.Whole? && g.voice.role.Assistant? && IsSigned(g.block) && (g.block in seen || SaidBefore(grains, p, g.block))
  }

  ghost function RepeatedOut(grains: seq<Grain>, seen: seq<Block>): (gone: seq<bool>)
    ensures |gone| == |grains|
  {
    seq(|grains|, p requires 0 <= p < |grains| => IsRepeated(grains, p, seen))
  }

  /** `after` has seen what `seen` has and what the grains say. */
  ghost predicate SeenOn(grains: seq<Grain>, seen: seq<Block>, after: seq<Block>) {
    forall b :: IsSigned(b) ==> (b in after <==> b in seen || SaidBefore(grains, |grains|, b))
  }

  lemma {:induction false} SaidAppend(a: seq<Grain>, b: seq<Grain>, p: nat, x: Block)
    requires p <= |b|
    ensures SaidBefore(a + b, |a| + p, x) <==> SaidBefore(a, |a|, x) || SaidBefore(b, p, x)
  {
    forall q | 0 <= q < |a| ensures (a + b)[q] == a[q] {}
    forall q | 0 <= q < p ensures (a + b)[|a| + q] == b[q] {}
    if SaidBefore(a + b, |a| + p, x) {
      var q :| 0 <= q < |a| + p && (a + b)[q].Whole? && (a + b)[q].voice.role.Assistant? && (a + b)[q].block == x;
      if q >= |a| {
        assert b[q - |a|] == (a + b)[q];
      }
    }
  }

  lemma {:induction false} SaidInFront(a: seq<Grain>, b: seq<Grain>, p: nat, x: Block)
    requires p <= |a|
    ensures SaidBefore(a + b, p, x) <==> SaidBefore(a, p, x)
  {
    forall q | 0 <= q < |a| ensures (a + b)[q] == a[q] {}
  }

  lemma {:induction false} RepeatedAppend(a: seq<Grain>, b: seq<Grain>, seen: seq<Block>, after: seq<Block>)
    requires SeenOn(a, seen, after)
    ensures RepeatedOut(a + b, seen) == RepeatedOut(a, seen) + RepeatedOut(b, after)
    ensures Kept(a + b, RepeatedOut(a + b, seen)) == Kept(a, RepeatedOut(a, seen)) + Kept(b, RepeatedOut(b, after))
  {
    hide SaidBefore, Kept;
    forall p: nat | p < |a| + |b|
      ensures RepeatedOut(a + b, seen)[p] <==> if p < |a| then IsRepeated(a, p, seen) else IsRepeated(b, p - |a|, after)
    {
      var g := (a + b)[p];
      if g.Whole? {
        if p < |a| {
          SaidInFront(a, b, p, g.block);
        } else {
          SaidAppend(a, b, p - |a|, g.block);
        }
      }
    }
    KeptAppend(a, b, RepeatedOut(a, seen), RepeatedOut(b, after));
  }

  lemma {:induction false} SeenOnAppend(a: seq<Grain>, b: seq<Grain>, seen: seq<Block>, middle: seq<Block>, after: seq<Block>)
    requires SeenOn(a, seen, middle) && SeenOn(b, middle, after)
    ensures SeenOn(a + b, seen, after)
  {
    hide SaidBefore;
    forall x ensures SaidBefore(a + b, |a + b|, x) <==> SaidBefore(a, |a|, x) || SaidBefore(b, |b|, x) {
      SaidAppend(a, b, |b|, x);
    }
  }

  lemma {:induction false} NothingSaid(grains: seq<Grain>, seen: seq<Block>)
    requires forall p :: 0 <= p < |grains| ==> !(grains[p].Whole? && grains[p].voice.role.Assistant? && IsSigned(grains[p].block))
    ensures SeenOn(grains, seen, seen) && Kept(grains, RepeatedOut(grains, seen)) == grains
  {
    NothingGone(grains, RepeatedOut(grains, seen));
  }

  lemma {:induction false} DedupeBlockGrains(v: Voice, b: Block, seen: seq<Block>)
    requires v.role.Assistant?
    ensures var grains := BlockGrains(v, b);
            && Kept(grains, RepeatedOut(grains, seen)) == (if IsSignedThinking(b) && b in seen then [] else grains)
            && SeenOn(grains, seen, if IsSignedThinking(b) && b !in seen then seen + [b] else seen)
  {
    var grains := BlockGrains(v, b);
    if IsSignedThinking(b) {
      assert RepeatedOut(grains, seen) == [b in seen];
      KeptOne(grains[0], b in seen);
      forall x ensures SaidBefore(grains, 1, x) <==> x == b {
        assert x == b ==> grains[0].block == x;
      }
    } else {
      NothingSaid(grains, seen);
    }
  }

  lemma {:induction false} DedupeContentGrains(v: Voice, content: seq<Block>, seen: seq<Block>)
    requires v.role.Assistant?
    ensures var grains := ContentGrains(v, content);
            && ContentGrains(v, DedupeBlocks(content, seen)) == Kept(grains, RepeatedOut(grains, seen))
            && SeenOn(grains, seen, SeenAfter(content, seen))
    decreases |content|
  {
    if content == [] {
      NothingSaid([], seen);
    } else {
      var b, rest := content[0], content[1..];
      var seen' := if IsSignedThinking(b) && b !in seen then seen + [b] else seen;
      DedupeBlockGrains(v, b, seen);
      DedupeContentGrains(v, rest, seen');
      hide SeenOn, RepeatedOut, BlockGrains, Kept;
      RepeatedAppend(BlockGrains(v, b), ContentGrains(v, rest), seen, seen');
      SeenOnAppend(BlockGrains(v, b), ContentGrains(v, rest), seen, seen', SeenAfter(rest, seen'));
      var kept := DedupeBlocks(rest, seen');
      assert ([b] + kept)[1..] == kept;
      assert [] + ContentGrains(v, kept) == ContentGrains(v, kept);
    }
  }

  lemma {:induction false} UserSaysNothing(v: Voice, content: seq<Block>, p: nat)
    requires v.role.User? && p < |ContentGrains(v, content)|
    ensures ContentGrains(v, content)[p].voice == v
    decreases |content|
  {
    if p >= |BlockGrains(v, content[0])| {
      UserSaysNothing(v, content[1..], p - |BlockGrains(v, content[0])|);
    }
  }

  /** `dedupe_signed_thinking` leaves out exactly the signed thinking that an assistant message said before. */
  lemma {:induction false} DedupeLeavesOut(messages: seq<Message>, seen: seq<Block>)
    ensures GrainsOf(Dedupe(messages, seen).0) == Kept(GrainsOf(messages), RepeatedOut(GrainsOf(messages), seen))
    decreases |messages|
  {
    hide DedupeBlocks, SeenAfter, ContentGrains, SeenOn, RepeatedOut, Kept;
    if messages == [] {
      NothingSaid([], seen);
    } else {
      var m, v := messages[0], VoiceOf(messages[0]);
      var first := ContentGrains(v, m.content);
      if m.role.User? {
        forall p: nat | p < |first| ensures first[p].voice == v {
          UserSaysNothing(v, m.content, p);
        }
        NothingSaid(first, seen);
      } else {
        DedupeContentGrains(v, m.content, seen);
      }
      var seen' := if m.role.User? then seen else SeenAfter(m.content, seen);
      DedupeLeavesOut(messages[1..], seen');
      RepeatedAppend(first, GrainsOf(messages[1..]), seen, seen');
      var m' := if m.role.User? then m else m.(content := DedupeBlocks(m.content, seen));
      var rest := Dedupe(messages[1..], seen').0;
      assert ([m'] + rest)[1..] == rest;
    }
  }

  // ---------- the whole repair ----------

  /** The list after the two passes over text. */
  function Tidied(messages: seq<Message>): seq<Message> {
    Tidy(TrimText, Tidy(MergeText, messages).0).0
  }

  /** What the passes make of a conversation without its message borders. */
  ghost function Repaired(grains: seq<Grain>): seq<Grain> {
    var filled := FilledGrains(grains);
    var paired := Kept(filled, ToolsOut(filled));
    Kept(paired, RepeatedOut(paired, []))
  }

  /** Up to the cut at the ends, repair keeps everything that is said, in order, with its role, its flags
      and its audience, except for whitespace in assistant text, the tool blocks that `ToolIsOut` names
      and repeated signed thinking; and it changes only successful results with nothing to show. */
  lemma {:induction false} RepairKeepsWhatIsSaid(messages: seq<Message>)
    ensures GrainsOf(ToolPairing.BeforeLeadTrail(messages)) == Repaired(GrainsOf(Tidied(messages)))
    ensures Seen(GrainsOf(Tidied(messages))) == Seen(GrainsOf(messages))
  {
    hide Tidy, RemoveEmpty, FixTools, MergeConsecutive, Dedupe, GrainsOf, Seen, Kept, ToolsOut, RepeatedOut, FilledGrains;
    ToolPairing.PassesInOrder(messages);
    var m1 := Tidy(MergeText, messages).0;
    var m3 := RemoveEmpty(Tidied(messages)).0;
    var m4 := Tidy(FillResults, m3).0;
    var m5 := FixTools(m4).0;
    MergeTextKeepsGrains(messages);
    TrimKeepsSeen(m1);
    RemoveEmptyKeepsGrains(Tidied(messages));
    FillFillsGrains(m3);
    ToolsLeaveOut(m4);
    MergeKeepsGrains(m5);
    DedupeLeavesOut(MergeConsecutive(m5, false).0, []);
  }

  /** The messages that survive the cut say what they said before it; the rest of the list is gone. */
  lemma {:induction false} ResultSaysWhatSurvives(messages: seq<Message>)
    ensures var before := ToolPairing.BeforeLeadTrail(messages);
            var survivors := before[ConversationShape.CutFrom(before)..ConversationShape.CutTo(before)];
            if survivors == [] then FixMessages(messages).0 == [PLACEHOLDER] else FixMessages(messages).0 == survivors
  {
    hide FixMessages, ToolPairing.BeforeLeadTrail, LeadTrail;
    ToolPairing.PassesInOrder(messages);
    ConversationShape.SurvivorsAreLeft(ToolPairing.BeforeLeadTrail(messages));
  }

  // ---------- what becomes of tool results ----------

  lemma {:induction false} KeptIsThere(grains: seq<Grain>, gone: seq<bool>, g: Grain)
    requires |gone| == |grains| && g in Kept(grains, gone)
    ensures g in grains
    decreases |grains|
  {
    if !(!gone[0] && g == grains[0]) {
      KeptIsThere(grains[1..], gone[1..], g);
    }
  }

  lemma {:induction false} SeenIsThere(grains: seq<Grain>, g: Grain)
    requires g.Whole?
    ensures g in Seen(grains) <==> g in grains
    decreases |grains|
  {
    if grains != [] {
      SeenIsThere(grains[1..], g);
      assert grains == [grains[0]] + grains[1..];
    }
  }

  lemma {:induction false} BlockIsGrain(messages: seq<Message>, i: nat, j: nat)
    requires i < |messages| && j < |messages[i].content| && !messages[i].content[j].Text?
    ensures Whole(VoiceOf(messages[i]), messages[i].content[j]) in GrainsOf(messages)
    decreases i
  {
    hide ContentGrains;
    if i == 0 {
      BlockInContent(VoiceOf(messages[0]), messages[0].content, j);
    } else {
      BlockIsGrain(messages[1..], i - 1, j);
    }
  }

  lemma {:induction false} BlockInContent(v: Voice, content: seq<Block>, j: nat)
    requires j < |content| && !content[j].Text?
    ensures Whole(v, content[j]) in ContentGrains(v, content)
    decreases j
  {
    if j > 0 {
      BlockInContent(v, content[1..], j - 1);
    }
  }

  lemma {:induction false} GrainIsBlock(messages: seq<Message>, g: Grain) returns (i: nat, j: nat)
    requires g in GrainsOf(messages) && g.Whole?
    ensures i < |messages| && j < |messages[i].content| && messages[i].content[j] == g.block && VoiceOf(messages[i]) == g.voice
    decreases |messages|
  {
    hide ContentGrains;
    if g in ContentGrains(VoiceOf(messages[0]), messages[0].content) {
      i := 0;
      j := ContentHasBlock(VoiceOf(messages[0]), messages[0].content, g);
    } else {
      i, j := GrainIsBlock(messages[1..], g);
      i := i + 1;
    }
  }

  lemma {:induction false} ContentHasBlock(v: Voice, content: seq<Block>, g: Grain) returns (j: nat)
    requires g in ContentGrains(v, content) && g.Whole?
    ensures j < |content| && content[j] == g.block && v == g.voice
    decreases |content|
  {
    if g in BlockGrains(v, content[0]) {
      j := 0;
    } else {
      j := ContentHasBlock(v, content[1..], g);
      j := j + 1;
    }
  }

  /** Every block other than text of the result is one of the input, said by the same role with the same
      flags: as it was, or, if it is a successful tool result with nothing to show, with the placeholder. */
  lemma {:induction false} BlocksComeFromTheInput(messages: seq<Message>, i: nat, j: nat) returns (k: nat, l: nat)
    requires i < |FixMessages(messages).0| && j < |FixMessages(messages).0[i].content|
    requires !FixMessages(messages).0[i].content[j].Text?
    ensures k < |messages| && l < |messages[k].content|
    ensures FixMessages(messages).0[i].content[j] == WithPlaceholder(messages[k].content[l])
    ensures VoiceOf(FixMessages(messages).0[i]) == VoiceOf(messages[k])
  {
    var before, fixed := ToolPairing.BeforeLeadTrail(messages), FixMessages(messages).0;
    ResultSaysWhatSurvives(messages);
    RepairKeepsWhatIsSaid(messages);
    hide FixMessages, ToolPairing.BeforeLeadTrail, Tidied, ToolsOut, RepeatedOut, FilledGrain;
    var from := ConversationShape.CutFrom(before);
    var g := Whole(VoiceOf(fixed[i]), fixed[i].content[j]);
    BlockIsGrain(before, from + i, j);
    var grains := GrainsOf(Tidied(messages));
    hide GrainsOf, Seen, Kept;
    var source := GrainComesFrom(grains, g);
    SeenIsThere(grains, source);
    SeenIsThere(GrainsOf(messages), source);
    k, l := GrainIsBlock(messages, source);
  }

  lemma {:induction false} GrainComesFrom(grains: seq<Grain>, g: Grain) returns (source: Grain)
    requires g in Repaired(grains) && g.Whole?
    ensures source in grains && source.Whole? && g == Whole(source.voice, WithPlaceholder(source.block))
  {
    hide ToolsOut, RepeatedOut, Kept, WithPlaceholder;
    var filled := FilledGrains(grains);
    var paired := Kept(filled, ToolsOut(filled));
    KeptIsThere(paired, RepeatedOut(paired, []), g);
    KeptIsThere(filled, ToolsOut(filled), g);
    var p :| 0 <= p < |filled| && filled[p] == g;
    source := grains[p];
  }
}
