/** After repair every tool request has its one response, in a later user message, and every response
    its request. */
module ToolPairing {
  import opened Text
  import opened Messages
  import opened ConversationPasses

  // ---------- requests and responses in the order of the conversation ----------

  datatype Event = Asked(id: string) | Answered(id: string)

  function BlockEvents(role: Role, b: Block): seq<Event> {
    if role.Assistant? && b.ToolRequest? then [Asked(b.id)]
    else if role.User? && b.ToolResponse? then [Answered(b.id)]
    else []
  }

  function ContentEvents(role: Role, content: seq<Block>): seq<Event> {
    if content == [] then [] else BlockEvents(role, content[0]) + ContentEvents(role, content[1..])
  }

  function MessageEvents(m: Message): seq<Event> {
    ContentEvents(m.role, m.content)
  }

  function Events(messages: seq<Message>): seq<Event> {
    if messages == [] then [] else MessageEvents(messages[0]) + Events(messages[1..])
  }

  /** What the first loop does to the events. */
  function Accept(events: seq<Event>, pending: set<string>): (seq<Event>, set<string>)
    decreases |events|
  {
    if events == [] then ([], pending)
    else if events[0].Asked? then
      var (rest, end) := Accept(events[1..], pending + {events[0].id});
      ([events[0]] + rest, end)
    else if events[0].id in pending then
      var (rest, end) := Accept(events[1..], pending - {events[0].id});
      ([events[0]] + rest, end)
    else
      Accept(events[1..], pending)
  }

  /** What the second loop does to them. */
  function DropAsked(events: seq<Event>, ids: set<string>): seq<Event> {
    if events == [] then []
    else (if events[0].Asked? && events[0].id in ids then [] else [events[0]]) + DropAsked(events[1..], ids)
  }

  function AskedIds(events: seq<Event>): set<string> {
    if events == [] then {} else (if events[0].Asked? then {events[0].id} else {}) + AskedIds(events[1..])
  }

  /** No two requests share an id. */
  predicate DistinctRequests(events: seq<Event>) {
    events != [] ==> (events[0].Asked? ==> events[0].id !in AskedIds(events[1..])) && DistinctRequests(events[1..])
  }

  /** Every answer finds its request open, and none stays open. */
  predicate Matches(events: seq<Event>, open: set<string>)
    decreases |events|
  {
    if events == [] then open == {}
    else if events[0].Asked? then events[0].id !in open && Matches(events[1..], open + {events[0].id})
    else events[0].id in open && Matches(events[1..], open - {events[0].id})
  }

  lemma {:induction false} EndsFromKnown(events: seq<Event>, pending: set<string>)
    ensures Accept(events, pending).1 <= pending + AskedIds(events)
    decreases |events|
  {
    if events != [] {
      EndsFromKnown(events[1..], pending + {events[0].id});
      EndsFromKnown(events[1..], pending - {events[0].id});
      EndsFromKnown(events[1..], pending);
    }
  }

  /** The two loops leave a list in which requests and responses match. */
  lemma {:induction false} AcceptedMatch(events: seq<Event>, pending: set<string>)
    requires DistinctRequests(events) && pending !! AskedIds(events)
    ensures var (accepted, end) := Accept(events, pending); Matches(DropAsked(accepted, end), pending - end)
    decreases |events|
  {
    if events != [] {
      var e, rest := events[0], events[1..];
      if e.Asked? {
        var (accepted, end) := Accept(rest, pending + {e.id});
        AcceptedMatch(rest, pending + {e.id});
        assert ([e] + accepted)[1..] == accepted;
        if e.id in end {
          assert [] + DropAsked(accepted, end) == DropAsked(accepted, end);
          assert pending + {e.id} - end == pending - end;
        } else {
          assert ([e] + DropAsked(accepted, end))[1..] == DropAsked(accepted, end);
          assert pending + {e.id} - end == pending - end + {e.id};
        }
      } else if e.id in pending {
        var (accepted, end) := Accept(rest, pending - {e.id});
        AcceptedMatch(rest, pending - {e.id});
        EndsFromKnown(rest, pending - {e.id});
        assert ([e] + accepted)[1..] == accepted;
        assert ([e] + DropAsked(accepted, end))[1..] == DropAsked(accepted, end);
        assert pending - {e.id} - end == pending - end - {e.id};
      } else {
        AcceptedMatch(rest, pending);
      }
    }
  }

  lemma {:induction false} FewerAsked(events: seq<Event>, pending: set<string>, ids: set<string>)
    ensures AskedIds(DropAsked(Accept(events, pending).0, ids)) <= AskedIds(events)
    ensures DistinctRequests(events) ==> DistinctRequests(DropAsked(Accept(events, pending).0, ids))
    decreases |events|
  {
    if events != [] {
      var e, rest := events[0], events[1..];
      var pending' := if e.Asked? then pending + {e.id} else if e.id in pending then pending - {e.id} else pending;
      FewerAsked(rest, pending', ids);
      var accepted := Accept(rest, pending').0;
      assert ([e] + accepted)[1..] == accepted;
      var left := DropAsked(accepted, ids);
      assert ([e] + left)[1..] == left && [] + left == left;
    }
  }

  // ---------- what matching means, position by position ----------

  predicate IsAsked(events: seq<Event>, i: nat, id: string) {
    i < |events| && events[i] == Asked(id)
  }

  predicate IsAnswered(events: seq<Event>, i: nat, id: string) {
    i < |events| && events[i] == Answered(id)
  }

  /** A bijection: each request has exactly one response, after it, and each response a request. */
  ghost predicate Paired(events: seq<Event>) {
    && (forall id, i: nat, j: nat :: IsAsked(events, i, id) && IsAsked(events, j, id) ==> i == j)
    && (forall id, i: nat, j: nat :: IsAnswered(events, i, id) && IsAnswered(events, j, id) ==> i == j)
    && (forall id, i: nat :: IsAsked(events, i, id) ==> exists j: nat :: i < j && IsAnswered(events, j, id))
    && (forall id, j: nat :: IsAnswered(events, j, id) ==> exists i: nat :: i < j && IsAsked(events, i, id))
  }

  lemma {:induction false} AskedIsKnown(events: seq<Event>, i: nat, id: string)
    requires IsAsked(events, i, id)
    ensures id in AskedIds(events)
    decreases i
  {
    if i > 0 {
      AskedIsKnown(events[1..], i - 1, id);
    }
  }

  lemma {:induction false} KnownIsAsked(events: seq<Event>, id: string) returns (i: nat)
    requires id in AskedIds(events)
    ensures IsAsked(events, i, id)
  {
    if events[0] == Asked(id) {
      i := 0;
    } else {
      i := KnownIsAsked(events[1..], id);
      i := i + 1;
    }
  }

  lemma {:induction false} DistinctMeans(events: seq<Event>, i: nat, j: nat, id: string)
    requires DistinctRequests(events) && IsAsked(events, i, id) && IsAsked(events, j, id)
    ensures i == j
    decreases i
  {
    if i > 0 && j > 0 {
      DistinctMeans(events[1..], i - 1, j - 1, id);
    } else if i > 0 {
      AskedIsKnown(events[1..], i - 1, id);
    } else if j > 0 {
      AskedIsKnown(events[1..], j - 1, id);
    }
  }

  /** An open request is answered, and an answer was open or is asked for first. */
  lemma {:induction false} OpenIsAnswered(events: seq<Event>, open: set<string>, id: string) returns (j: nat)
    requires Matches(events, open) && id in open
    ensures IsAnswered(events, j, id)
    decreases |events|
  {
    var e := events[0];
    if e == Answered(id) {
      j := 0;
    } else {
      j := OpenIsAnswered(events[1..], if e.Asked? then open + {e.id} else open - {e.id}, id);
      j := j + 1;
    }
  }

  lemma {:induction false} AskedIsAnswered(events: seq<Event>, open: set<string>, i: nat, id: string) returns (j: nat)
    requires Matches(events, open) && IsAsked(events, i, id)
    ensures i < j && IsAnswered(events, j, id)
    decreases i
  {
    var e := events[0];
    var open' := if e.Asked? then open + {e.id} else open - {e.id};
    if i == 0 {
      j := OpenIsAnswered(events[1..], open', id);
    } else {
      j := AskedIsAnswered(events[1..], open', i - 1, id);
    }
    j := j + 1;
  }

  lemma {:induction false} AnsweredWasAsked(events: seq<Event>, open: set<string>, j: nat, id: string) returns (i: nat)
    requires Matches(events, open) && IsAnswered(events, j, id) && id !in open
    ensures i < j && IsAsked(events, i, id)
    decreases j
  {
    var e := events[0];
    if e == Asked(id) {
      i := 0;
    } else {
      i := AnsweredWasAsked(events[1..], if e.Asked? then open + {e.id} else open - {e.id}, j - 1, id);
      i := i + 1;
    }
  }

  lemma {:induction false} AnsweredOnce(events: seq<Event>, open: set<string>, j: nat, k: nat, id: string)
    requires Matches(events, open) && DistinctRequests(events) && open !! AskedIds(events)
    requires IsAnswered(events, j, id) && IsAnswered(events, k, id) && j <= k
    ensures j == k
    decreases j
  {
    var e := events[0];
    if j == 0 {
      if k > 0 {
        var i := AnsweredWasAsked(events[1..], open - {id}, k - 1, id);
        AskedIsKnown(events[1..], i, id);
      }
    } else {
      AnsweredOnce(events[1..], if e.Asked? then open + {e.id} else open - {e.id}, j - 1, k - 1, id);
    }
  }

  lemma {:induction false} MatchesIsPaired(events: seq<Event>)
    requires Matches(events, {}) && DistinctRequests(events)
    ensures Paired(events)
  {
    forall id, i: nat, j: nat | IsAsked(events, i, id) && IsAsked(events, j, id) ensures i == j {
      DistinctMeans(events, i, j, id);
    }
    forall id, i: nat, j: nat | IsAnswered(events, i, id) && IsAnswered(events, j, id) ensures i == j {
      if i <= j { AnsweredOnce(events, {}, i, j, id); } else { AnsweredOnce(events, {}, j, i, id); }
    }
    forall id, i: nat | IsAsked(events, i, id) ensures exists j: nat :: i < j && IsAnswered(events, j, id) {
      var j := AskedIsAnswered(events, {}, i, id);
    }
    forall id, j: nat | IsAnswered(events, j, id) ensures exists i: nat :: i < j && IsAsked(events, i, id) {
      var i := AnsweredWasAsked(events, {}, j, id);
    }
  }

  // ---------- the passes, seen through their events ----------

  lemma {:induction false} AcceptAppend(a: seq<Event>, b: seq<Event>, pending: set<string>)
    ensures var (first, mid) := Accept(a, pending);
            var (second, end) := Accept(b, mid);
            Accept(a + b, pending) == (first + second, end)
    decreases |a|
  {
    if a == [] {
      assert a + b == b;
      assert [] + Accept(b, pending).0 == Accept(b, pending).0;
    } else {
      assert (a + b)[1..] == a[1..] + b;
      var e := a[0];
      var pending' := if e.Asked? then pending + {e.id} else if e.id in pending then pending - {e.id} else pending;
      AcceptAppend(a[1..], b, pending');
      var first := Accept(a[1..], pending').0;
      var second := Accept(b, Accept(a[1..], pending').1).0;
      assert [e] + (first + second) == [e] + first + second;
    }
  }

  lemma {:induction false} EventAssoc(a: seq<Event>, b: seq<Event>, c: seq<Event>)
    ensures a + (b + c) == a + b + c
  {
  }

  lemma {:induction false} DropAskedAppend(a: seq<Event>, b: seq<Event>, ids: set<string>)
    ensures DropAsked(a + b, ids) == DropAsked(a, ids) + DropAsked(b, ids)
    decreases |a|
  {
    if a == [] {
      assert a + b == b;
    } else {
      assert (a + b)[1..] == a[1..] + b;
      DropAskedAppend(a[1..], b, ids);
      var first := if a[0].Asked? && a[0].id in ids then [] else [a[0]];
      EventAssoc(first, DropAsked(a[1..], ids), DropAsked(b, ids));
    }
  }

  lemma {:induction false} ScreenBlockEvents(role: Role, b: Block, pending: set<string>)
    ensures Accept(BlockEvents(role, b), pending) ==
            (if ScreenIssue(role, b, pending).None? then BlockEvents(role, b) else [], PendingAfter(role, b, pending))
  {
    var none: seq<Event> := [];
    if BlockEvents(role, b) != [] {
      assert BlockEvents(role, b)[1..] == none;
      assert [BlockEvents(role, b)[0]] + none == BlockEvents(role, b);
    }
    assert role.User? && b.ToolResponse? && b.id !in pending ==> pending - {b.id} == pending;
  }

  lemma {:induction false} ScreenContentEvents(role: Role, content: seq<Block>, pending: set<string>)
    ensures var screened := ScreenBlocks(role, content, pending);
            Accept(ContentEvents(role, content), pending) == (ContentEvents(role, screened.content), screened.pending)
    decreases |content|
  {
    hide ScreenIssue, PendingAfter, BlockEvents;
    if content != [] {
      var b, rest := content[0], content[1..];
      ScreenBlockEvents(role, b, pending);
      ScreenContentEvents(role, rest, PendingAfter(role, b, pending));
      AcceptAppend(BlockEvents(role, b), ContentEvents(role, rest), pending);
      var kept := ScreenBlocks(role, rest, PendingAfter(role, b, pending)).content;
      assert ([b] + kept)[1..] == kept && [] + kept == kept;
      assert [] + ContentEvents(role, kept) == ContentEvents(role, kept);
    }
  }

  lemma {:induction false} ScreenEvents(messages: seq<Message>, pending: set<string>)
    ensures var screened := Screen(messages, pending);
            Accept(Events(messages), pending) == (Events(screened.messages), screened.pending)
    decreases |messages|
  {
    hide ScreenBlocks, ContentEvents, Accept;
    if messages != [] {
      var m := messages[0];
      var first := ScreenBlocks(m.role, m.content, pending);
      ScreenContentEvents(m.role, m.content, pending);
      ScreenEvents(messages[1..], first.pending);
      AcceptAppend(MessageEvents(m), Events(messages[1..]), pending);
      var rest := Screen(messages[1..], first.pending).messages;
      assert ([m.(content := first.content)] + rest)[1..] == rest;
    } else {
      AcceptNothing(pending);
    }
  }

  lemma {:induction false} AcceptNothing(pending: set<string>)
    ensures Accept([], pending) == ([], pending)
  {
  }

  lemma {:induction false} DropContentEvents(role: Role, content: seq<Block>, pending: set<string>)
    ensures DropAsked(ContentEvents(role, content), pending) ==
            ContentEvents(role, if role.Assistant? then DropBlocks(content, pending).0 else content)
    decreases |content|
  {
    if content != [] {
      var b, rest := content[0], content[1..];
      DropContentEvents(role, rest, pending);
      DropAskedAppend(BlockEvents(role, b), ContentEvents(role, rest), pending);
      assert BlockEvents(role, b) != [] ==> BlockEvents(role, b)[1..] == [];
      var kept := DropBlocks(rest, pending).0;
      assert ([b] + kept)[1..] == kept;
    }
  }

  lemma {:induction false} DropEvents(messages: seq<Message>, pending: set<string>)
    ensures Events(DropRequests(messages, pending).0) == DropAsked(Events(messages), pending)
    decreases |messages|
  {
    hide DropBlocks, ContentEvents;
    if messages != [] {
      var m := messages[0];
      DropContentEvents(m.role, m.content, pending);
      DropEvents(messages[1..], pending);
      DropAskedAppend(MessageEvents(m), Events(messages[1..]), pending);
      var rest := DropRequests(messages[1..], pending).0;
      var m' := if m.role.Assistant? then m.(content := DropBlocks(m.content, pending).0) else m;
      assert ([m'] + rest)[1..] == rest;
    }
  }

  lemma {:induction false} EmptyHasNoEvents(role: Role, content: seq<Block>)
    requires IsEmptyContent(content)
    ensures ContentEvents(role, content) == []
    decreases |content|
  {
    if content != [] {
      EmptyHasNoEvents(role, content[1..]);
    }
  }

  lemma {:induction false} RemoveEmptyEvents(messages: seq<Message>)
    ensures Events(RemoveEmpty(messages).0) == Events(messages)
    decreases |messages|
  {
    hide IsEmptyContent, ContentEvents;
    if messages != [] {
      var m, rest := messages[0], RemoveEmpty(messages[1..]).0;
      RemoveEmptyEvents(messages[1..]);
      if IsEmptyContent(m.content) {
        EmptyHasNoEvents(m.role, m.content);
        assert [] + Events(messages[1..]) == Events(messages[1..]);
      } else {
        assert ([m] + rest)[1..] == rest;
      }
    }
  }

  /** `fix_tool_calling` on a list with distinct request ids: requests and responses are paired. */
  lemma {:induction false} FixToolsPairs(messages: seq<Message>)
    requires DistinctRequests(Events(messages))
    ensures Matches(Events(FixTools(messages).0), {}) && DistinctRequests(Events(FixTools(messages).0))
  {
    hide Screen, DropRequests, RemoveEmpty, Events, Accept, DropAsked, Matches, DistinctRequests;
    var screened := Screen(messages, {});
    var dropped := DropRequests(screened.messages, screened.pending).0;
    ScreenEvents(messages, {});
    DropEvents(screened.messages, screened.pending);
    RemoveEmptyEvents(dropped);
    AcceptedMatch(Events(messages), {});
    assert {} - screened.pending == {};
    FewerAsked(Events(messages), {}, screened.pending);
  }

  /** The events of a list are those of its parts. */
  lemma {:induction false} EventsAppend(a: seq<Message>, b: seq<Message>)
    ensures Events(a + b) == Events(a) + Events(b)
    decreases |a|
  {
    hide MessageEvents;
    if a == [] {
      assert a + b == b;
    } else {
      assert (a + b)[1..] == a[1..] + b;
      EventsAppend(a[1..], b);
    }
  }

  lemma {:induction false} ContentEventsAppend(role: Role, a: seq<Block>, b: seq<Block>)
    ensures ContentEvents(role, a + b) == ContentEvents(role, a) + ContentEvents(role, b)
    decreases |a|
  {
    hide BlockEvents;
    if a == [] {
      assert a + b == b;
    } else {
      assert (a + b)[1..] == a[1..] + b;
      ContentEventsAppend(role, a[1..], b);
    }
  }

  // ---------- the passes after it keep every event, but for the ends of the list ----------

  lemma {:induction false} MergeEvents(last: Message, rest: seq<Message>, across: bool)
    ensures Events(MergeFrom(last, rest, across).0) == MessageEvents(last) + Events(rest)
    decreases |rest|
  {
    hide ContentEvents, HasToolResponse;
    if rest == [] {
      assert [last][1..] == [];
    } else if Joins(last, rest[0], across) {
      var joined := Join(last, rest[0]);
      ContentEventsAppend(last.role, last.content, rest[0].content);
      assert MessageEvents(joined) == MessageEvents(last) + MessageEvents(rest[0]);
      MergeEvents(joined, rest[1..], across);
      assert MessageEvents(last) + MessageEvents(rest[0]) + Events(rest[1..]) == MessageEvents(last) + (MessageEvents(rest[0]) + Events(rest[1..]));
    } else {
      MergeEvents(rest[0], rest[1..], across);
      var merged := MergeFrom(rest[0], rest[1..], across).0;
      assert ([last] + merged)[1..] == merged;
    }
  }

  lemma {:induction false} MergeConsecutiveEvents(messages: seq<Message>, across: bool)
    ensures Events(MergeConsecutive(messages, across).0) == Events(messages)
  {
    hide MergeFrom;
    if messages != [] {
      MergeEvents(messages[0], messages[1..], across);
    }
  }

  lemma {:induction false} DedupeBlocksEvents(role: Role, content: seq<Block>, seen: seq<Block>)
    ensures ContentEvents(role, DedupeBlocks(content, seen)) == ContentEvents(role, content)
    decreases |content|
  {
    if content != [] {
      var b, rest := content[0], content[1..];
      var seen' := if IsSignedThinking(b) && b !in seen then seen + [b] else seen;
      DedupeBlocksEvents(role, rest, seen');
      var kept := DedupeBlocks(rest, seen');
      assert ([b] + kept)[1..] == kept;
      if IsSignedThinking(b) {
        assert BlockEvents(role, b) == [] && [] + ContentEvents(role, rest) == ContentEvents(role, rest);
      }
    }
  }

  lemma {:induction false} DedupeEvents(messages: seq<Message>, seen: seq<Block>)
    ensures Events(Dedupe(messages, seen).0) == Events(messages)
    decreases |messages|
  {
    hide DedupeBlocks, SeenAfter, ContentEvents;
    if messages != [] {
      var m := messages[0];
      var seen' := if m.role.User? then seen else SeenAfter(m.content, seen);
      var m' := if m.role.User? then m else m.(content := DedupeBlocks(m.content, seen));
      DedupeBlocksEvents(m.role, m.content, seen);
      DedupeEvents(messages[1..], seen');
      var rest := Dedupe(messages[1..], seen').0;
      assert ([m'] + rest)[1..] == rest;
    }
  }

  lemma {:induction false} AbsorbEvents(role: Role, merged: seq<Block>, b: Block)
    ensures ContentEvents(role, Absorb(merged, b)) == ContentEvents(role, merged) + BlockEvents(role, b)
  {
    NoEvents(role);
    assert [b][1..] == [];
    assert BlockEvents(role, b) + [] == BlockEvents(role, b);
    assert ContentEvents(role, [b]) == BlockEvents(role, b);
    if merged != [] && Mergeable(merged[|merged| - 1], b) {
      var front, last := merged[..|merged| - 1], merged[|merged| - 1];
      var grown := MergeInto(last, b);
      assert merged == front + [last] && [last][1..] == [] && [grown][1..] == [];
      ContentEventsAppend(role, front, [last]);
      ContentEventsAppend(role, front, [grown]);
    } else {
      ContentEventsAppend(role, merged, [b]);
    }
  }

  lemma {:induction false} MergeBlocksEvents(role: Role, merged: seq<Block>, rest: seq<Block>)
    ensures ContentEvents(role, MergeBlocks(merged, rest)) == ContentEvents(role, merged) + ContentEvents(role, rest)
    decreases |rest|
  {
    hide Absorb, BlockEvents;
    if rest != [] {
      AbsorbEvents(role, merged, rest[0]);
      MergeBlocksEvents(role, Absorb(merged, rest[0]), rest[1..]);
      assert ContentEvents(role, merged) + BlockEvents(role, rest[0]) + ContentEvents(role, rest[1..])
          == ContentEvents(role, merged) + (BlockEvents(role, rest[0]) + ContentEvents(role, rest[1..]));
    }
  }

  lemma {:induction false} TidyBlocksEvents(role: Role, pass: MessagePass, content: seq<Block>)
    ensures ContentEvents(role, TidyBlocks(pass, content).0) == ContentEvents(role, content)
    decreases |content|
  {
    hide HasToolResultContent, TrimEnd, BlockIssues;
    if content != [] {
      TidyBlocksEvents(role, pass, content[1..]);
      var rest := TidyBlocks(pass, content[1..]).0;
      assert ([TidyBlock(pass, content[0])] + rest)[1..] == rest;
    }
  }

  lemma {:induction false} TidyEvents(pass: MessagePass, messages: seq<Message>)
    ensures Events(Tidy(pass, messages).0) == Events(messages)
    decreases |messages|
  {
    hide TidyBlocks, MergeBlocks, ContentEvents;
    if messages != [] {
      var m := messages[0];
      TidyBlocksEvents(m.role, pass, m.content);
      MergeBlocksEvents(m.role, [], m.content);
      NoEvents(m.role);
      assert [] + ContentEvents(m.role, m.content) == ContentEvents(m.role, m.content);
      TidyEvents(pass, messages[1..]);
      var rest := Tidy(pass, messages[1..]).0;
      assert ([TidyMessage(pass, m).0] + rest)[1..] == rest;
    }
  }

  lemma {:induction false} NoEvents(role: Role)
    ensures ContentEvents(role, []) == []
  {
  }

  // ---------- the ends of the list ----------

  predicate AllAsked(events: seq<Event>) {
    forall i :: 0 <= i < |events| ==> events[i].Asked?
  }

  lemma {:induction false} AssistantOnlyAsks(content: seq<Block>)
    ensures AllAsked(ContentEvents(Assistant, content))
    ensures ContentEvents(Assistant, content) == [] <==> forall j :: 0 <= j < |content| ==> !content[j].ToolRequest?
    decreases |content|
  {
    if content != [] {
      AssistantOnlyAsks(content[1..]);
      if ContentEvents(Assistant, content) == [] {
        forall j | 0 <= j < |content| ensures !content[j].ToolRequest? {
          if j > 0 {
            assert content[1..][j - 1] == content[j];
          }
        }
      } else if !content[0].ToolRequest? {
        var j :| 0 <= j < |content[1..]| && content[1..][j].ToolRequest?;
        assert content[j + 1].ToolRequest?;
      }
    }
  }

  /** A list that matches cannot end in requests. */
  lemma {:induction false} NoTrailingRequests(a: seq<Event>, b: seq<Event>, open: set<string>)
    requires Matches(a + b, open) && AllAsked(b)
    ensures b == []
    decreases |a|
  {
    if a != [] {
      assert (a + b)[1..] == a[1..] + b;
      NoTrailingRequests(a[1..], b, if a[0].Asked? then open + {a[0].id} else open - {a[0].id});
    } else if b != [] {
      assert a + b == b;
      var j := AskedIsAnswered(b, open, 0, b[0].id);
    }
  }

  /** Without its first requests a list that matched has an answer nobody asked for. */
  lemma {:induction false} LostRequest(first: seq<Event>, middle: seq<Event>, last: seq<Event>)
    requires Matches(first + middle + last, {}) && DistinctRequests(first + middle + last)
    requires AllAsked(first) && AllAsked(last) && first != []
    ensures !Paired(middle)
  {
    var events := first + middle + last;
    var id := first[0].id;
    assert IsAsked(events, 0, id);
    var j := AskedIsAnswered(events, {}, 0, id);
    var k := j - |first|;
    assert forall i :: 0 <= i < |first| ==> events[i] == first[i];
    assert forall i :: 0 <= i < |last| ==> events[|first| + |middle| + i] == last[i];
    assert |first| <= j;
    assert forall i :: |first| + |middle| <= i < |events| ==> events[i] == last[i - |first| - |middle|];
    assert j < |first| + |middle|;
    assert IsAnswered(middle, k, id);
    if Paired(middle) {
      var i: nat :| i < k && IsAsked(middle, i, id);
      assert IsAsked(events, |first| + i, id);
      DistinctMeans(events, 0, |first| + i, id);
    }
  }

  /** The first message is not an assistant message with a tool request. */
  predicate StartsSafely(messages: seq<Message>) {
    messages != [] && messages[0].role.Assistant? ==>
      forall j :: 0 <= j < |messages[0].content| ==> !messages[0].content[j].ToolRequest?
  }

  lemma {:induction false} LeadEvents(messages: seq<Message>) returns (first: seq<Event>)
    ensures Events(messages) == first + Events(FixLead(messages).0) && AllAsked(first)
    ensures first == [] <==> StartsSafely(messages)
  {
    hide ContentEvents, AllAsked;
    NothingAsked();
    if messages != [] && messages[0].role.Assistant? {
      AssistantOnlyAsks(messages[0].content);
      first := MessageEvents(messages[0]);
    } else {
      first := [];
      assert [] + Events(messages) == Events(messages);
    }
  }

  lemma {:induction false} TrailEvents(messages: seq<Message>) returns (last: seq<Event>)
    ensures Events(messages) == Events(FixTrail(messages).0) + last && AllAsked(last)
  {
    hide ContentEvents, AllAsked;
    NothingAsked();
    if messages != [] && messages[|messages| - 1].role.Assistant? {
      var front, end := messages[..|messages| - 1], messages[|messages| - 1];
      AssistantOnlyAsks(end.content);
      last := MessageEvents(end);
      assert messages == front + [end] && [end][1..] == [];
      EventsAppend(front, [end]);
      assert Events([end]) == last + [] == last;
    } else {
      last := [];
      assert Events(messages) + [] == Events(messages);
    }
  }

  /** What `fix_lead_trail` cuts off, in events. */
  lemma {:induction false} LeadTrailEvents(messages: seq<Message>) returns (first: seq<Event>, last: seq<Event>)
    ensures Events(messages) == first + Events(LeadTrail(messages).0) + last
    ensures AllAsked(first) && AllAsked(last)
    ensures first == [] <==> StartsSafely(messages)
  {
    hide Events, AllAsked, StartsSafely, FixLead, FixTrail;
    first := LeadEvents(messages);
    last := TrailEvents(FixLead(messages).0);
    var middle := Events(LeadTrail(messages).0);
    assert first + (middle + last) == first + middle + last;
  }

  lemma {:induction false} NothingAsked()
    ensures AllAsked([])
  {
  }

  /** Cutting the ends keeps the pairing exactly when no request goes with the first message. */
  lemma {:induction false} LeadTrailKeepsPairing(messages: seq<Message>)
    requires Matches(Events(messages), {}) && DistinctRequests(Events(messages))
    ensures Paired(Events(LeadTrail(messages).0)) <==> StartsSafely(messages)
  {
    hide LeadTrail, Events, StartsSafely;
    var first, last := LeadTrailEvents(messages);
    var middle := Events(LeadTrail(messages).0);
    NoTrailingRequests(first + middle, last, {});
    assert first + middle + [] == first + middle;
    if first == [] {
      assert [] + middle == middle;
      MatchesIsPaired(middle);
    } else {
      LostRequest(first, middle, last);
    }
  }

  // ---------- the whole repair ----------

  /** The list that reaches `fix_lead_trail`. */
  function BeforeLeadTrail(messages: seq<Message>): seq<Message> {
    RunPasses(7, messages).0
  }

  /** The list that reaches `fix_tool_calling`. */
  function BeforeTools(messages: seq<Message>): seq<Message> {
    Tidy(FillResults, RemoveEmpty(Tidy(TrimText, Tidy(MergeText, messages).0).0).0).0
  }

  /** The passes, one after the other. */
  lemma {:induction false} PassesInOrder(messages: seq<Message>)
    ensures RunPasses(4, messages).0 == BeforeTools(messages)
    ensures BeforeLeadTrail(messages) == Dedupe(MergeConsecutive(FixTools(BeforeTools(messages)).0, false).0, []).0
    ensures FixMessages(messages).0 == Populate(LeadTrail(BeforeLeadTrail(messages)).0).0
  {
    hide Tidy, RemoveEmpty, FixTools, MergeConsecutive, Dedupe, LeadTrail;
    var m1 := Tidy(MergeText, messages).0;
    var m2 := Tidy(TrimText, m1).0;
    var m3 := RemoveEmpty(m2).0;
    var m4 := Tidy(FillResults, m3).0;
    var m5 := FixTools(m4).0;
    var m6 := MergeConsecutive(m5, false).0;
    assert RunPasses(0, messages).0 == messages;
    assert RunPasses(1, messages).0 == m1;
    assert RunPasses(2, messages).0 == m2;
    assert RunPasses(3, messages).0 == m3;
    assert RunPasses(4, messages).0 == m4;
    assert RunPasses(5, messages).0 == m5;
    assert RunPasses(6, messages).0 == m6;
    assert RunPasses(8, messages).0 == LeadTrail(BeforeLeadTrail(messages)).0;
  }

  /** When the tool requests of a conversation have distinct ids, repair pairs requests and responses,
      exactly unless the cut at the front takes a request with it. */
  lemma {:induction false} RepairPairsTools(messages: seq<Message>)
    requires DistinctRequests(Events(messages))
    ensures Paired(Events(FixMessages(messages).0)) <==> StartsSafely(BeforeLeadTrail(messages))
  {
    hide Tidy, RemoveEmpty, FixTools, MergeConsecutive, Dedupe, LeadTrail, Events, DistinctRequests, Matches, Paired, StartsSafely, FixMessages;
    var m1 := Tidy(MergeText, messages).0;
    var m2 := Tidy(TrimText, m1).0;
    var m3 := RemoveEmpty(m2).0;
    var m4 := Tidy(FillResults, m3).0;
    var m5 := FixTools(m4).0;
    var m6 := MergeConsecutive(m5, false).0;
    var m7 := Dedupe(m6, []).0;
    TidyEvents(MergeText, messages);
    TidyEvents(TrimText, m1);
    RemoveEmptyEvents(m2);
    TidyEvents(FillResults, m3);
    FixToolsPairs(m4);
    MergeConsecutiveEvents(m5, false);
    DedupeEvents(m6, []);
    LeadTrailKeepsPairing(m7);
    PassesInOrder(messages);
    hide BeforeLeadTrail;
    PlaceholderHasNoEvents(LeadTrail(m7).0);
  }

  lemma {:induction false} PlaceholderHasNoEvents(messages: seq<Message>)
    ensures Events(Populate(messages).0) == Events(messages)
  {
    var content := PLACEHOLDER.content;
    assert content[1..] == [] && [PLACEHOLDER][1..] == [];
    assert ContentEvents(User, content) == [] + [];
  }
}
