/** When `fix_tool_calling` finds nothing to do in a repaired list, whatever ids its requests have. */
module ToolFlow {
  import opened ToolPairing

  // ---------- lists of events with nothing to remove ----------

  /** Every answer finds its request open, and none stays open; a request may be made again while it is open. */
  predicate Flows(events: seq<Event>, open: set<string>)
    decreases |events|
  {
    if events == [] then open == {}
    else if events[0].Asked? then Flows(events[1..], open + {events[0].id})
    else events[0].id in open && Flows(events[1..], open - {events[0].id})
  }

  /** What the first loop keeps of the requests it has seen. */
  function OpenAfter(e: Event, open: set<string>): set<string> {
    if e.Asked? then open + {e.id} else open - {e.id}
  }

  lemma {:induction false} FlowsIffAccepted(events: seq<Event>, open: set<string>)
    ensures Flows(events, open) <==> Accept(events, open) == (events, {})
    decreases |events|
  {
    AcceptShrinks(events, open);
    if events != [] {
      var e, rest := events[0], events[1..];
      FlowsIffAccepted(rest, open + {e.id});
      FlowsIffAccepted(rest, open - {e.id});
      AcceptShrinks(rest, open);
      assert events == [e] + rest;
      var kept := Accept(rest, OpenAfter(e, open)).0;
      assert ([e] + kept)[1..] == kept;
    }
  }

  lemma {:induction false} AcceptShrinks(events: seq<Event>, open: set<string>)
    ensures |Accept(events, open).0| <= |events|
    decreases |events|
  {
    if events != [] {
      AcceptShrinks(events[1..], open + {events[0].id});
      AcceptShrinks(events[1..], open - {events[0].id});
      AcceptShrinks(events[1..], open);
    }
  }

  // ---------- position by position ----------

  ghost predicate AskedSomewhere(events: seq<Event>, id: string) {
    exists i: nat :: IsAsked(events, i, id)
  }

  ghost predicate AnsweredSomewhere(events: seq<Event>, id: string) {
    exists i: nat :: IsAnswered(events, i, id)
  }

  /** The request is made at `k` and not answered after it. */
  ghost predicate AskedInVain(events: seq<Event>, k: nat, id: string) {
    IsAsked(events, k, id) && forall l: nat :: k < l ==> !IsAnswered(events, l, id)
  }

  /** The request is made at `i` and answered at `j`. */
  predicate AskedAndAnswered(events: seq<Event>, i: nat, j: nat, id: string) {
    i < j && IsAsked(events, i, id) && IsAnswered(events, j, id)
  }

  /** A request is answered, and made once more without an answer. */
  ghost predicate AskedAgainInVain(events: seq<Event>, id: string) {
    && (exists i: nat, j: nat :: AskedAndAnswered(events, i, j, id))
    && exists k: nat :: AskedInVain(events, k, id)
  }

  lemma {:induction false} AnsweredTail(events: seq<Event>, id: string)
    requires events != []
    ensures AnsweredSomewhere(events, id) <==> events[0] == Answered(id) || AnsweredSomewhere(events[1..], id)
  {
    if events[0] == Answered(id) {
      assert IsAnswered(events, 0, id);
    }
    forall j: nat | IsAnswered(events, j, id) && j > 0 ensures IsAnswered(events[1..], j - 1, id) {}
    forall j: nat | IsAnswered(events[1..], j, id) ensures IsAnswered(events, j + 1, id) {}
  }

  lemma {:induction false} InVainTail(events: seq<Event>, id: string)
    requires events != []
    ensures (exists k: nat :: AskedInVain(events, k, id)) <==>
            (exists k: nat :: AskedInVain(events[1..], k, id)) || (events[0] == Asked(id) && !AnsweredSomewhere(events[1..], id))
  {
    var rest := events[1..];
    forall k: nat | AskedInVain(events, k, id)
      ensures if k > 0 then AskedInVain(rest, k - 1, id) else events[0] == Asked(id) && !AnsweredSomewhere(rest, id)
    {
      forall l: nat | IsAnswered(rest, l, id) ensures l + 1 <= k {
        assert IsAnswered(events, l + 1, id);
      }
    }
    forall k: nat | AskedInVain(rest, k, id) ensures AskedInVain(events, k + 1, id) {
      forall l: nat | IsAnswered(events, l, id) ensures l <= k + 1 {
        if l > 0 { assert IsAnswered(rest, l - 1, id); }
      }
    }
    if events[0] == Asked(id) && !AnsweredSomewhere(rest, id) {
      forall l: nat | IsAnswered(events, l, id) ensures l <= 0 {
        if l > 0 { assert IsAnswered(rest, l - 1, id); }
      }
      assert AskedInVain(events, 0, id);
    }
  }

  lemma {:induction false} AskedAndAnsweredTail(events: seq<Event>, id: string)
    requires events != []
    ensures (exists i: nat, j: nat :: AskedAndAnswered(events, i, j, id)) <==>
            (exists i: nat, j: nat :: AskedAndAnswered(events[1..], i, j, id))
            || (events[0] == Asked(id) && AnsweredSomewhere(events[1..], id))
  {
    var rest := events[1..];
    forall i: nat, j: nat | AskedAndAnswered(events, i, j, id)
      ensures if i > 0 then AskedAndAnswered(rest, i - 1, j - 1, id) else events[0] == Asked(id) && IsAnswered(rest, j - 1, id)
    {
    }
    forall i: nat, j: nat | AskedAndAnswered(rest, i, j, id) ensures AskedAndAnswered(events, i + 1, j + 1, id) {}
    forall j: nat | IsAnswered(rest, j, id) && events[0] == Asked(id) ensures AskedAndAnswered(events, 0, j + 1, id) {}
  }

  lemma {:induction false} NothingInNothing(id: string)
    ensures !AnsweredSomewhere([], id)
    ensures forall k: nat :: !AskedInVain([], k, id)
    ensures forall i: nat, j: nat :: !AskedAndAnswered([], i, j, id)
  {
  }

  // ---------- what the two loops leave ----------

  /** The requests without an answer: those made in vain, and those open from before that are never answered. */
  lemma {:induction false} UnansweredMeans(events: seq<Event>, pending: set<string>, id: string)
    ensures id in Accept(events, pending).1 <==>
            (exists k: nat :: AskedInVain(events, k, id)) || (id in pending && !AnsweredSomewhere(events, id))
    decreases |events|
  {
    hide AskedInVain, AnsweredSomewhere;
    NothingInNothing(id);
    if events != [] {
      var e, rest := events[0], events[1..];
      var pending' := if e.Asked? then pending + {e.id} else if e.id in pending then pending - {e.id} else pending;
      UnansweredMeans(rest, pending', id);
      InVainTail(events, id);
      AnsweredTail(events, id);
      VainIsLast(rest, id);
    }
  }

  lemma {:induction false} VainIsLast(events: seq<Event>, id: string)
    ensures !AnsweredSomewhere(events, id) && AskedSomewhere(events, id) ==> exists k: nat :: AskedInVain(events, k, id)
  {
    if !AnsweredSomewhere(events, id) && AskedSomewhere(events, id) {
      var k: nat :| IsAsked(events, k, id);
      forall l: nat | k < l ensures !IsAnswered(events, l, id) {}
      assert AskedInVain(events, k, id);
    }
  }

  /** The answers that the first loop keeps. */
  lemma {:induction false} AcceptedMeans(events: seq<Event>, pending: set<string>, id: string)
    ensures Answered(id) in Accept(events, pending).0 <==>
            (exists i: nat, j: nat :: AskedAndAnswered(events, i, j, id)) || (id in pending && AnsweredSomewhere(events, id))
    decreases |events|
  {
    hide AskedAndAnswered, AnsweredSomewhere;
    NothingInNothing(id);
    if events != [] {
      var e, rest := events[0], events[1..];
      var pending' := if e.Asked? then pending + {e.id} else if e.id in pending then pending - {e.id} else pending;
      AcceptedMeans(rest, pending', id);
      AskedAndAnsweredTail(events, id);
      AnsweredTail(events, id);
    }
  }

  predicate NoneOfTheseAnswered(events: seq<Event>, ids: set<string>) {
    forall id :: id in ids ==> Answered(id) !in events
  }

  /** The two loops leave a list that flows exactly when they drop no request whose answer they kept. */
  lemma {:induction false} DroppedFlows(events: seq<Event>, pending: set<string>)
    ensures var (accepted, end) := Accept(events, pending);
            Flows(DropAsked(accepted, end), pending - end) <==> NoneOfTheseAnswered(accepted, end)
    decreases |events|
  {
    if events != [] {
      var e, rest := events[0], events[1..];
      var pending' := if e.Asked? then pending + {e.id} else if e.id in pending then pending - {e.id} else pending;
      DroppedFlows(rest, pending');
      EndsFromKnown(rest, pending');
      var (accepted, end) := Accept(rest, pending');
      var left := DropAsked(accepted, end);
      if e.Asked? || e.id in pending {
        assert ([e] + accepted)[1..] == accepted && ([e] + left)[1..] == left && [] + left == left;
        assert Accept(events, pending) == ([e] + accepted, end);
        assert NoneOfTheseAnswered([e] + accepted, end) <==> NoneOfTheseAnswered(accepted, end) && (e.Asked? || e.id !in end);
        if e.Asked? && e.id in end {
          assert pending' - end == pending - end;
        } else if e.Asked? {
          assert pending' - end == pending - end + {e.id};
        } else {
          assert pending' - end == pending - end - {e.id};
        }
      } else {
        assert Accept(events, pending) == (accepted, end);
      }
    }
  }

  function LoopsLeave(events: seq<Event>): seq<Event> {
    DropAsked(Accept(events, {}).0, Accept(events, {}).1)
  }

  lemma {:induction false} LoopsFlowIff(events: seq<Event>)
    ensures Flows(LoopsLeave(events), {}) <==> forall id :: !AskedAgainInVain(events, id)
  {
    var (accepted, end) := Accept(events, {});
    DroppedFlows(events, {});
    assert {} - end == {};
    hide Accept, DropAsked, Flows;
    forall id ensures AskedAgainInVain(events, id) <==> id in end && Answered(id) in accepted {
      UnansweredMeans(events, {}, id);
      AcceptedMeans(events, {}, id);
    }
  }

  // ---------- the cut at the front ----------

  /** The first that is said of the request is that it is made. */
  ghost predicate AskedFirst(events: seq<Event>, id: string) {
    exists k: nat :: IsAsked(events, k, id) && forall l: nat :: l < k ==> !IsAnswered(events, l, id)
  }

  lemma {:induction false} AskedFirstTail(events: seq<Event>, id: string)
    requires events != []
    ensures AskedFirst(events, id) <==>
            events[0] == Asked(id) || (events[0] != Answered(id) && AskedFirst(events[1..], id))
  {
    var rest := events[1..];
    if events[0] == Asked(id) {
      assert IsAsked(events, 0, id);
    }
    forall k: nat | IsAsked(events, k, id) && k > 0 && forall l: nat :: l < k ==> !IsAnswered(events, l, id)
      ensures events[0] != Answered(id) && IsAsked(rest, k - 1, id) && forall l: nat :: l < k - 1 ==> !IsAnswered(rest, l, id)
    {
      assert !IsAnswered(events, 0, id);
      forall l: nat | l < k - 1 ensures !IsAnswered(rest, l, id) {
        assert !IsAnswered(events, l + 1, id);
      }
    }
    forall k: nat | events[0] != Answered(id) && IsAsked(rest, k, id) && forall l: nat :: l < k ==> !IsAnswered(rest, l, id)
      ensures IsAsked(events, k + 1, id) && forall l: nat :: l < k + 1 ==> !IsAnswered(events, l, id)
    {
      forall l: nat | l < k + 1 ensures !IsAnswered(events, l, id) {
        if l > 0 { assert !IsAnswered(rest, l - 1, id); }
      }
    }
  }

  /** A list that flows after some requests flows without them exactly when each is made again first. */
  lemma {:induction false} FlowsWithout(events: seq<Event>, open: set<string>, fewer: set<string>)
    requires Flows(events, open) && fewer <= open
    ensures Flows(events, fewer) <==> forall id :: id in open && id !in fewer ==> AskedFirst(events, id)
    decreases |events|
  {
    hide AskedFirst;
    if events == [] {
      assert fewer == {};
    } else {
      var e, rest := events[0], events[1..];
      FlowsWithout(rest, OpenAfter(e, open), OpenAfter(e, fewer));
      forall id ensures AskedFirst(events, id) <==> e == Asked(id) || (e != Answered(id) && AskedFirst(rest, id)) {
        AskedFirstTail(events, id);
      }
    }
  }

  /** A list that flows also does so after requests that it answers. */
  lemma {:induction false} FlowsWithMore(events: seq<Event>, open: set<string>, more: set<string>)
    requires Flows(events, open) && open <= more && forall id :: id in more && id !in open ==> AnsweredSomewhere(events, id)
    ensures Flows(events, more)
    decreases |events|
  {
    hide AnsweredSomewhere;
    if events == [] {
      forall id | id in more ensures id in open {
        NothingInNothing(id);
      }
    } else {
      var e, rest := events[0], events[1..];
      forall id | id in OpenAfter(e, more) && id !in OpenAfter(e, open) ensures AnsweredSomewhere(rest, id) {
        AnsweredTail(events, id);
      }
      FlowsWithMore(rest, OpenAfter(e, open), OpenAfter(e, more));
    }
  }

  lemma {:induction false} FlowsAfterAsking(first: seq<Event>, events: seq<Event>, open: set<string>)
    requires AllAsked(first)
    ensures Flows(first + events, open) <==> Flows(events, open + AskedIds(first))
    decreases |first|
  {
    if first == [] {
      assert first + events == events && open + {} == open;
    } else {
      assert (first + events)[1..] == first[1..] + events;
      assert AllAsked(first[1..]);
      FlowsAfterAsking(first[1..], events, open + {first[0].id});
      assert open + {first[0].id} + AskedIds(first[1..]) == open + AskedIds(first);
    }
  }

  /** An open request that does not stay open is answered in what the loops leave. */
  lemma {:induction false} LeftIsAnswered(events: seq<Event>, pending: set<string>, id: string)
    requires id in pending && id !in Accept(events, pending).1
    ensures AnsweredSomewhere(DropAsked(Accept(events, pending).0, Accept(events, pending).1), id)
    decreases |events|
  {
    hide AnsweredSomewhere;
    if events != [] {
      var e, rest := events[0], events[1..];
      var pending' := if e.Asked? then pending + {e.id} else if e.id in pending then pending - {e.id} else pending;
      var (accepted, end) := Accept(rest, pending');
      var left := DropAsked(accepted, end);
      assert ([e] + accepted)[1..] == accepted && ([e] + left)[1..] == left && [] + left == left;
      AnsweredTail([e] + left, id);
      if e != Answered(id) {
        LeftIsAnswered(rest, pending', id);
      }
    }
  }

  /** Every request that the loops leave is answered later. */
  lemma {:induction false} LeftRequestIsAnswered(events: seq<Event>, pending: set<string>, p: nat, id: string)
    requires IsAsked(DropAsked(Accept(events, pending).0, Accept(events, pending).1), p, id)
    ensures AnsweredSomewhere(DropAsked(Accept(events, pending).0, Accept(events, pending).1)[p..], id)
    decreases |events|
  {
    hide AnsweredSomewhere;
    if events != [] {
      var e, rest := events[0], events[1..];
      var pending' := if e.Asked? then pending + {e.id} else if e.id in pending then pending - {e.id} else pending;
      var (accepted, end) := Accept(rest, pending');
      var left := DropAsked(accepted, end);
      var dropped := e.Asked? && e.id in end;
      if !e.Asked? && e.id !in pending {
        LeftRequestIsAnswered(rest, pending', p, id);
      } else {
        assert ([e] + accepted)[1..] == accepted;
        assert DropAsked([e] + accepted, end) == (if dropped then [] else [e]) + left;
        if dropped {
          assert [] + left == left;
          LeftRequestIsAnswered(rest, pending', p, id);
        } else if p > 0 {
          assert ([e] + left)[p..] == left[p - 1..];
          LeftRequestIsAnswered(rest, pending', p - 1, id);
        } else {
          LeftIsAnswered(rest, pending', id);
          assert ([e] + left)[0..] == [e] + left && ([e] + left)[1..] == left;
          AnsweredTail([e] + left, id);
        }
      }
    }
  }
}
