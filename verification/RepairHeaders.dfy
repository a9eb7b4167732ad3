/** What repair leaves of a message besides its content: its id, role, flags and usage. */
module RepairHeaders {
  import opened Messages
  import opened ConversationPasses
  import opened Merging
  import opened TouchingTexts
  import ToolPairing

  function Header(m: Message): Message {
    m.(content := [])
  }

  function Headers(messages: seq<Message>): seq<Message> {
    seq(|messages|, i requires 0 <= i < |messages| => Header(messages[i]))
  }

  // ---------- merging ----------

  /** The messages that join the one before them. */
  function Joined(messages: seq<Message>, across: bool): seq<bool> {
    seq(|messages|, k requires 0 <= k < |messages| => k > 0 && Joins(messages[k - 1], messages[k], across))
  }

  lemma {:induction false} HeadersCons(m: Message, rest: seq<Message>)
    ensures Headers([m] + rest) == [Header(m)] + Headers(rest)
  {
  }

  /** The next message joins neither of the two or both. */
  predicate JoinsAlike(a: Message, b: Message, across: bool) {
    EffectiveRoleOf(a) == EffectiveRoleOf(b) && (across || (a.userVisible == b.userVisible && a.turnContext == b.turnContext))
  }

  lemma {:induction false} JoinedFrom(last: Message, last': Message, rest: seq<Message>, across: bool)
    requires JoinsAlike(last, last', across)
    ensures Joined([last] + rest, across) == Joined([last'] + rest, across)
  {
    hide HasToolResponse;
    forall k | 0 <= k < |rest| + 1 ensures Joined([last] + rest, across)[k] == Joined([last'] + rest, across)[k] {
      if k > 1 {
        assert ([last] + rest)[k - 1] == rest[k - 2] == ([last'] + rest)[k - 1];
      }
    }
  }

  lemma {:induction false} JoinedCons(last: Message, rest: seq<Message>, across: bool)
    requires rest != []
    ensures Joined([last] + rest, across) == [false, Joins(last, rest[0], across)] + Joined(rest, across)[1..]
  {
    hide Joins;
    forall k | 0 <= k < |rest| + 1
      ensures Joined([last] + rest, across)[k] == ([false, Joins(last, rest[0], across)] + Joined(rest, across)[1..])[k]
    {
      if k > 1 {
        assert ([last] + rest)[k - 1] == rest[k - 2] && ([last] + rest)[k] == rest[k - 1];
      }
    }
  }

  lemma {:induction false} KeptFirst<T>(x: T, rest: seq<T>, gone: seq<bool>)
    requires |gone| == |rest|
    ensures Kept([x] + rest, [false] + gone) == [x] + Kept(rest, gone)
    ensures Kept([x] + rest, [true] + gone) == Kept(rest, gone)
  {
    assert ([x] + rest)[1..] == rest && ([false] + gone)[1..] == gone && ([true] + gone)[1..] == gone;
  }

  /** The headers that merging keeps of `last` and what follows it. */
  function HeadersLeft(last: Message, rest: seq<Message>, across: bool): seq<Message> {
    Kept(Headers([last] + rest), Joined([last] + rest, across))
  }

  lemma {:induction false} NoneLeft(last: Message, across: bool)
    ensures HeadersLeft(last, [], across) == [Header(last)]
  {
    hide Kept, Joins;
    assert [last] + [] == [last] && Headers([last]) == [Header(last)] + [];
    assert Joined([last], across) == [false] + [];
    KeptFirst(Header(last), [], []);
    KeptNothing<Message>();
  }

  lemma {:induction false} HeadersFrom(last: Message, next: Message, tail: seq<Message>, across: bool)
    ensures var later := Joined([next] + tail, across)[1..];
            && HeadersLeft(last, [next] + tail, across) ==
               [Header(last)] + (if Joins(last, next, across) then [] else [Header(next)]) + Kept(Headers(tail), later)
            && HeadersLeft(next, tail, across) == [Header(next)] + Kept(Headers(tail), later)
  {
    hide Kept, Joins;
    var rest, joins := [next] + tail, Joins(last, next, across);
    var later := Joined(rest, across)[1..];
    JoinedCons(last, rest, across);
    HeadersCons(last, rest);
    HeadersCons(next, tail);
    assert [false, joins] + later == [false] + ([joins] + later);
    assert Joined(rest, across) == [false] + later;
    hide Joined, Headers;
    KeptFirst(Header(last), Headers(rest), [joins] + later);
    KeptFirst(Header(next), Headers(tail), later);
  }

  lemma {:induction false} MergeFromHeaders(last: Message, rest: seq<Message>, across: bool)
    ensures Headers(MergeFrom(last, rest, across).0) == HeadersLeft(last, rest, across)
    decreases |rest|
  {
    hide Kept, Joins, Joined;
    if rest == [] {
      NoneLeft(last, across);
    } else {
      var next, tail := rest[0], rest[1..];
      assert [next] + tail == rest;
      HeadersFrom(last, next, tail, across);
      hide HeadersLeft;
      if Joins(last, next, across) {
        var joined := Join(last, next);
        MergeFromHeaders(joined, tail, across);
        JoinedAlike(last, next, across);
        HeadersOfJoined(last, next, tail, across);
      } else {
        MergeFromHeaders(next, tail, across);
        HeadersCons(last, MergeFrom(next, tail, across).0);
      }
    }
  }

  lemma {:induction false} HeadersOfJoined(last: Message, next: Message, tail: seq<Message>, across: bool)
    requires JoinsAlike(Join(last, next), next, across)
    ensures HeadersLeft(Join(last, next), tail, across) == [Header(last)] + Kept(Headers(tail), Joined([next] + tail, across)[1..])
  {
    var joined := Join(last, next);
    JoinedFrom(joined, next, tail, across);
    var later := Joined([next] + tail, across)[1..];
    assert Joined([next] + tail, across) == [false] + later;
    HeadersCons(joined, tail);
    hide Kept, Joined, Headers;
    KeptFirst(Header(joined), Headers(tail), later);
  }

  lemma {:induction false} KeptNothing<T>()
    ensures Kept<T>([], []) == []
  {
  }

  lemma {:induction false} JoinedAlike(last: Message, next: Message, across: bool)
    requires Joins(last, next, across)
    ensures JoinsAlike(Join(last, next), next, across)
  {
    JoinIsAlike(last, next, across);
  }

  /** Of messages that join, the merged one keeps the header of the first; the others keep their own. */
  lemma {:induction false} MergedHeaders(messages: seq<Message>, across: bool)
    ensures Headers(MergeConsecutive(messages, across).0) == Kept(Headers(messages), Joined(messages, across))
  {
    if messages != [] {
      MergeFromHeaders(messages[0], messages[1..], across);
      assert [messages[0]] + messages[1..] == messages;
    }
  }

  // ---------- the whole repair ----------

  /** `a` is `b` with some of it left out. */
  predicate LeftOf(a: seq<Message>, b: seq<Message>)
    decreases |b|
  {
    if b == [] then a == []
    else LeftOf(a, b[1..]) || (a != [] && a[0] == b[0] && LeftOf(a[1..], b[1..]))
  }

  lemma {:induction false} LeftOfItself(a: seq<Message>)
    ensures LeftOf(a, a)
    decreases |a|
  {
    if a != [] {
      LeftOfItself(a[1..]);
    }
  }

  lemma {:induction false} LeftOfLeft(a: seq<Message>, b: seq<Message>, c: seq<Message>)
    requires LeftOf(a, b) && LeftOf(b, c)
    ensures LeftOf(a, c)
    decreases |c|
  {
    if c != [] {
      if LeftOf(b, c[1..]) {
        LeftOfLeft(a, b, c[1..]);
      } else if LeftOf(a, b[1..]) {
        LeftOfLeft(a, b[1..], c[1..]);
      } else {
        LeftOfLeft(a[1..], b[1..], c[1..]);
      }
    }
  }

  lemma {:induction false} KeptIsLeft(messages: seq<Message>, gone: seq<bool>)
    requires |gone| == |messages|
    ensures LeftOf(Kept(messages, gone), messages)
    decreases |messages|
  {
    if messages != [] {
      KeptIsLeft(messages[1..], gone[1..]);
      if !gone[0] {
        var kept := Kept(messages[1..], gone[1..]);
        assert ([messages[0]] + kept)[1..] == kept;
      }
    }
  }

  lemma {:induction false} TidyKeepsHeaders(pass: MessagePass, messages: seq<Message>)
    ensures Headers(Tidy(pass, messages).0) == Headers(messages)
    decreases |messages|
  {
    hide MergeBlocks, TidyBlocks;
    if messages != [] {
      TidyKeepsHeaders(pass, messages[1..]);
      HeadersCons(TidyMessage(pass, messages[0]).0, Tidy(pass, messages[1..]).0);
      HeadersCons(messages[0], messages[1..]);
      assert [messages[0]] + messages[1..] == messages;
    }
  }

  lemma {:induction false} RemoveEmptyLeavesHeaders(messages: seq<Message>)
    ensures LeftOf(Headers(RemoveEmpty(messages).0), Headers(messages))
    decreases |messages|
  {
    hide IsEmptyContent;
    if messages != [] {
      RemoveEmptyLeavesHeaders(messages[1..]);
      var rest := RemoveEmpty(messages[1..]).0;
      HeadersCons(messages[0], rest);
      HeadersCons(messages[0], messages[1..]);
      assert [messages[0]] + messages[1..] == messages;
      assert ([Header(messages[0])] + Headers(rest))[1..] == Headers(rest);
      assert Headers(messages)[1..] == Headers(messages[1..]);
    }
  }

  lemma {:induction false} ScreenKeepsHeaders(messages: seq<Message>, pending: set<string>)
    ensures Headers(Screen(messages, pending).messages) == Headers(messages)
    decreases |messages|
  {
    hide ScreenBlocks;
    if messages != [] {
      var first := ScreenBlocks(messages[0].role, messages[0].content, pending);
      ScreenKeepsHeaders(messages[1..], first.pending);
      HeadersCons(messages[0].(content := first.content), Screen(messages[1..], first.pending).messages);
      HeadersCons(messages[0], messages[1..]);
      assert [messages[0]] + messages[1..] == messages;
    }
  }

  lemma {:induction false} DropKeepsHeaders(messages: seq<Message>, pending: set<string>)
    ensures Headers(DropRequests(messages, pending).0) == Headers(messages)
    decreases |messages|
  {
    hide DropBlocks;
    if messages != [] {
      var rest := DropRequests(messages[1..], pending).0;
      DropKeepsHeaders(messages[1..], pending);
      HeadersCons(messages[0].(content := DropBlocks(messages[0].content, pending).0), rest);
      HeadersCons(messages[0], rest);
      HeadersCons(messages[0], messages[1..]);
      assert [messages[0]] + messages[1..] == messages;
    }
  }

  lemma {:induction false} DedupeKeepsHeaders(messages: seq<Message>, seen: seq<Block>)
    ensures Headers(Dedupe(messages, seen).0) == Headers(messages)
    decreases |messages|
  {
    hide DedupeBlocks, SeenAfter;
    if messages != [] {
      var m := messages[0];
      var seen' := if m.role.User? then seen else SeenAfter(m.content, seen);
      var rest := Dedupe(messages[1..], seen').0;
      DedupeKeepsHeaders(messages[1..], seen');
      HeadersCons(m.(content := DedupeBlocks(m.content, seen)), rest);
      HeadersCons(m, rest);
      HeadersCons(m, messages[1..]);
      assert [m] + messages[1..] == messages;
    }
  }

  /** Every message of the result carries the id, role, flags and usage of a message of the input, and
      they come in the input's order; only the placeholder is new. */
  lemma {:induction false} RepairKeepsHeaders(messages: seq<Message>)
    ensures FixMessages(messages).0 == [PLACEHOLDER] || LeftOf(Headers(FixMessages(messages).0), Headers(messages))
  {
    hide Tidy, RemoveEmpty, Screen, DropRequests, MergeConsecutive, Dedupe, Headers, LeftOf, FixMessages, Kept, Joined, LeadTrail;
    ToolPairing.PassesInOrder(messages);
    var m1 := Tidy(MergeText, messages).0;
    var m2 := Tidy(TrimText, m1).0;
    var m3 := RemoveEmpty(m2).0;
    var m4 := Tidy(FillResults, m3).0;
    var screened := Screen(m4, {});
    var dropped := DropRequests(screened.messages, screened.pending).0;
    var m5 := FixTools(m4).0;
    var m6 := MergeConsecutive(m5, false).0;
    var m7 := Dedupe(m6, []).0;
    TidyKeepsHeaders(MergeText, messages);
    TidyKeepsHeaders(TrimText, m1);
    RemoveEmptyLeavesHeaders(m2);
    TidyKeepsHeaders(FillResults, m3);
    ScreenKeepsHeaders(m4, {});
    DropKeepsHeaders(screened.messages, screened.pending);
    RemoveEmptyLeavesHeaders(dropped);
    MergedHeaders(m5, false);
    SizeOfHeaders(m5);
    KeptIsLeft(Headers(m5), Joined(m5, false));
    DedupeKeepsHeaders(m6, []);
    LeftOfLeft(Headers(m5), Headers(m4), Headers(messages));
    LeftOfLeft(Headers(m6), Headers(m5), Headers(messages));
    CutLeavesHeaders(m7);
    LeftOfLeft(Headers(LeadTrail(m7).0), Headers(m7), Headers(messages));
  }

  lemma {:induction false} SizeOfHeaders(messages: seq<Message>)
    ensures |Headers(messages)| == |messages| == |Joined(messages, false)|
  {
  }

  lemma {:induction false} FrontIsLeft(a: seq<Message>, last: Message)
    ensures LeftOf(a, a + [last])
    decreases |a|
  {
    if a == [] {
      assert a + [last] == [last] && [last][1..] == [];
    } else {
      assert (a + [last])[1..] == a[1..] + [last];
      FrontIsLeft(a[1..], last);
    }
  }

  lemma {:induction false} CutLeavesHeaders(messages: seq<Message>)
    ensures LeftOf(Headers(LeadTrail(messages).0), Headers(messages))
  {
    var led := FixLead(messages).0;
    LeftOfItself(Headers(messages));
    assert LeftOf(Headers(led), Headers(messages)) by {
      if led != messages {
        assert Headers(messages)[1..] == Headers(led);
        LeftOfItself(Headers(led));
      }
    }
    if led != [] && led[|led| - 1].role.Assistant? {
      var front := Headers(led[..|led| - 1]);
      FrontIsLeft(front, Header(led[|led| - 1]));
      assert Headers(led) == front + [Header(led[|led| - 1])];
      LeftOfLeft(front, Headers(led), Headers(messages));
    }
  }
}
