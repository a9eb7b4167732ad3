/** Where repair leaves two mergeable texts side by side in an assistant message: next to each other at
    the seam of two joined messages, or on both sides of blocks that a pass removed. */
module TouchingTexts {
  import opened Messages
  import opened ConversationPasses
  import ConversationRepair

  // ---------- touching texts ----------

  /** The last block of `a` and the first of `b` are mergeable. */
  predicate Meet(a: seq<Block>, b: seq<Block>) {
    a != [] && b != [] && Mergeable(a[|a| - 1], b[0])
  }

  /** Two adjacent blocks are mergeable. */
  predicate HasTouching(content: seq<Block>) {
    content != [] && (Meet(content[..1], content[1..]) || HasTouching(content[1..]))
  }

  lemma {:induction false} TouchingAppend(a: seq<Block>, b: seq<Block>)
    ensures HasTouching(a + b) <==> HasTouching(a) || HasTouching(b) || Meet(a, b)
    decreases |a|
  {
    if a == [] {
      assert a + b == b;
    } else {
      assert (a + b)[1..] == a[1..] + b && (a + b)[..1] == a[..1];
      TouchingAppend(a[1..], b);
    }
  }

  lemma {:induction false} OneDoesNotTouch(b: Block)
    ensures !HasTouching([b])
  {
    assert [b][1..] == [];
  }

  lemma {:induction false} AbsorbDoesNotTouch(merged: seq<Block>, b: Block)
    requires !HasTouching(merged)
    ensures !HasTouching(Absorb(merged, b))
  {
    if merged != [] && Mergeable(merged[|merged| - 1], b) {
      var front, last := merged[..|merged| - 1], merged[|merged| - 1];
      assert merged == front + [last];
      TouchingAppend(front, [last]);
      TouchingAppend(front, [MergeInto(last, b)]);
      OneDoesNotTouch(MergeInto(last, b));
    } else {
      TouchingAppend(merged, [b]);
      OneDoesNotTouch(b);
    }
  }

  lemma {:induction false} MergedDoNotTouch(merged: seq<Block>, rest: seq<Block>)
    requires !HasTouching(merged)
    ensures !HasTouching(MergeBlocks(merged, rest))
    decreases |rest|
  {
    hide HasTouching, Absorb;
    if rest != [] {
      AbsorbDoesNotTouch(merged, rest[0]);
      MergedDoNotTouch(Absorb(merged, rest[0]), rest[1..]);
    }
  }

  /** The first pass merges something exactly when two texts touch. */
  lemma {:induction false} MergesIffTouching(merged: seq<Block>, rest: seq<Block>)
    ensures |MergeBlocks(merged, rest)| == |merged| + |rest| <==> !HasTouching(rest) && !Meet(merged, rest)
    decreases |rest|
  {
    if rest != [] {
      var next := Absorb(merged, rest[0]);
      ConversationRepair.MergeBlocksShrinks(next, rest[1..]);
      MergesIffTouching(next, rest[1..]);
    }
  }

  // ---------- removing blocks ----------

  /** The blocks that are not gone. */
  function Kept<T>(content: seq<T>, gone: seq<bool>): seq<T>
    requires |gone| == |content|
  {
    if content == [] then []
    else if gone[0] then Kept(content[1..], gone[1..])
    else [content[0]] + Kept(content[1..], gone[1..])
  }

  /** Every block between the mergeable texts at `x` and `y` is gone, and there is at least one. */
  predicate Bridge(content: seq<Block>, gone: seq<bool>, x: nat, y: nat)
    requires |gone| == |content|
  {
    x + 1 < y < |content| && Mergeable(content[x], content[y]) && forall z :: x < z < y ==> gone[z]
  }

  ghost predicate Bridges(content: seq<Block>, gone: seq<bool>)
    requires |gone| == |content|
  {
    exists x: nat, y: nat :: Bridge(content, gone, x, y)
  }

  predicate KeepsTexts(content: seq<Block>, gone: seq<bool>)
    requires |gone| == |content|
  {
    forall j :: 0 <= j < |content| && gone[j] ==> !content[j].Text?
  }

  /** `b` is mergeable with the text at `y`, and all before it is gone. */
  predicate Reaches(b: Block, rest: seq<Block>, gone: seq<bool>, y: nat)
    requires |gone| == |rest|
  {
    y < |rest| && Mergeable(b, rest[y]) && forall z :: 0 <= z < y ==> gone[z]
  }

  lemma {:induction false} MeetsKept(b: Block, rest: seq<Block>, gone: seq<bool>)
    requires |gone| == |rest| && KeepsTexts(rest, gone)
    ensures Meet([b], Kept(rest, gone)) <==> exists y: nat :: Reaches(b, rest, gone, y)
    decreases |rest|
  {
    if rest != [] {
      if gone[0] {
        MeetsKept(b, rest[1..], gone[1..]);
        forall y: nat | Reaches(b, rest, gone, y) ensures y > 0 && Reaches(b, rest[1..], gone[1..], y - 1) {}
        forall y: nat | Reaches(b, rest[1..], gone[1..], y) ensures Reaches(b, rest, gone, y + 1) {}
      } else if Mergeable(b, rest[0]) {
        assert Reaches(b, rest, gone, 0);
      }
    }
  }

  lemma {:induction false} BridgesOfTail(content: seq<Block>, gone: seq<bool>)
    requires |gone| == |content| && content != [] && KeepsTexts(content, gone)
    ensures Bridges(content, gone) <==>
            Bridges(content[1..], gone[1..]) || exists y: nat :: y > 0 && Reaches(content[0], content[1..], gone[1..], y)
  {
    var rest, gone' := content[1..], gone[1..];
    forall x: nat, y: nat | Bridge(content, gone, x, y)
      ensures if x > 0 then Bridge(rest, gone', x - 1, y - 1) else y > 1 && Reaches(content[0], rest, gone', y - 1)
    {
      assert forall z :: x < z < y ==> gone'[z - 1] == gone[z];
      forall z | (if x > 0 then x - 1 else -1) < z < y - 1 ensures gone'[z] {
        assert gone[z + 1];
      }
    }
    forall x: nat, y: nat | Bridge(rest, gone', x, y) ensures Bridge(content, gone, x + 1, y + 1) {
      forall z | x + 1 < z < y + 1 ensures gone[z] {
        assert gone'[z - 1];
      }
    }
    forall y: nat | y > 0 && Reaches(content[0], rest, gone', y) ensures Bridge(content, gone, 0, y + 1) {
      forall z | 0 < z < y + 1 ensures gone[z] {
        assert gone'[z - 1];
      }
    }
  }

  /** Removing blocks other than texts brings texts together exactly at the bridges. */
  lemma {:induction false} KeptTouchIff(content: seq<Block>, gone: seq<bool>)
    requires |gone| == |content| && KeepsTexts(content, gone)
    ensures HasTouching(Kept(content, gone)) <==> HasTouching(content) || Bridges(content, gone)
    decreases |content|
  {
    if content != [] {
      var b, rest, gone' := content[0], content[1..], gone[1..];
      KeptTouchIff(rest, gone');
      BridgesOfTail(content, gone);
      assert content[..1] == [b];
      MeetsKept(b, rest, gone');
      var kept := Kept(rest, gone');
      assert ([b] + kept)[1..] == kept && ([b] + kept)[..1] == [b];
      assert Reaches(b, rest, gone', 0) <==> Meet([b], rest);
      hide HasTouching, Bridges, Reaches;
      assert gone[0] ==> !b.Text?;
    }
  }

  lemma {:induction false} KeptIsEmptyIff(content: seq<Block>, gone: seq<bool>)
    requires |gone| == |content|
    ensures IsEmptyContent(Kept(content, gone)) <==>
            forall j :: 0 <= j < |content| ==> gone[j] || (content[j].Text? && content[j].text == "")
    decreases |content|
  {
    if content != [] {
      KeptIsEmptyIff(content[1..], gone[1..]);
      var kept := Kept(content[1..], gone[1..]);
      assert ([content[0]] + kept)[1..] == kept;
      forall j | 0 <= j < |content| ensures j > 0 ==> content[j] == content[1..][j - 1] && gone[j] == gone[1..][j - 1] {}
    }
  }
}
