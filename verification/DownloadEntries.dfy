/** What a model's entry says while its download lives and after it, over every interleaving. */
module DownloadEntries {
  import opened Text
  import opened DownloadRegistry

  /** The state after the first `i` actions. */
  function StateAt(actions: seq<Action>, i: nat): State
    requires i <= |actions|
  {
    Run(INIT, actions[..i])
  }

  lemma {:induction false} RunSnoc(s: State, actions: seq<Action>, a: Action)
    ensures Run(s, actions + [a]) == Next(Run(s, actions), a)
    decreases |actions|
  {
    hide Next;
    if actions == [] {
      assert actions + [a] == [a] && [a][1..] == [];
      assert Run(Next(s, a), []) == Next(s, a);
    } else {
      assert (actions + [a])[1..] == actions[1..] + [a];
      RunSnoc(Next(s, actions[0]), actions[1..], a);
    }
  }

  lemma {:induction false} NextState(actions: seq<Action>, n: nat)
    requires n < |actions|
    ensures StateAt(actions, n + 1) == Next(StateAt(actions, n), actions[n])
    ensures Exclusive(StateAt(actions, n)) && EntriesLive(StateAt(actions, n))
  {
    assert actions[..n + 1] == actions[..n] + [actions[n]];
    hide Next, Run;
    RunSnoc(INIT, actions[..n], actions[n]);
    RunKeepsInv(INIT, actions[..n]);
  }

  /** Action `b` is the start that put task `t` to work. */
  predicate Begins(actions: seq<Action>, t: nat, b: nat) {
    b < |actions| && actions[b].Start? && |StateAt(actions, b).tasks| == t && |StateAt(actions, b + 1).tasks| == t + 1
  }

  /** With action `e` the task exits. */
  predicate Exits(actions: seq<Action>, t: nat, e: nat) {
    e < |actions| && Live(StateAt(actions, e), t) && !Live(StateAt(actions, e + 1), t)
  }

  /** The model was cancelled after action `b` and before action `n`. */
  ghost predicate CancelledSince(actions: seq<Action>, id: string, b: nat, n: nat)
    requires n <= |actions|
  {
    exists c: nat :: b < c < n && actions[c] == Cancel(id)
  }

  predicate IsCallFor(a: Action, id: string) {
    (a.Start? || a.Reserve? || a.Cancel? || a.Clear?) && a.id == id
  }

  /** What the entry says of a task that has not ended by itself. */
  ghost predicate LivingEntry(actions: seq<Action>, t: nat, id: string, b: nat, n: nat)
    requires n <= |actions|
  {
    var s := StateAt(actions, n);
    && t < |s.tasks| && s.tasks[t].id == id && id in s.registry
    && s.registry[id] == Progress(if CancelledSince(actions, id, b, n) then Cancelled else Downloading, false, None)
  }

  /** What it says after the action with which the task exited. */
  ghost predicate FinalEntry(actions: seq<Action>, t: nat, id: string, b: nat, e: nat, n: nat)
    requires e < n <= |actions|
  {
    var m := StateAt(actions, n).registry;
    var cancelled := CancelledSince(actions, id, b, e);
    && id in m
    && match actions[e]
       case Ran(u, ok) => u == t && ok && m[id] == Progress(Completed, true, None)
       case CleanedUp(u, error) => u == t && m[id] == Progress(if cancelled then Cancelled else Failed, true, Some(error))
       case Prepared(u, ok) => u == t && !ok && m[id] == Progress(if cancelled then Cancelled else Downloading, false, None)
       case _ => false
  }

  lemma {:induction false} CancelledGrows(actions: seq<Action>, id: string, b: nat, n: nat)
    requires b < n < |actions|
    ensures CancelledSince(actions, id, b, n + 1) <==> CancelledSince(actions, id, b, n) || actions[n] == Cancel(id)
  {
  }

  lemma {:induction false} StartedEntry(actions: seq<Action>, t: nat, b: nat)
    requires Begins(actions, t, b)
    ensures LivingEntry(actions, t, actions[b].id, b, b + 1) && Live(StateAt(actions, b + 1), t)
  {
    NextState(actions, b);
    hide StateAt, Exclusive, EntriesLive;
  }

  /** The other tasks of a state with a live task of `id` are of other models. */
  lemma {:induction false} OthersLeaveEntry(s: State, t: nat, a: Action)
    requires Exclusive(s) && EntriesLive(s) && Live(s, t) && !IsCallFor(a, s.tasks[t].id)
    requires !((a.Prepared? || a.Ran? || a.CleanedUp?) && a.task == t)
    ensures var id, s' := s.tasks[t].id, Next(s, a);
            && t < |s'.tasks| && s'.tasks[t] == s.tasks[t]
            && id in s.registry && id in s'.registry && s'.registry[id] == s.registry[id]
  {
    match a {
      case Ran(u, ok) => if At(s, u, Running) { assert Live(s, u); }
      case CleanedUp(u, error) => if At(s, u, CleaningUp) { assert Live(s, u); }
      case _ =>
    }
  }

  lemma {:induction false} CallLeavesTask(s: State, t: nat, a: Action)
    requires EntriesLive(s) && Live(s, t) && IsCallFor(a, s.tasks[t].id)
    ensures var id, s' := s.tasks[t].id, Next(s, a);
            && t < |s'.tasks| && s'.tasks[t] == s.tasks[t]
            && id in s.registry && id in s'.registry
            && s'.registry[id] == if a.Cancel? then s.registry[id].(status := Cancelled) else s.registry[id]
  {
  }

  /** One more action while the task lives: it lives on, or this is how it exits. */
  lemma {:induction false} EntryStep(actions: seq<Action>, t: nat, id: string, b: nat, n: nat)
    requires b < n < |actions| && LivingEntry(actions, t, id, b, n) && Live(StateAt(actions, n), t)
    ensures if Live(StateAt(actions, n + 1), t) then LivingEntry(actions, t, id, b, n + 1)
            else FinalEntry(actions, t, id, b, n, n + 1)
  {
    var s, a := StateAt(actions, n), actions[n];
    NextState(actions, n);
    CancelledGrows(actions, id, b, n);
    hide StateAt, CancelledSince;
    if IsCallFor(a, id) {
      CallLeavesTask(s, t, a);
    } else if (a.Prepared? || a.Ran? || a.CleanedUp?) && a.task == t {
      hide Exclusive, EntriesLive;
    } else {
      OthersLeaveEntry(s, t, a);
    }
  }

  /** While its task lives, a model's entry is downloading, or cancelled once a cancel has come. */
  lemma {:induction false} EntryWhileLive(actions: seq<Action>, t: nat, b: nat, n: nat)
    requires Begins(actions, t, b) && b < n <= |actions| && Live(StateAt(actions, n), t)
    ensures LivingEntry(actions, t, actions[b].id, b, n)
    decreases n
  {
    hide StateAt, LivingEntry;
    if n == b + 1 {
      StartedEntry(actions, t, b);
    } else {
      StaysLiveBackwards(actions, t, b, n - 1);
      EntryWhileLive(actions, t, b, n - 1);
      EntryStep(actions, t, actions[b].id, b, n - 1);
    }
  }

  lemma {:induction false} StaysLiveBackwards(actions: seq<Action>, t: nat, b: nat, n: nat)
    requires Begins(actions, t, b) && b < n < |actions| && Live(StateAt(actions, n + 1), t)
    ensures Live(StateAt(actions, n), t)
  {
    TasksOnlyGrow(actions, b + 1, n);
    NextState(actions, n);
    hide StateAt, Exclusive, EntriesLive;
    LiveBefore(StateAt(actions, n), actions[n], t);
  }

  lemma {:induction false} TasksOnlyGrow(actions: seq<Action>, i: nat, n: nat)
    requires i <= n <= |actions|
    ensures |StateAt(actions, i).tasks| <= |StateAt(actions, n).tasks|
    decreases n
  {
    hide StateAt, Exclusive, EntriesLive;
    if i < n {
      NextState(actions, n - 1);
      TasksOnlyGrow(actions, i, n - 1);
    }
  }

  /** After its task has exited, and until the next call for the model, its entry says how the task
      ended: completed without an error exactly when all files arrived, even after a cancel; or else
      with the error it failed with, cancelled if a cancel came while it lived and failed if none did;
      or, if its directory could not be created, as if the task were still there. */
  lemma {:induction false} EntryAfterExit(actions: seq<Action>, t: nat, b: nat, e: nat, n: nat)
    requires Begins(actions, t, b) && b < e < n <= |actions| && Exits(actions, t, e)
    requires forall j :: e < j < n ==> !IsCallFor(actions[j], actions[b].id)
    ensures FinalEntry(actions, t, actions[b].id, b, e, n)
    ensures !HasLiveTask(StateAt(actions, n), actions[b].id)
    decreases n
  {
    var id := actions[b].id;
    hide StateAt, LivingEntry, FinalEntry;
    if n == e + 1 {
      EntryWhileLive(actions, t, b, e);
      EntryStep(actions, t, id, b, e);
      NoneLiveAfter(actions, t, id, b, e);
    } else {
      EntryAfterExit(actions, t, b, e, n - 1);
      StaysFinal(actions, t, id, b, e, n - 1);
    }
  }

  lemma {:induction false} NoneLiveAfter(actions: seq<Action>, t: nat, id: string, b: nat, e: nat)
    requires Exits(actions, t, e) && b < e && LivingEntry(actions, t, id, b, e) && FinalEntry(actions, t, id, b, e, e + 1)
    ensures !HasLiveTask(StateAt(actions, e + 1), id)
  {
    var s, s' := StateAt(actions, e), StateAt(actions, e + 1);
    NextState(actions, e);
    hide StateAt, CancelledSince;
    forall u: nat | Live(s', u) && s'.tasks[u].id == id ensures false {
      LiveBefore(s, actions[e], u);
    }
  }

  lemma {:induction false} StaysFinal(actions: seq<Action>, t: nat, id: string, b: nat, e: nat, n: nat)
    requires e < n < |actions| && FinalEntry(actions, t, id, b, e, n) && !HasLiveTask(StateAt(actions, n), id)
    requires !IsCallFor(actions[n], id)
    ensures FinalEntry(actions, t, id, b, e, n + 1) && !HasLiveTask(StateAt(actions, n + 1), id)
  {
    NextState(actions, n);
    hide StateAt, CancelledSince, Exclusive, EntriesLive;
    EntryStays(StateAt(actions, n), actions[n], id);
    NoNewTask(StateAt(actions, n), actions[n], id);
    hide HasLiveTask, Next;
  }

  /** In particular a model is shown as completed exactly when its task ran to the end. */
  lemma {:induction false} CompletedIffSucceeded(actions: seq<Action>, t: nat, b: nat, e: nat, n: nat)
    requires Begins(actions, t, b) && b < e < n <= |actions| && Exits(actions, t, e)
    requires forall j :: e < j < n ==> !IsCallFor(actions[j], actions[b].id)
    ensures var m, id := StateAt(actions, n).registry, actions[b].id;
            id in m && (m[id] == Progress(Completed, true, None) <==> actions[e] == Ran(t, true))
  {
    EntryAfterExit(actions, t, b, e, n);
    hide StateAt, HasLiveTask;
  }

  /** The task exited with action `e`, other than for want of a directory, and no call for its model
      came after that and before action `n`. */
  ghost predicate EndedQuietly(actions: seq<Action>, t: nat, id: string, e: nat, n: nat)
    requires n <= |actions|
  {
    Exits(actions, t, e) && !actions[e].Prepared? && forall j :: e < j < n ==> !IsCallFor(actions[j], id)
  }

  /** Clearing takes the entry away once the task has ended by itself, and never while it lives. */
  lemma {:induction false} ClearsOnlyAfterExit(actions: seq<Action>, t: nat, b: nat, n: nat)
    requires Begins(actions, t, b) && b < n < |actions| && actions[n] == Clear(actions[b].id)
    ensures Live(StateAt(actions, n), t) ==>
            actions[b].id in StateAt(actions, n).registry && actions[b].id in StateAt(actions, n + 1).registry
            && StateAt(actions, n + 1).registry[actions[b].id] == StateAt(actions, n).registry[actions[b].id]
    ensures forall e: nat :: b < e < n && EndedQuietly(actions, t, actions[b].id, e, n) ==>
            actions[b].id !in StateAt(actions, n + 1).registry
  {
    NextState(actions, n);
    hide StateAt;
    var id := actions[b].id;
    if Live(StateAt(actions, n), t) {
      EntryWhileLive(actions, t, b, n);
    }
    forall e: nat | b < e < n && EndedQuietly(actions, t, id, e, n)
      ensures id !in StateAt(actions, n + 1).registry
    {
      EntryAfterExit(actions, t, b, e, n);
    }
  }
}
