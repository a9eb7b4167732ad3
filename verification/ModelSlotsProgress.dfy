/** What the slot protocol guarantees over every interleaving: mutual exclusion, no lost wake-up, no
    deadlock, and the end of every run that starts no new task. */
module ModelSlotsProgress {
  import opened Text
  import opened ModelSlots

  // ---------- safety ----------

  /** In every reachable state at most one slot is loaded and at most one is loading, and the loader
      of a loading slot holds the cold lock. */
  lemma {:induction false} OneLoadedOneLoading(s: State)
    requires Reachable(s)
    ensures forall j, k :: Is(s.slots, j, Loaded) && Is(s.slots, k, Loaded) ==> j == k
    ensures forall j, k :: Is(s.slots, j, Loading) && Is(s.slots, k, Loading) ==> j == k
    ensures forall k :: Is(s.slots, k, Loading) ==>
      s.cold.Some? && s.cold.value < |s.tasks| && s.tasks[s.cold.value].key == k && IsLoader(s.tasks[s.cold.value].pc)
  {
    ReachableInv(s);
  }

  /** Two tasks never hold one slot's lock, and never both hold the cold lock. */
  lemma {:induction false} LocksExclude(s: State, t: nat, u: nat)
    requires Reachable(s) && t < |s.tasks| && u < |s.tasks| && t != u
    ensures HeldSlot(s.tasks[t]).Some? ==> HeldSlot(s.tasks[t]) != HeldSlot(s.tasks[u])
    ensures !(HoldsCold(s.tasks[t].pc) && HoldsCold(s.tasks[u].pc))
  {
    ReachableInv(s);
    if HeldSlot(s.tasks[t]).Some? && HeldSlot(s.tasks[t]) == HeldSlot(s.tasks[u]) {
      LockIsExclusive(s, t, u);
    }
  }

  /** A task that holds the cold lock and its slot's lock never finds the slot loading. */
  lemma {:induction false} InnerLoadingIsUnreachable(s: State, t: nat)
    requires Reachable(s) && t < |s.tasks|
    ensures !s.tasks[t].pc.InnerParked?
    ensures s.tasks[t].pc.Inner? ==> !Is(s.slots, s.tasks[t].key, Loading)
  {
    ReachableInv(s);
    TaskAt(s, t);
    if s.tasks[t].pc.Inner? {
      InnerIsNotLoading(s, t);
    }
  }

  predicate NotBy(a: Action, t: nat) {
    a.Act? ==> a.task != t
  }

  predicate SpawnFree(actions: seq<Action>) {
    forall i :: 0 <= i < |actions| ==> actions[i].Act?
  }

  predicate OnlyWoken(task: Task, task': Task) {
    || task' == task
    || (task.pc == Parked(false) && task' == task.(pc := Parked(true)))
    || (task.pc == InnerParked(false) && task' == task.(pc := InnerParked(true)))
  }

  predicate Wakes(pc: Pc) {
    pc.SendFailHold? || pc.LoadedHold? || pc.FailHold? || pc.EvictHold?
  }

  /** A step that notifies nobody changes only where its own task stands. */
  lemma {:induction false} QuietStep(s: State, t: nat, ok: bool, pick: Key)
    requires t < |s.tasks| && !Wakes(s.tasks[t].pc) && Step(s, t, ok, pick).Some?
    ensures var tasks := Step(s, t, ok, pick).value.tasks;
            |tasks| == |s.tasks| && forall u :: 0 <= u < |s.tasks| && u != t ==> tasks[u] == s.tasks[u]
  {
    var pc := s.tasks[t].pc;
    if BeforeCold(pc) || AtCold(pc) {
    } else if IsLoader(pc) {
    } else {
    }
  }

  lemma {:induction false} WakingStep(s: State, t: nat, ok: bool, pick: Key)
    requires t < |s.tasks| && Wakes(s.tasks[t].pc)
    ensures Step(s, t, ok, pick).Some? && |Step(s, t, ok, pick).value.tasks| == |s.tasks|
    ensures var tasks := Step(s, t, ok, pick).value.tasks;
            forall u :: 0 <= u < |s.tasks| && u != t ==> OnlyWoken(s.tasks[u], tasks[u])
  {
  }

  /** Other tasks' steps leave a task where it is, except for waking it. */
  lemma {:induction false} OthersOnlyWake(s: State, a: Action, t: nat)
    requires t < |s.tasks| && NotBy(a, t) && Next(s, a).Some?
    ensures t < |Next(s, a).value.tasks| && OnlyWoken(s.tasks[t], Next(s, a).value.tasks[t])
  {
    if a.Act? {
      hide Step;
      if Wakes(s.tasks[a.task].pc) {
        WakingStep(s, a.task, a.ok, a.pick);
      } else {
        QuietStep(s, a.task, a.ok, a.pick);
      }
    }
  }

  /** A generation in progress keeps its model: whatever the other tasks do, and however many are
      added, its slot stays loaded and locked by it until its own next step. */
  lemma {:induction false} GenerationUndisturbed(s: State, actions: seq<Action>, t: nat)
    requires Reachable(s) && t < |s.tasks| && s.tasks[t].pc.Generating?
    requires Run(s, actions).Some? && forall i :: 0 <= i < |actions| ==> NotBy(actions[i], t)
    ensures var s', key := Run(s, actions).value, s.tasks[t].key;
            && t < |s'.tasks| && s'.tasks[t] == s.tasks[t]
            && Is(s'.slots, key, Loaded) && key in s'.locks && s'.locks[key] == t
  {
    ReachableInv(s);
    GenerationGoesOn(s, actions, t);
  }

  lemma {:induction false} GenerationGoesOn(s: State, actions: seq<Action>, t: nat)
    requires Inv(s) && t < |s.tasks| && s.tasks[t].pc.Generating?
    requires Run(s, actions).Some? && forall i :: 0 <= i < |actions| ==> NotBy(actions[i], t)
    ensures var s', key := Run(s, actions).value, s.tasks[t].key;
            && t < |s'.tasks| && s'.tasks[t] == s.tasks[t]
            && Is(s'.slots, key, Loaded) && key in s'.locks && s'.locks[key] == t
    decreases |actions|
  {
    if actions == [] {
      TaskAt(s, t);
      assert HeldSlot(s.tasks[t]) == Some(s.tasks[t].key);
    } else {
      hide Inv;
      assert NotBy(actions[0], t);
      var next := Next(s, actions[0]).value;
      OthersOnlyWake(s, actions[0], t);
      NextKeepsInv(s, actions[0]);
      forall i | 0 <= i < |actions[1..]| ensures NotBy(actions[1..][i], t) {
        assert NotBy(actions[i + 1], t);
      }
      GenerationGoesOn(next, actions[1..], t);
    }
  }

  // ---------- no wake-up is lost ----------

  /** A waiter that has not been woken waits for a slot that is loading, by a live loader. */
  lemma {:induction false} WaitersHaveALoader(s: State, t: nat)
    requires Reachable(s) && t < |s.tasks| && Waiting(s.tasks[t].pc)
    ensures Is(s.slots, s.tasks[t].key, Loading)
    ensures s.cold.Some? && s.cold.value < |s.tasks|
    ensures s.tasks[s.cold.value].key == s.tasks[t].key && IsLoader(s.tasks[s.cold.value].pc)
  {
    ReachableInv(s);
    TaskAt(s, t);
  }

  /** The step that ends a slot's loading wakes every waiter of the slot. */
  lemma {:induction false} NoLostWakeUp(s: State, a: Action, s': State, t: nat)
    requires Reachable(s) && t < |s.tasks| && s.tasks[t].pc == Parked(false)
    requires Next(s, a) == Some(s') && !Is(s'.slots, s.tasks[t].key, Loading)
    ensures t < |s'.tasks| && s'.tasks[t] == s.tasks[t].(pc := Parked(true))
  {
    ReachableInv(s);
    NextKeepsInv(s, a);
    OthersOnlyWake(s, a, t);
    TaskAt(s', t);
  }

  /** No task waits for the cold lock while it holds a slot's lock. */
  lemma {:induction false} ColdWaitersHoldNoSlot(s: State, k: Key)
    requires Reachable(s) && k in s.locks
    ensures s.locks[k] < |s.tasks| && !s.tasks[s.locks[k]].pc.WantCold?
  {
    ReachableInv(s);
  }

  // ---------- no deadlock ----------

  /** The slot whose lock the task waits for. */
  function WantedSlot(task: Task): Option<Key> {
    match task.pc
    case WantSlot | WantInner | SendFailWant | LoadedWant | FailWant | GenWant => Some(task.key)
    case UnloadWant(other, _) => Some(other)
    case EvictWant(other, _) => Some(other)
    case _ => None
  }

  ghost predicate CanStep(s: State) {
    exists t: nat, ok, pick :: t < |s.tasks| && Step(s, t, ok, pick).Some?
  }

  predicate Finished(s: State) {
    forall t :: 0 <= t < |s.tasks| ==> s.tasks[t].pc == Done
  }

  /** A task that waits for nothing has an enabled step. */
  lemma {:induction false} UnblockedSteps(s: State, t: nat)
    requires t < |s.tasks| && WantedSlot(s.tasks[t]).None?
    requires !s.tasks[t].pc.WantCold? && s.tasks[t].pc != Parked(false) && !s.tasks[t].pc.Done?
    ensures CanStep(s)
  {
    var pc := s.tasks[t].pc;
    if (pc.Unloading? || pc.Evicting?) && pc.todo != {} {
      var pick :| pick in pc.todo;
      assert Step(s, t, true, pick).Some?;
    } else {
      assert Step(s, t, true, s.tasks[t].key).Some?;
    }
  }

  /** The holder of a slot's lock waits for nothing. */
  lemma {:induction false} HolderIsUnblocked(s: State, k: Key)
    requires Inv(s) && k in s.locks
    ensures s.locks[k] < |s.tasks|
    ensures var task := s.tasks[s.locks[k]];
            WantedSlot(task).None? && !task.pc.WantCold? && task.pc != Parked(false) && !task.pc.Done?
  {
    hide ColdOk, TasksOk, LoadingOk, OneLoaded;
  }

  lemma {:induction false} FreeSlotIsTaken(s: State, t: nat)
    requires t < |s.tasks| && WantedSlot(s.tasks[t]).Some? && WantedSlot(s.tasks[t]).value !in s.locks
    ensures Step(s, t, true, s.tasks[t].key).Some?
  {
  }

  /** Where a task waits for a slot's lock, it or the lock's holder has an enabled step. */
  lemma {:induction false} SlotWaitersStep(s: State, t: nat)
    requires Inv(s) && t < |s.tasks| && WantedSlot(s.tasks[t]).Some?
    ensures CanStep(s)
  {
    hide Inv, Step;
    var k := WantedSlot(s.tasks[t]).value;
    if k in s.locks {
      HolderIsUnblocked(s, k);
      UnblockedSteps(s, s.locks[k]);
    } else {
      FreeSlotIsTaken(s, t);
    }
  }

  /** The cold lock's holder is never stuck for long. */
  lemma {:induction false} ColdHolderSteps(s: State, t: nat)
    requires Inv(s) && t < |s.tasks| && HoldsCold(s.tasks[t].pc)
    ensures CanStep(s)
  {
    if WantedSlot(s.tasks[t]).Some? {
      SlotWaitersStep(s, t);
    } else {
      UnblockedSteps(s, t);
    }
  }

  /** Every reachable state with an unfinished task has an enabled step. */
  lemma {:induction false} NoDeadlock(s: State)
    requires Reachable(s)
    ensures CanStep(s) <==> !Finished(s)
  {
    ReachableInv(s);
    if !Finished(s) {
      SomeTaskSteps(s);
    }
  }

  lemma {:induction false} SomeTaskSteps(s: State)
    requires Inv(s) && !Finished(s)
    ensures CanStep(s)
  {
    var t: nat :| t < |s.tasks| && s.tasks[t].pc != Done;
    var task := s.tasks[t];
    if WantedSlot(task).Some? {
      SlotWaitersStep(s, t);
    } else if task.pc.WantCold? {
      if s.cold.None? {
        assert Step(s, t, true, task.key).Some?;
      } else {
        ColdHolderSteps(s, s.cold.value);
      }
    } else if task.pc == Parked(false) {
      TaskAt(s, t);
      ColdHolderSteps(s, s.cold.value);
    } else {
      UnblockedSteps(s, t);
    }
  }

  // ---------- every run without new tasks ends ----------

  /** How far a task is from its end, if nobody wakes it; `n` is the number of slots. */
  function Rank(pc: Pc, n: nat): nat {
    match pc
    case Parked(notified) => if notified then 18 + 3 * n else 0
    case InnerParked(notified) => if notified then 19 + 3 * n else 1
    case WantSlot => 17 + 3 * n
    case Checking => 16 + 3 * n
    case WantCold => 15 + 3 * n
    case WantInner => 14 + 3 * n
    case Inner => 13 + 3 * n
    case Sending => 12 + 3 * n
    case Unloading(todo) => 11 + 3 * |todo|
    case UnloadWant(_, todo) => 10 + 3 * |todo|
    case UnloadHold(_, todo) => 9 + 3 * |todo|
    case LoadModel => 10
    case FailWant => 9
    case FailHold | LoadedWant | SendFailWant => 8
    case LoadedHold | SendFailHold => 7
    case Reporting => 6
    case LoadedNotified | Dropping => 5
    case LoadedBreak | InnerLoaded | DroppingCold => 4
    case GenWant => 3
    case GenHold => 2
    case Generating => 1
    case Evicting(todo) => 1 + 3 * |todo|
    case EvictWant(_, todo) => 3 * |todo|
    case EvictHold(_, todo) => 3 * |todo| - if |todo| == 0 then 0 else 1
    case Done => 0
  }

  /** The task may still settle a slot, which wakes others; it does so at most once. */
  predicate MaySettle(pc: Pc) {
    BeforeCold(pc) || AtCold(pc) || IsLoader(pc)
  }

  function Woken(n: nat): nat { 18 + 3 * n }

  function Cost(pc: Pc, n: nat, w: nat): nat {
    Rank(pc, n) + if MaySettle(pc) then w else 0
  }

  /** The cost of the first `i` tasks. */
  function Total(tasks: seq<Task>, i: nat, n: nat, w: nat): nat
    requires i <= |tasks|
  {
    if i == 0 then 0 else Total(tasks, i - 1, n, w) + Cost(tasks[i - 1].pc, n, w)
  }

  /** What one settling may cost: it wakes every task at most. */
  function Settlement(tasks: nat, n: nat): nat {
    tasks * Woken(n) + 1
  }

  function Measure(s: State): nat {
    var n := |s.slots.Keys|;
    Total(s.tasks, |s.tasks|, n, Settlement(|s.tasks|, n))
  }

  lemma {:induction false} TotalOfMove(before: seq<Task>, after: seq<Task>, t: nat, i: nat, n: nat, w: nat)
    requires i <= |before| == |after| && t < |before|
    requires forall u :: 0 <= u < |before| && u != t ==> after[u] == before[u]
    ensures Total(after, i, n, w) ==
            Total(before, i, n, w) + if t < i then Cost(after[t].pc, n, w) - Cost(before[t].pc, n, w) else 0
    decreases i
  {
    if i > 0 {
      TotalOfMove(before, after, t, i - 1, n, w);
    }
  }

  /** Waking costs at most `Woken` for every task. */
  lemma {:induction false} TotalOfWake(tasks: seq<Task>, k: Key, i: nat, n: nat, w: nat)
    requires i <= |tasks|
    ensures Total(Wake(tasks, k), i, n, w) <= Total(tasks, i, n, w) + i * Woken(n)
    decreases i
  {
    if i > 0 {
      TotalOfWake(tasks, k, i - 1, n, w);
      assert i * Woken(n) == (i - 1) * Woken(n) + Woken(n);
    }
  }

  /** The settling step: the settler's share pays for all the waking. */
  lemma {:induction false} SettlingDecreases(s: State, t: nat, state: SlotState, pc: Pc)
    requires t < |s.tasks| && s.tasks[t].key in s.slots
    requires || (s.tasks[t].pc == LoadedHold && pc == LoadedNotified)
             || (s.tasks[t].pc == SendFailHold && pc == Dropping)
             || (s.tasks[t].pc == FailHold && pc == Reporting)
    ensures Measure(Goto(SetAndNotify(s, s.tasks[t].key, state), t, pc)) < Measure(s)
  {
    var key := s.tasks[t].key;
    var woken := SetAndNotify(s, key, state);
    var s' := Goto(woken, t, pc);
    var n := |s.slots.Keys|;
    var w := Settlement(|s.tasks|, n);
    assert s'.slots.Keys == s.slots.Keys;
    TotalOfWake(s.tasks, key, |s.tasks|, n, w);
    TotalOfMove(woken.tasks, s'.tasks, t, |s.tasks|, n, w);
  }

  /** `pc'` is a cheaper place to stand than `pc`. */
  predicate Cheaper(pc: Pc, pc': Pc, n: nat) {
    Rank(pc', n) < Rank(pc, n) && (MaySettle(pc') ==> MaySettle(pc))
  }

  /** Steps add and remove no slots. */
  lemma {:induction false} StepKeepsSlots(s: State, t: nat, ok: bool, pick: Key)
    requires Inv(s) && t < |s.tasks| && Step(s, t, ok, pick).Some?
    ensures Step(s, t, ok, pick).value.slots.Keys == s.slots.Keys
  {
    hide Inv;
    TaskAt(s, t);
  }

  lemma {:induction false} StreamStepIsCheaper(s: State, t: nat, ok: bool, pick: Key, n: nat)
    requires t < |s.tasks| && (BeforeCold(s.tasks[t].pc))
    requires Step(s, t, ok, pick).Some? && t < |Step(s, t, ok, pick).value.tasks|
    ensures Cheaper(s.tasks[t].pc, Step(s, t, ok, pick).value.tasks[t].pc, n)
  {
  }

  lemma {:induction false} ColdStepIsCheaper(s: State, t: nat, ok: bool, pick: Key, n: nat)
    requires t < |s.tasks| && (AtCold(s.tasks[t].pc))
    requires Step(s, t, ok, pick).Some? && t < |Step(s, t, ok, pick).value.tasks|
    ensures Cheaper(s.tasks[t].pc, Step(s, t, ok, pick).value.tasks[t].pc, n)
  {
  }

  lemma {:induction false} UnloadIsCheaper(s: State, t: nat, ok: bool, pick: Key, n: nat)
    requires t < |s.tasks| && (s.tasks[t].pc.UnloadHold? && s.tasks[t].pc.other in s.tasks[t].pc.todo)
    requires Step(s, t, ok, pick).Some? && t < |Step(s, t, ok, pick).value.tasks|
    ensures Cheaper(s.tasks[t].pc, Step(s, t, ok, pick).value.tasks[t].pc, n)
  {
  }

  lemma {:induction false} SendingIsCheaper(s: State, t: nat, ok: bool, pick: Key, n: nat)
    requires t < |s.tasks| && s.tasks[t].pc.Sending? && n == |s.slots.Keys|
    ensures Step(s, t, ok, pick).Some? && t < |Step(s, t, ok, pick).value.tasks|
    ensures Cheaper(s.tasks[t].pc, Step(s, t, ok, pick).value.tasks[t].pc, n)
  {
    SmallerSet(s.slots.Keys - {s.tasks[t].key}, s.slots.Keys);
  }

  lemma {:induction false} LoaderStepIsCheaper(s: State, t: nat, ok: bool, pick: Key, n: nat)
    requires t < |s.tasks| && IsLoader(s.tasks[t].pc) && !Wakes(s.tasks[t].pc)
    requires !s.tasks[t].pc.UnloadHold? && !s.tasks[t].pc.Sending?
    requires Step(s, t, ok, pick).Some? && t < |Step(s, t, ok, pick).value.tasks|
    ensures Cheaper(s.tasks[t].pc, Step(s, t, ok, pick).value.tasks[t].pc, n)
  {
  }

  lemma {:induction false} LateStepIsCheaper(s: State, t: nat, ok: bool, pick: Key, n: nat)
    requires t < |s.tasks| && (AfterLoading(s.tasks[t].pc))
    requires Step(s, t, ok, pick).Some? && t < |Step(s, t, ok, pick).value.tasks|
    ensures Cheaper(s.tasks[t].pc, Step(s, t, ok, pick).value.tasks[t].pc, n)
  {
  }

  lemma {:induction false} GenerationStepIsCheaper(s: State, t: nat, ok: bool, pick: Key, n: nat)
    requires t < |s.tasks| && (InGeneration(s.tasks[t].pc))
    requires Step(s, t, ok, pick).Some? && t < |Step(s, t, ok, pick).value.tasks|
    ensures Cheaper(s.tasks[t].pc, Step(s, t, ok, pick).value.tasks[t].pc, n)
  {
  }

  lemma {:induction false} EvictionStepIsCheaper(s: State, t: nat, ok: bool, pick: Key, n: nat)
    requires t < |s.tasks| && (s.tasks[t].pc.Evicting? || (s.tasks[t].pc.EvictWant? && s.tasks[t].pc.other in s.tasks[t].pc.todo))
    requires Step(s, t, ok, pick).Some? && t < |Step(s, t, ok, pick).value.tasks|
    ensures Cheaper(s.tasks[t].pc, Step(s, t, ok, pick).value.tasks[t].pc, n)
  {
  }

  lemma {:induction false} SmallerSet(a: set<Key>, b: set<Key>)
    requires a <= b
    ensures |a| <= |b|
  {
    assert b == a + (b - a);
  }

  /** A step that changes only where `t` stands, to a cheaper place. */
  lemma {:induction false} MoveDecreases(s: State, s': State, t: nat)
    requires t < |s.tasks| == |s'.tasks| && s'.slots.Keys == s.slots.Keys
    requires Cheaper(s.tasks[t].pc, s'.tasks[t].pc, |s.slots.Keys|)
    requires forall u :: 0 <= u < |s.tasks| && u != t ==> s'.tasks[u] == s.tasks[u]
    ensures Measure(s') < Measure(s)
  {
    var n := |s.slots.Keys|;
    TotalOfMove(s.tasks, s'.tasks, t, |s.tasks|, n, Settlement(|s.tasks|, n));
  }

  /** An eviction wakes nobody, and gets cheaper too. */
  lemma {:induction false} EvictHoldStep(s: State, t: nat, ok: bool, pick: Key)
    requires Inv(s) && t < |s.tasks| && s.tasks[t].pc.EvictHold?
    ensures Step(s, t, ok, pick).Some? && |Step(s, t, ok, pick).value.tasks| == |s.tasks|
    ensures var tasks := Step(s, t, ok, pick).value.tasks;
            && (forall u :: 0 <= u < |s.tasks| && u != t ==> tasks[u] == s.tasks[u])
            && Cheaper(s.tasks[t].pc, tasks[t].pc, |s.slots.Keys|)
  {
    hide Inv;
    TaskAt(s, t);
    if s.slots[s.tasks[t].pc.other] == Loaded {
      EvictWakesNobody(s, t, s.tasks[t].pc.other);
    }
  }

  /** Every step of every task brings the end closer. */
  lemma {:induction false} StepDecreases(s: State, t: nat, ok: bool, pick: Key)
    requires Inv(s) && t < |s.tasks| && Step(s, t, ok, pick).Some?
    ensures Measure(Step(s, t, ok, pick).value) < Measure(s)
  {
    hide Inv, Measure, Cheaper;
    StepKeepsSlots(s, t, ok, pick);
    var pc := s.tasks[t].pc;
    if pc.EvictHold? {
      hide Step;
      EvictHoldStep(s, t, ok, pick);
      MoveDecreases(s, Step(s, t, ok, pick).value, t);
    } else if Wakes(pc) {
      SettlerKnowsItsSlot(s, t);
      SettlingDecreases(s, t, if pc.LoadedHold? then Loaded else Empty,
                        if pc.LoadedHold? then LoadedNotified else if pc.SendFailHold? then Dropping else Reporting);
    } else {
      hide Step;
      QuietStep(s, t, ok, pick);
      QuietStepIsCheaper(s, t, ok, pick);
      MoveDecreases(s, Step(s, t, ok, pick).value, t);
    }
  }

  lemma {:induction false} SettlerKnowsItsSlot(s: State, t: nat)
    requires Inv(s) && t < |s.tasks| && IsLoader(s.tasks[t].pc)
    ensures s.tasks[t].key in s.slots
  {
    TaskAt(s, t);
  }

  lemma {:induction false} QuietStepIsCheaper(s: State, t: nat, ok: bool, pick: Key)
    requires Inv(s) && t < |s.tasks| && !Wakes(s.tasks[t].pc) && Step(s, t, ok, pick).Some?
    requires t < |Step(s, t, ok, pick).value.tasks|
    ensures Cheaper(s.tasks[t].pc, Step(s, t, ok, pick).value.tasks[t].pc, |s.slots.Keys|)
  {
    hide Inv, Step, Cheaper;
    TaskAt(s, t);
    var pc, n := s.tasks[t].pc, |s.slots.Keys|;
    if BeforeCold(pc) { StreamStepIsCheaper(s, t, ok, pick, n); }
    else if AtCold(pc) { ColdStepIsCheaper(s, t, ok, pick, n); }
    else if pc.UnloadHold? { UnloadIsCheaper(s, t, ok, pick, n); }
    else if pc.Sending? { SendingIsCheaper(s, t, ok, pick, n); }
    else if IsLoader(pc) { LoaderStepIsCheaper(s, t, ok, pick, n); }
    else if IsEviction(pc) { EvictionStepIsCheaper(s, t, ok, pick, n); }
    else if InGeneration(pc) { GenerationStepIsCheaper(s, t, ok, pick, n); }
    else { LateStepIsCheaper(s, t, ok, pick, n); }
  }

  /** A run that starts no new task is no longer than the measure of the state it starts in. */
  lemma {:induction false} RunsAreBounded(s: State, actions: seq<Action>)
    requires Inv(s) && SpawnFree(actions) && Run(s, actions).Some?
    ensures |actions| + Measure(Run(s, actions).value) <= Measure(s)
    decreases |actions|
  {
    if actions != [] {
      hide Inv, Measure, Step;
      var a := actions[0];
      assert a.Act?;
      NextKeepsInv(s, a);
      StepDecreases(s, a.task, a.ok, a.pick);
      forall i | 0 <= i < |actions[1..]| ensures actions[1..][i].Act? {
        assert actions[i + 1].Act?;
      }
      RunsAreBounded(Next(s, a).value, actions[1..]);
    }
  }

  /** However the steps are scheduled, once no new task starts the protocol runs out of steps, after
      at most `Measure` of them, and it does so only when every stream and every eviction is done. */
  lemma {:induction false} EveryTaskFinishes(s: State, actions: seq<Action>)
    requires Reachable(s) && SpawnFree(actions) && Run(s, actions).Some?
    ensures |actions| <= Measure(s)
    ensures CanStep(Run(s, actions).value) <==> !Finished(Run(s, actions).value)
  {
    ReachableInv(s);
    RunsAreBounded(s, actions);
    RunKeepsInv(s, actions);
    var s' := Run(s, actions).value;
    if !Finished(s') {
      SomeTaskSteps(s');
    }
  }
}
