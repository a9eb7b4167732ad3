/** What happens over whole runs of the slot protocol: which streams generate, which steps load and
    empty a slot, and what an eviction has done when it is over. Every law is about the states of a
    run from the start, by their index. */
module ModelSlotsHistory {
  import opened Text
  import opened ModelSlots
  import ModelSlotsProgress

  // ---------- the states of a run ----------

  predicate IsRun(actions: seq<Action>) {
    Run(INIT, actions).Some?
  }

  /** The state after the first `i` actions. */
  function StateAt(actions: seq<Action>, i: nat): State
    requires i <= |actions|
  {
    match Run(INIT, actions[..i])
    case Some(s) => s
    case None => INIT
  }

  lemma {:induction false} RunSnoc(s: State, actions: seq<Action>, a: Action)
    ensures Run(s, actions + [a]) == match Run(s, actions) case Some(end) => Next(end, a) case None => None
    decreases |actions|
  {
    hide Next;
    if actions == [] {
      assert actions + [a] == [a] && [a][1..] == [];
      assert Next(s, a).Some? ==> Run(Next(s, a).value, []) == Next(s, a);
    } else {
      assert (actions + [a])[1..] == actions[1..] + [a];
      if Next(s, actions[0]).Some? {
        RunSnoc(Next(s, actions[0]).value, actions[1..], a);
      }
    }
  }

  lemma {:induction false} PrefixIsRun(actions: seq<Action>, n: nat)
    requires IsRun(actions) && n <= |actions|
    ensures Run(INIT, actions[..n]) == Some(StateAt(actions, n)) && Inv(StateAt(actions, n))
    decreases |actions| - n
  {
    hide Inv, Next, Run;
    if n == |actions| {
      assert actions[..n] == actions;
    } else {
      PrefixIsRun(actions, n + 1);
      assert actions[..n + 1] == actions[..n] + [actions[n]];
      RunSnoc(INIT, actions[..n], actions[n]);
    }
    InitInv();
    RunKeepsInv(INIT, actions[..n]);
  }

  lemma {:induction false} InitInv()
    ensures Inv(INIT)
  {
  }

  /** Each state of a run is the one before it after one action. */
  lemma {:induction false} NextState(actions: seq<Action>, n: nat)
    requires IsRun(actions) && n < |actions|
    ensures Next(StateAt(actions, n), actions[n]) == Some(StateAt(actions, n + 1))
    ensures Inv(StateAt(actions, n)) && Inv(StateAt(actions, n + 1))
  {
    hide Inv, Next, Run;
    PrefixIsRun(actions, n);
    PrefixIsRun(actions, n + 1);
    assert actions[..n + 1] == actions[..n] + [actions[n]];
    RunSnoc(INIT, actions[..n], actions[n]);
  }

  lemma {:induction false} StartState(actions: seq<Action>)
    ensures StateAt(actions, 0) == INIT
  {
    assert actions[..0] == [];
  }

  /** Where task `t` stands after `i` actions, and that it is there. */
  predicate Stands(actions: seq<Action>, i: nat, t: nat, pc: Pc)
    requires i <= |actions|
  {
    t < |StateAt(actions, i).tasks| && StateAt(actions, i).tasks[t].pc == pc
  }

  predicate SlotIs(actions: seq<Action>, i: nat, k: Key, state: SlotState)
    requires i <= |actions|
  {
    Is(StateAt(actions, i).slots, k, state)
  }

  /** Action `i` is a step of task `t`, with this outcome. */
  predicate StepOf(actions: seq<Action>, i: nat, t: nat, ok: bool) {
    i < |actions| && actions[i].Act? && actions[i].task == t && actions[i].ok == ok
  }

  // ---------- what one step does, seen from one task ----------

  predicate OnTheWay(pc: Pc) {
    !IsEviction(pc) && !GivingUp(pc) && !pc.GenHold? && !pc.Generating? && !pc.Done?
  }

  predicate GivingUp(pc: Pc) {
    pc.SendFailWant? || pc.SendFailHold? || pc.FailWant? || pc.FailHold? || pc.Reporting? || pc.Dropping? || pc.DroppingCold?
  }

  predicate MayFail(pc: Pc) {
    pc.Sending? || pc.LoadModel?
  }

  /** Where its own step takes a stream. */
  predicate StreamEdge(pc: Pc, ok: bool, loaded: bool, pc': Pc) {
    if OnTheWay(pc) then
      if MayFail(pc) then if ok then OnTheWay(pc') else GivingUp(pc') else OnTheWay(pc') || pc'.GenHold?
    else if GivingUp(pc) then GivingUp(pc') || pc'.Done?
    else if pc.GenHold? then if loaded then pc'.Generating? else pc'.Done?
    else pc.Generating? && pc'.Done?
  }

  /** Its own step takes `t` along an edge. */
  predicate Moves(s: State, s': State, t: nat, ok: bool) {
    && t < |s.tasks| == |s'.tasks| && s'.tasks[t].key == s.tasks[t].key
    && StreamEdge(s.tasks[t].pc, ok, Is(s.slots, s.tasks[t].key, Loaded), s'.tasks[t].pc)
  }

  lemma {:induction false} EnterMoves(s: State, t: nat, ok: bool)
    requires t < |s.tasks| && BeforeCold(s.tasks[t].pc) && EnterStep(s, t).Some?
    ensures Moves(s, EnterStep(s, t).value, t, ok)
  {
  }

  lemma {:induction false} ColdMoves(s: State, t: nat, ok: bool)
    requires t < |s.tasks| && AtCold(s.tasks[t].pc) && ColdStep(s, t).Some?
    ensures Moves(s, ColdStep(s, t).value, t, ok)
  {
  }

  lemma {:induction false} UnloadMoves(s: State, t: nat, ok: bool, pick: Key)
    requires t < |s.tasks| && Clearing(s.tasks[t].pc) && UnloadStep(s, t, ok, pick).Some?
    ensures Moves(s, UnloadStep(s, t, ok, pick).value, t, ok)
  {
  }

  lemma {:induction false} SettleMoves(s: State, t: nat, ok: bool)
    requires t < |s.tasks| && Settling(s.tasks[t].pc) && SettleStep(s, t, ok).Some?
    ensures Moves(s, SettleStep(s, t, ok).value, t, ok)
  {
  }

  lemma {:induction false} LeaveMoves(s: State, t: nat, ok: bool)
    requires t < |s.tasks| && AfterLoading(s.tasks[t].pc) && LeaveStep(s, t).Some?
    ensures Moves(s, LeaveStep(s, t).value, t, ok)
  {
  }

  lemma {:induction false} GenerateMoves(s: State, t: nat, ok: bool)
    requires t < |s.tasks| && InGeneration(s.tasks[t].pc) && GenerateStep(s, t).Some?
    ensures Moves(s, GenerateStep(s, t).value, t, ok)
  {
  }

  lemma {:induction false} OwnStep(s: State, t: nat, ok: bool, pick: Key)
    requires t < |s.tasks| && !IsEviction(s.tasks[t].pc) && Step(s, t, ok, pick).Some?
    ensures Moves(s, Step(s, t, ok, pick).value, t, ok)
  {
    hide Moves, EnterStep, ColdStep, UnloadStep, SettleStep, LeaveStep, GenerateStep;
    var pc := s.tasks[t].pc;
    if BeforeCold(pc) { EnterMoves(s, t, ok); }
    else if AtCold(pc) { ColdMoves(s, t, ok); }
    else if Clearing(pc) { UnloadMoves(s, t, ok, pick); }
    else if Settling(pc) { SettleMoves(s, t, ok); }
    else if AfterLoading(pc) { LeaveMoves(s, t, ok); }
    else { GenerateMoves(s, t, ok); }
  }

  predicate StaysOrWakes(pc: Pc, pc': Pc) {
    pc' == pc || (pc == Parked(false) && pc' == Parked(true)) || (pc == InnerParked(false) && pc' == InnerParked(true))
  }

  /** Other tasks' steps leave a task where it is, or wake it. */
  lemma {:induction false} OtherStep(s: State, a: Action, t: nat)
    requires t < |s.tasks| && ModelSlotsProgress.NotBy(a, t) && Next(s, a).Some?
    ensures var s' := Next(s, a).value;
            && |s'.tasks| >= |s.tasks| && s'.tasks[t].key == s.tasks[t].key
            && StaysOrWakes(s.tasks[t].pc, s'.tasks[t].pc)
  {
    ModelSlotsProgress.OthersOnlyWake(s, a, t);
    TasksStay(s, a);
  }

  lemma {:induction false} TasksStay(s: State, a: Action)
    requires Next(s, a).Some?
    ensures |Next(s, a).value.tasks| == |s.tasks| + if a.Spawn? || a.Evict? then 1 else 0
  {
    if a.Act? {
      hide Step;
      if ModelSlotsProgress.Wakes(s.tasks[a.task].pc) {
        ModelSlotsProgress.WakingStep(s, a.task, a.ok, a.pick);
      } else {
        ModelSlotsProgress.QuietStep(s, a.task, a.ok, a.pick);
      }
    }
  }

  /** Only the holder of a slot's lock changes what is in it. */
  lemma {:induction false} OnlyHolderChanges(s: State, a: Action, k: Key)
    requires Inv(s) && Next(s, a).Some?
    requires a.Act? && a.task < |s.tasks| ==> HeldSlot(s.tasks[a.task]) != Some(k)
    ensures Is(Next(s, a).value.slots, k, Loaded) <==> Is(s.slots, k, Loaded)
  {
    hide Inv;
    if a.Act? && a.task < |s.tasks| {
      var pc := s.tasks[a.task].pc;
      if BeforeCold(pc) {
      } else if AtCold(pc) {
      } else if Clearing(pc) {
      } else if Settling(pc) {
      } else if AfterLoading(pc) {
      } else if IsEviction(pc) {
      } else {
      }
    }
  }

  // ---------- a finished stream has generated ----------

  ghost predicate Generated(actions: seq<Action>, t: nat, n: nat)
    requires n <= |actions|
  {
    exists i: nat :: i <= n && Stands(actions, i, t, Generating)
  }

  /** Its send or its load failed. */
  ghost predicate FailedToLoad(actions: seq<Action>, t: nat, n: nat)
    requires n <= |actions|
  {
    exists i: nat :: i < n && StepOf(actions, i, t, false) && (Stands(actions, i, t, Sending) || Stands(actions, i, t, LoadModel))
  }

  /** The task holds its slot's lock to generate, and its slot is not loaded. */
  predicate FindsUnloaded(actions: seq<Action>, i: nat, t: nat)
    requires i <= |actions|
  {
    var s := StateAt(actions, i);
    t < |s.tasks| && s.tasks[t].pc.GenHold? && !Is(s.slots, s.tasks[t].key, Loaded)
  }

  ghost predicate FoundUnloaded(actions: seq<Action>, t: nat, n: nat)
    requires n <= |actions|
  {
    exists i: nat :: i <= n && FindsUnloaded(actions, i, t)
  }

  /** Task `t` is the stream that action `b` spawned. */
  predicate SpawnedAt(actions: seq<Action>, t: nat, b: nat) {
    b < |actions| && actions[b].Spawn? && |StateAt(actions, b).tasks| == t
  }

  predicate Fits(pc: Pc, loaded: bool, generated: bool, failed: bool, found: bool) {
    if OnTheWay(pc) then !generated && !failed && !found
    else if GivingUp(pc) then !generated && failed && !found
    else if pc.GenHold? then !generated && !failed && (found <==> !loaded)
    else if pc.Generating? then generated && !failed && !found
    else pc.Done? && (generated <==> !failed && !found)
  }

  ghost predicate HistoryFits(actions: seq<Action>, t: nat, n: nat)
    requires n <= |actions|
  {
    var s := StateAt(actions, n);
    && t < |s.tasks|
    && Fits(s.tasks[t].pc, Is(s.slots, s.tasks[t].key, Loaded), Generated(actions, t, n), FailedToLoad(actions, t, n), FoundUnloaded(actions, t, n))
  }

  lemma {:induction false} HistoryGrows(actions: seq<Action>, t: nat, n: nat)
    requires n < |actions|
    ensures Generated(actions, t, n + 1) <==> Generated(actions, t, n) || Stands(actions, n + 1, t, Generating)
    ensures FailedToLoad(actions, t, n + 1) <==>
            FailedToLoad(actions, t, n) || (StepOf(actions, n, t, false) && (Stands(actions, n, t, Sending) || Stands(actions, n, t, LoadModel)))
    ensures FoundUnloaded(actions, t, n + 1) <==> FoundUnloaded(actions, t, n) || FindsUnloaded(actions, n + 1, t)
  {
    hide Stands, StepOf, FindsUnloaded;
  }

  lemma {:induction false} NoHistoryYet(actions: seq<Action>, t: nat, b: nat)
    requires IsRun(actions) && SpawnedAt(actions, t, b)
    ensures HistoryFits(actions, t, b + 1)
  {
    forall i: nat | i <= b ensures |StateAt(actions, i).tasks| <= t {
      TasksOnlyGrow(actions, i, b);
    }
    NextState(actions, b);
    hide StateAt, Inv, IsRun;
    HistoryGrows(actions, t, b);
    assert StateAt(actions, b + 1).tasks[t].pc == WantSlot;
  }

  lemma {:induction false} TasksOnlyGrow(actions: seq<Action>, i: nat, n: nat)
    requires IsRun(actions) && i <= n <= |actions|
    ensures |StateAt(actions, i).tasks| <= |StateAt(actions, n).tasks|
    decreases n
  {
    hide StateAt, Inv, IsRun;
    if i < n {
      NextState(actions, n - 1);
      TasksStay(StateAt(actions, n - 1), actions[n - 1]);
      TasksOnlyGrow(actions, i, n - 1);
    }
  }

  /** The slot of a task that holds its lock stays as it is while others move. */
  lemma {:induction false} HeldSlotStays(s: State, a: Action, t: nat)
    requires Inv(s) && t < |s.tasks| && ModelSlotsProgress.NotBy(a, t) && Next(s, a).Some?
    requires HeldSlot(s.tasks[t]) == Some(s.tasks[t].key)
    ensures Is(Next(s, a).value.slots, s.tasks[t].key, Loaded) <==> Is(s.slots, s.tasks[t].key, Loaded)
  {
    hide TasksOk, ColdOk, LoadingOk, OneLoaded, Next;
    OnlyHolderChanges(s, a, s.tasks[t].key);
  }

  /** A step along an edge keeps the history fitting, with what the step adds to it. */
  lemma {:induction false} EdgeFits(pc: Pc, ok: bool, loaded: bool, pc': Pc, loaded': bool, generated: bool, failed: bool, found: bool)
    requires Fits(pc, loaded, generated, failed, found) && StreamEdge(pc, ok, loaded, pc')
    ensures Fits(pc', loaded', generated || pc'.Generating?, failed || (!ok && MayFail(pc)), found || (pc'.GenHold? && !loaded'))
  {
  }

  /** What the next action adds to a stream's history. */
  lemma {:induction false} HistoryOwn(actions: seq<Action>, t: nat, n: nat)
    requires IsRun(actions) && n < |actions| && HistoryFits(actions, t, n) && !ModelSlotsProgress.NotBy(actions[n], t)
    ensures HistoryFits(actions, t, n + 1)
  {
    var s, s', a := StateAt(actions, n), StateAt(actions, n + 1), actions[n];
    NextState(actions, n);
    HistoryGrows(actions, t, n);
    hide StateAt, Inv, IsRun, Step, Generated, FailedToLoad, FoundUnloaded;
    var task := s.tasks[t];
    OwnStep(s, t, a.ok, a.pick);
    EdgeFits(task.pc, a.ok, Is(s.slots, task.key, Loaded), s'.tasks[t].pc, Is(s'.slots, task.key, Loaded),
             Generated(actions, t, n), FailedToLoad(actions, t, n), FoundUnloaded(actions, t, n));
    hide Fits, StreamEdge;
  }

  /** Waiting or being woken keeps the history fitting. */
  lemma {:induction false} WaitingFits(pc: Pc, loaded: bool, pc': Pc, loaded': bool, generated: bool, failed: bool, found: bool)
    requires Fits(pc, loaded, generated, failed, found) && StaysOrWakes(pc, pc') && (pc.GenHold? ==> loaded' == loaded)
    ensures Fits(pc', loaded', generated || pc'.Generating?, failed, found || (pc'.GenHold? && !loaded'))
  {
  }

  lemma {:induction false} HistoryOther(actions: seq<Action>, t: nat, n: nat)
    requires IsRun(actions) && n < |actions| && HistoryFits(actions, t, n) && ModelSlotsProgress.NotBy(actions[n], t)
    ensures HistoryFits(actions, t, n + 1)
  {
    var s, s', a := StateAt(actions, n), StateAt(actions, n + 1), actions[n];
    var task := s.tasks[t];
    NextState(actions, n);
    HistoryGrows(actions, t, n);
    OtherStep(s, a, t);
    if task.pc.GenHold? {
      HeldSlotStays(s, a, t);
    }
    hide StateAt, Inv, IsRun, Step, Next, Generated, FailedToLoad, FoundUnloaded, Is;
    WaitingFits(task.pc, Is(s.slots, task.key, Loaded), s'.tasks[t].pc, Is(s'.slots, task.key, Loaded),
                Generated(actions, t, n), FailedToLoad(actions, t, n), FoundUnloaded(actions, t, n));
    hide Fits, StaysOrWakes;
  }

  /** One more action of a run, seen from a stream. */
  lemma {:induction false} HistoryStep(actions: seq<Action>, t: nat, n: nat)
    requires IsRun(actions) && n < |actions| && HistoryFits(actions, t, n)
    ensures HistoryFits(actions, t, n + 1)
  {
    hide *;
    if ModelSlotsProgress.NotBy(actions[n], t) {
      HistoryOther(actions, t, n);
    } else {
      HistoryOwn(actions, t, n);
    }
  }

  lemma {:induction false} HistoryAlwaysFits(actions: seq<Action>, t: nat, b: nat, n: nat)
    requires IsRun(actions) && SpawnedAt(actions, t, b) && b < n <= |actions|
    ensures HistoryFits(actions, t, n)
    decreases n
  {
    hide StateAt, HistoryFits, IsRun;
    if n == b + 1 {
      NoHistoryYet(actions, t, b);
    } else {
      HistoryAlwaysFits(actions, t, b, n - 1);
      HistoryStep(actions, t, n - 1);
    }
  }

  /** Over every run: a stream that is done has generated, exactly unless its send or its load failed or
      it found its slot unloaded when it came to generate; and until it is done it can only have
      generated by generating now. */
  lemma {:induction false} DoneIffServed(actions: seq<Action>, t: nat, b: nat)
    requires IsRun(actions) && SpawnedAt(actions, t, b)
    ensures var n := |actions|;
            && (Stands(actions, n, t, Done) ==>
                  (Generated(actions, t, n) <==> !FailedToLoad(actions, t, n) && !FoundUnloaded(actions, t, n)))
            && (!Stands(actions, n, t, Done) && Generated(actions, t, n) ==> Stands(actions, n, t, Generating))
  {
    HistoryAlwaysFits(actions, t, b, |actions|);
    hide StateAt, IsRun, Generated, FailedToLoad, FoundUnloaded;
  }

  // ---------- who loads and who empties a slot ----------

  /** Slots hold the same as before, as far as loading goes. */
  ghost predicate SameLoaded(s: State, s': State) {
    forall k :: Is(s'.slots, k, Loaded) <==> Is(s.slots, k, Loaded)
  }

  /** What a step may change: the loader of a slot loads it, and an eviction, or the loader of another
      slot, empties it. */
  ghost predicate ChangesSlots(s: State, s': State, task: Task) {
    match task.pc
    case LoadedHold => forall k :: Is(s'.slots, k, Loaded) <==> Is(s.slots, k, Loaded) || k == task.key
    case UnloadHold(other, _) => forall k :: Is(s'.slots, k, Loaded) <==> Is(s.slots, k, Loaded) && k != other
    case EvictHold(other, _) => forall k :: Is(s'.slots, k, Loaded) <==> Is(s.slots, k, Loaded) && k != other
    case _ => SameLoaded(s, s')
  }

  lemma {:induction false} LoadingIsNotLoaded(s: State, t: nat)
    requires Inv(s) && t < |s.tasks|
    ensures IsLoader(s.tasks[t].pc) ==> Is(s.slots, s.tasks[t].key, Loading)
    ensures s.tasks[t].pc.UnloadHold? || s.tasks[t].pc.EvictHold? ==> s.tasks[t].pc.other in s.slots
    ensures s.tasks[t].pc.UnloadHold? ==> s.tasks[t].pc.other != s.tasks[t].key
  {
    TaskAt(s, t);
  }

  lemma {:induction false} ApproachChangesNothing(s: State, t: nat)
    requires t < |s.tasks|
    ensures BeforeCold(s.tasks[t].pc) && EnterStep(s, t).Some? ==> SameLoaded(s, EnterStep(s, t).value)
    ensures AtCold(s.tasks[t].pc) && ColdStep(s, t).Some? ==> SameLoaded(s, ColdStep(s, t).value)
  {
  }

  lemma {:induction false} ClearingChanges(s: State, t: nat, ok: bool, pick: Key)
    requires t < |s.tasks| && Clearing(s.tasks[t].pc) && UnloadStep(s, t, ok, pick).Some?
    requires Is(s.slots, s.tasks[t].key, Loading)
    ensures ChangesSlots(s, UnloadStep(s, t, ok, pick).value, s.tasks[t])
  {
  }

  lemma {:induction false} SettlingChanges(s: State, t: nat, ok: bool)
    requires t < |s.tasks| && Settling(s.tasks[t].pc) && SettleStep(s, t, ok).Some?
    requires Is(s.slots, s.tasks[t].key, Loading)
    ensures ChangesSlots(s, SettleStep(s, t, ok).value, s.tasks[t])
  {
  }

  lemma {:induction false} LeavingChangesNothing(s: State, t: nat)
    requires t < |s.tasks|
    ensures AfterLoading(s.tasks[t].pc) && LeaveStep(s, t).Some? ==> SameLoaded(s, LeaveStep(s, t).value)
    ensures InGeneration(s.tasks[t].pc) && GenerateStep(s, t).Some? ==> SameLoaded(s, GenerateStep(s, t).value)
  {
  }

  lemma {:induction false} EvictingChanges(s: State, t: nat, pick: Key)
    requires t < |s.tasks| && IsEviction(s.tasks[t].pc) && EvictStep(s, t, pick).Some?
    ensures ChangesSlots(s, EvictStep(s, t, pick).value, s.tasks[t])
  {
  }

  lemma {:induction false} StepChangesSlots(s: State, t: nat, ok: bool, pick: Key)
    requires Inv(s) && t < |s.tasks| && Step(s, t, ok, pick).Some?
    ensures ChangesSlots(s, Step(s, t, ok, pick).value, s.tasks[t])
  {
    LoadingIsNotLoaded(s, t);
    hide Inv, EnterStep, ColdStep, UnloadStep, SettleStep, LeaveStep, GenerateStep, EvictStep, SameLoaded;
    var pc := s.tasks[t].pc;
    if BeforeCold(pc) || AtCold(pc) { ApproachChangesNothing(s, t); }
    else if Clearing(pc) { hide ChangesSlots; ClearingChanges(s, t, ok, pick); }
    else if Settling(pc) { hide ChangesSlots; SettlingChanges(s, t, ok); }
    else if IsEviction(pc) { hide ChangesSlots; EvictingChanges(s, t, pick); }
    else { LeavingChangesNothing(s, t); }
  }

  lemma {:induction false} SpawningKeepsSlots(s: State, a: Action)
    requires !a.Act?
    ensures Next(s, a).Some? && SameLoaded(s, Next(s, a).value)
  {
  }

  /** Action `i` empties slot `k`. */
  predicate Empties(actions: seq<Action>, i: nat, k: Key) {
    i < |actions| && SlotIs(actions, i, k, Loaded) && !SlotIs(actions, i + 1, k, Loaded)
  }

  predicate Loads(actions: seq<Action>, i: nat, k: Key) {
    i < |actions| && !SlotIs(actions, i, k, Loaded) && SlotIs(actions, i + 1, k, Loaded)
  }

  ghost predicate LoadSucceeded(actions: seq<Action>, t: nat, n: nat)
    requires n <= |actions|
  {
    exists i: nat :: i < n && StepOf(actions, i, t, true) && Stands(actions, i, t, LoadModel)
  }

  predicate HasLoaded(pc: Pc) {
    pc.LoadedWant? || pc.LoadedHold?
  }

  lemma {:induction false} LoadedOwnEdge(s: State, t: nat, ok: bool, pick: Key)
    requires t < |s.tasks| && Step(s, t, ok, pick).Some?
    ensures var tasks := Step(s, t, ok, pick).value.tasks;
            t < |tasks| && (HasLoaded(tasks[t].pc) ==> HasLoaded(s.tasks[t].pc) || (ok && s.tasks[t].pc.LoadModel?))
  {
    var pc := s.tasks[t].pc;
    if IsEviction(pc) {
    } else if Settling(pc) {
    } else if !MayFail(pc) && !Clearing(pc) {
      OwnStep(s, t, ok, pick);
      NeverStores(s, t, ok, pick);
    } else {
    }
  }

  lemma {:induction false} NeverStores(s: State, t: nat, ok: bool, pick: Key)
    requires t < |s.tasks| && Step(s, t, ok, pick).Some? && !IsEviction(s.tasks[t].pc)
    requires !Settling(s.tasks[t].pc) && !Clearing(s.tasks[t].pc) && t < |Step(s, t, ok, pick).value.tasks|
    ensures !HasLoaded(Step(s, t, ok, pick).value.tasks[t].pc)
  {
  }

  lemma {:induction false} LoadedEdge(s: State, a: Action, t: nat)
    requires Next(s, a).Some? && t < |Next(s, a).value.tasks| && HasLoaded(Next(s, a).value.tasks[t].pc)
    ensures t < |s.tasks|
    ensures HasLoaded(s.tasks[t].pc) || (a.Act? && a.task == t && a.ok && s.tasks[t].pc.LoadModel?)
  {
    hide Step;
    if t >= |s.tasks| {
      TasksStay(s, a);
    } else if ModelSlotsProgress.NotBy(a, t) {
      OtherStep(s, a, t);
    } else {
      LoadedOwnEdge(s, t, a.ok, a.pick);
    }
  }

  /** A task that is about to store a model has loaded it. */
  lemma {:induction false} StoredWasLoaded(actions: seq<Action>, t: nat, n: nat)
    requires IsRun(actions) && n <= |actions|
    requires t < |StateAt(actions, n).tasks| && HasLoaded(StateAt(actions, n).tasks[t].pc)
    ensures LoadSucceeded(actions, t, n)
    decreases n
  {
    if n == 0 {
      StartState(actions);
    } else {
      NextState(actions, n - 1);
      hide StateAt, IsRun, Inv, Next;
      var s, a := StateAt(actions, n - 1), actions[n - 1];
      LoadedEdge(s, a, t);
      if HasLoaded(s.tasks[t].pc) {
        StoredWasLoaded(actions, t, n - 1);
      } else {
        assert StepOf(actions, n - 1, t, true) && Stands(actions, n - 1, t, LoadModel);
      }
    }
  }

  /** A slot becomes loaded only by a task of that slot whose load has succeeded. */
  lemma {:induction false} OnlyLoadersLoad(actions: seq<Action>, i: nat, k: Key)
    requires IsRun(actions) && Loads(actions, i, k)
    ensures actions[i].Act? && actions[i].task < |StateAt(actions, i).tasks|
    ensures StateAt(actions, i).tasks[actions[i].task].key == k && LoadSucceeded(actions, actions[i].task, i)
  {
    var s, a := StateAt(actions, i), actions[i];
    NextState(actions, i);
    if a.Act? {
      hide StateAt, IsRun, Inv, Step;
      StepChangesSlots(s, a.task, a.ok, a.pick);
      assert s.tasks[a.task].pc.LoadedHold?;
      StoredWasLoaded(actions, a.task, i);
    } else {
      SpawningKeepsSlots(s, a);
    }
  }

  predicate OnlyItsModel(task: Task) {
    IsEviction(task.pc) ==> forall k <- task.pc.todo :: k.model == task.key.model
  }

  lemma {:induction false} EvictionEdge(s: State, a: Action, t: nat)
    requires Next(s, a).Some? && t < |s.tasks| && t < |Next(s, a).value.tasks| && OnlyItsModel(s.tasks[t])
    ensures OnlyItsModel(Next(s, a).value.tasks[t])
  {
    if ModelSlotsProgress.NotBy(a, t) {
      OtherStep(s, a, t);
      hide Next;
    } else {
      hide Step;
      if IsEviction(s.tasks[t].pc) {
        EvictionMoves(s, t, a.ok, a.pick);
      } else {
        OwnStep(s, t, a.ok, a.pick);
      }
    }
  }

  lemma {:induction false} NewEviction(s: State, a: Action, t: nat)
    requires Next(s, a).Some? && |s.tasks| <= t < |Next(s, a).value.tasks|
    ensures OnlyItsModel(Next(s, a).value.tasks[t])
  {
    TasksStay(s, a);
  }

  /** An eviction's own step: it goes on to one of its slots, or is over with it. */
  lemma {:induction false} EvictionMoves(s: State, t: nat, ok: bool, pick: Key)
    requires t < |s.tasks| && IsEviction(s.tasks[t].pc) && Step(s, t, ok, pick).Some?
    ensures var s', pc := Step(s, t, ok, pick).value, s.tasks[t].pc;
            && t < |s'.tasks| && s'.tasks[t].key == s.tasks[t].key
            && if s'.tasks[t].pc.Done? then pc.todo == {}
               else IsEviction(s'.tasks[t].pc) && s'.tasks[t].pc.todo == if pc.EvictHold? then pc.todo - {pc.other} else pc.todo
  {
  }

  lemma {:induction false} EvictionsKeepToTheirModel(actions: seq<Action>, n: nat, t: nat)
    requires IsRun(actions) && n <= |actions| && t < |StateAt(actions, n).tasks|
    ensures OnlyItsModel(StateAt(actions, n).tasks[t])
    decreases n
  {
    if n == 0 {
      StartState(actions);
    } else {
      NextState(actions, n - 1);
      hide StateAt, IsRun, Inv, Next, OnlyItsModel;
      if t < |StateAt(actions, n - 1).tasks| {
        EvictionsKeepToTheirModel(actions, n - 1, t);
        EvictionEdge(StateAt(actions, n - 1), actions[n - 1], t);
      } else {
        NewEviction(StateAt(actions, n - 1), actions[n - 1], t);
      }
    }
  }

  /** A loaded slot is emptied only by an eviction of its model, or by the loader of another slot. */
  lemma {:induction false} OnlyEvictionsAndLoadersEmpty(actions: seq<Action>, i: nat, k: Key)
    requires IsRun(actions) && Empties(actions, i, k)
    ensures actions[i].Act? && actions[i].task < |StateAt(actions, i).tasks|
    ensures var task := StateAt(actions, i).tasks[actions[i].task];
            if IsEviction(task.pc) then task.key.model == k.model else IsLoader(task.pc) && task.key != k
  {
    var s, a := StateAt(actions, i), actions[i];
    NextState(actions, i);
    if a.Act? {
      EvictionsKeepToTheirModel(actions, i, a.task);
      hide StateAt, IsRun, Step;
      StepChangesSlots(s, a.task, a.ok, a.pick);
      LoadingIsNotLoaded(s, a.task);
      TaskAt(s, a.task);
      hide Inv;
    } else {
      SpawningKeepsSlots(s, a);
    }
  }

  // ---------- an eviction that is over has been everywhere ----------

  /** Action `b` started the eviction `t` of `model`. */
  predicate EvictedAt(actions: seq<Action>, t: nat, b: nat, model: nat) {
    b < |actions| && actions[b] == Evict(model) && |StateAt(actions, b).tasks| == t
  }

  /** Slot `k` was seen not loaded since action `b`. */
  ghost predicate WasFree(actions: seq<Action>, k: Key, b: nat, n: nat)
    requires n <= |actions|
  {
    exists i: nat :: b < i <= n && !SlotIs(actions, i, k, Loaded)
  }

  ghost predicate StillToVisit(actions: seq<Action>, t: nat, k: Key, n: nat)
    requires n <= |actions|
  {
    var s := StateAt(actions, n);
    t < |s.tasks| && IsEviction(s.tasks[t].pc) && k in s.tasks[t].pc.todo
  }

  lemma {:induction false} EvictionGoesOn(actions: seq<Action>, t: nat, k: Key, b: nat, n: nat)
    requires IsRun(actions) && b < n < |actions| && StillToVisit(actions, t, k, n)
    ensures StillToVisit(actions, t, k, n + 1) || (t < |StateAt(actions, n + 1).tasks| && WasFree(actions, k, b, n + 1))
  {
    NextState(actions, n);
    hide StateAt, IsRun, Step;
    var s, a := StateAt(actions, n), actions[n];
    if ModelSlotsProgress.NotBy(a, t) {
      hide Inv, Next;
      OtherStep(s, a, t);
    } else {
      EvictionMoves(s, t, a.ok, a.pick);
      StepChangesSlots(s, t, a.ok, a.pick);
      hide Inv;
      assert !StillToVisit(actions, t, k, n + 1) ==> !SlotIs(actions, n + 1, k, Loaded);
    }
  }

  lemma {:induction false} EvictionVisits(actions: seq<Action>, t: nat, b: nat, model: nat, k: Key, n: nat)
    requires IsRun(actions) && EvictedAt(actions, t, b, model) && b < n <= |actions|
    requires k in StateAt(actions, b).slots && k.model == model
    ensures StillToVisit(actions, t, k, n) || (t < |StateAt(actions, n).tasks| && WasFree(actions, k, b, n))
    decreases n
  {
    hide StateAt, IsRun, Inv, StillToVisit;
    NextState(actions, n - 1);
    if n > b + 1 {
      EvictionVisits(actions, t, b, model, k, n - 1);
      if StillToVisit(actions, t, k, n - 1) {
        EvictionGoesOn(actions, t, k, b, n - 1);
      } else {
        hide Next;
        TasksStay(StateAt(actions, n - 1), actions[n - 1]);
      }
    } else {
      EvictionStarts(actions, t, b, model, k);
    }
  }

  lemma {:induction false} EvictionStarts(actions: seq<Action>, t: nat, b: nat, model: nat, k: Key)
    requires IsRun(actions) && EvictedAt(actions, t, b, model)
    requires k in StateAt(actions, b).slots && k.model == model
    ensures StillToVisit(actions, t, k, b + 1)
  {
    NextState(actions, b);
    hide StateAt, IsRun, Inv;
  }

  /** When an eviction is over, every slot of its model that was there when it started has been empty
      or loading since. */
  lemma {:induction false} EvictionEmptiesItsModel(actions: seq<Action>, t: nat, b: nat, model: nat, k: Key)
    requires IsRun(actions) && EvictedAt(actions, t, b, model) && Stands(actions, |actions|, t, Done)
    requires k in StateAt(actions, b).slots && k.model == model
    ensures WasFree(actions, k, b, |actions|)
  {
    EvictionVisits(actions, t, b, model, k, |actions|);
  }

  // ---------- a stream that nobody disturbs ----------

  predicate SawLoaded(pc: Pc) {
    pc.InnerLoaded? || pc.LoadedNotified? || pc.LoadedBreak? || pc.GenWant? || pc.GenHold? || pc.Generating?
  }

  /** With action `i` another task empties the slot of `t`, which has seen it loaded. */
  predicate TakenAway(actions: seq<Action>, i: nat, t: nat) {
    && i < |actions| && actions[i].Act? && actions[i].task != t
    && var s := StateAt(actions, i);
       t < |s.tasks| && (SawLoaded(s.tasks[t].pc) || s.tasks[t].pc.Done?) && Empties(actions, i, s.tasks[t].key)
  }

  ghost predicate Disturbed(actions: seq<Action>, t: nat, n: nat) {
    exists i: nat :: i < n && TakenAway(actions, i, t)
  }

  lemma {:induction false} ApproachSees(s: State, t: nat)
    requires t < |s.tasks| && (SawLoaded(s.tasks[t].pc) ==> Is(s.slots, s.tasks[t].key, Loaded))
    ensures BeforeCold(s.tasks[t].pc) && EnterStep(s, t).Some? && SawLoaded(EnterStep(s, t).value.tasks[t].pc) ==>
            Is(EnterStep(s, t).value.slots, s.tasks[t].key, Loaded)
    ensures AtCold(s.tasks[t].pc) && ColdStep(s, t).Some? && SawLoaded(ColdStep(s, t).value.tasks[t].pc) ==>
            Is(ColdStep(s, t).value.slots, s.tasks[t].key, Loaded)
  {
  }

  lemma {:induction false} LoaderSees(s: State, t: nat, ok: bool, pick: Key)
    requires t < |s.tasks| && (Clearing(s.tasks[t].pc) || Settling(s.tasks[t].pc)) && Step(s, t, ok, pick).Some?
    ensures var s' := Step(s, t, ok, pick).value;
            t < |s'.tasks| && (SawLoaded(s'.tasks[t].pc) ==> Is(s'.slots, s.tasks[t].key, Loaded))
  {
  }

  lemma {:induction false} SeesLoaded(s: State, t: nat, ok: bool, pick: Key)
    requires t < |s.tasks| && !IsEviction(s.tasks[t].pc) && Step(s, t, ok, pick).Some?
    requires SawLoaded(s.tasks[t].pc) ==> Is(s.slots, s.tasks[t].key, Loaded)
    ensures var s' := Step(s, t, ok, pick).value;
            t < |s'.tasks| && (SawLoaded(s'.tasks[t].pc) || s.tasks[t].pc.Generating? ==> Is(s'.slots, s.tasks[t].key, Loaded))
  {
    var pc := s.tasks[t].pc;
    OwnStep(s, t, ok, pick);
    if BeforeCold(pc) || AtCold(pc) {
      ApproachSees(s, t);
      hide EnterStep, ColdStep;
    } else if Clearing(pc) || Settling(pc) {
      hide Step;
      LoaderSees(s, t, ok, pick);
    } else {
      LeavingChangesNothing(s, t);
    }
  }

  /** A stream that has seen its slot loaded, or has generated and is done, has it loaded unless it was disturbed. */
  ghost predicate KeepsModel(actions: seq<Action>, t: nat, n: nat)
    requires n <= |actions|
  {
    var s := StateAt(actions, n);
    && t < |s.tasks| && !IsEviction(s.tasks[t].pc)
    && (SawLoaded(s.tasks[t].pc) || (s.tasks[t].pc.Done? && Generated(actions, t, n)) ==>
          Is(s.slots, s.tasks[t].key, Loaded) || Disturbed(actions, t, n))
  }

  lemma {:induction false} DisturbedGrows(actions: seq<Action>, t: nat, n: nat)
    requires n < |actions|
    ensures Disturbed(actions, t, n + 1) <==> Disturbed(actions, t, n) || TakenAway(actions, n, t)
  {
    hide TakenAway;
  }

  lemma {:induction false} WaitingKeeps(pc: Pc, pc': Pc)
    requires StaysOrWakes(pc, pc')
    ensures (SawLoaded(pc') <==> SawLoaded(pc)) && (pc'.Done? <==> pc.Done?) && (IsEviction(pc') <==> IsEviction(pc))
    ensures pc'.Generating? ==> pc.Generating?
  {
  }

  /** What other tasks and new ones do to the slot of `t`. */
  lemma {:induction false} SlotKeptOrTaken(actions: seq<Action>, t: nat, n: nat)
    requires IsRun(actions) && n < |actions| && ModelSlotsProgress.NotBy(actions[n], t)
    requires t < |StateAt(actions, n).tasks|
    requires var pc := StateAt(actions, n).tasks[t].pc; SawLoaded(pc) || pc.Done?
    requires SlotIs(actions, n, StateAt(actions, n).tasks[t].key, Loaded)
    ensures SlotIs(actions, n + 1, StateAt(actions, n).tasks[t].key, Loaded) || TakenAway(actions, n, t)
  {
    NextState(actions, n);
    hide StateAt, IsRun, Inv, Step;
    if !actions[n].Act? {
      SpawningKeepsSlots(StateAt(actions, n), actions[n]);
    }
  }

  lemma {:induction false} KeepsModelOther(actions: seq<Action>, t: nat, n: nat)
    requires IsRun(actions) && n < |actions| && KeepsModel(actions, t, n)
    requires ModelSlotsProgress.NotBy(actions[n], t)
    ensures KeepsModel(actions, t, n + 1)
  {
    var s, s', a := StateAt(actions, n), StateAt(actions, n + 1), actions[n];
    NextState(actions, n);
    OtherStep(s, a, t);
    hide StateAt, IsRun, Inv, Next;
    WaitingKeeps(s.tasks[t].pc, s'.tasks[t].pc);
    DisturbedGrows(actions, t, n);
    HistoryGrows(actions, t, n);
    if s.tasks[t].pc.Done? {
      DoneStaysServed(actions, t, n);
    }
    hide Disturbed, Generated, SawLoaded, StaysOrWakes, TakenAway;
    if (SawLoaded(s.tasks[t].pc) || s.tasks[t].pc.Done?) && Is(s.slots, s.tasks[t].key, Loaded) {
      SlotKeptOrTaken(actions, t, n);
    }
  }

  /** A stream that is done does not generate any more. */
  lemma {:induction false} DoneStaysServed(actions: seq<Action>, t: nat, n: nat)
    requires IsRun(actions) && n < |actions| && ModelSlotsProgress.NotBy(actions[n], t)
    requires t < |StateAt(actions, n).tasks| && StateAt(actions, n).tasks[t].pc.Done?
    ensures Generated(actions, t, n + 1) <==> Generated(actions, t, n)
  {
    NextState(actions, n);
    OtherStep(StateAt(actions, n), actions[n], t);
    hide StateAt, IsRun, Inv, Next;
    HistoryGrows(actions, t, n);
  }

  lemma {:induction false} EdgeKeeps(pc: Pc, ok: bool, loaded: bool, pc': Pc, loaded': bool, generated: bool, failed: bool, found: bool)
    requires Fits(pc, loaded, generated, failed, found) && StreamEdge(pc, ok, loaded, pc')
    requires SawLoaded(pc) || (pc.Done? && generated) ==> loaded
    requires SawLoaded(pc') || pc.Generating? ==> loaded'
    ensures SawLoaded(pc') || (pc'.Done? && (generated || pc'.Generating?)) ==> loaded'
  {
  }

  lemma {:induction false} KeepsModelOwn(actions: seq<Action>, t: nat, n: nat)
    requires IsRun(actions) && n < |actions| && KeepsModel(actions, t, n) && HistoryFits(actions, t, n)
    requires !ModelSlotsProgress.NotBy(actions[n], t)
    ensures KeepsModel(actions, t, n + 1)
  {
    var s, s', a := StateAt(actions, n), StateAt(actions, n + 1), actions[n];
    NextState(actions, n);
    DisturbedGrows(actions, t, n);
    HistoryGrows(actions, t, n);
    hide StateAt, IsRun, Inv, Disturbed, Generated, FailedToLoad, FoundUnloaded, Step;
    OwnStep(s, t, a.ok, a.pick);
    var task := s.tasks[t];
    if !Disturbed(actions, t, n) {
      SeesLoaded(s, t, a.ok, a.pick);
      EdgeKeeps(task.pc, a.ok, Is(s.slots, task.key, Loaded), s'.tasks[t].pc, Is(s'.slots, task.key, Loaded),
                Generated(actions, t, n), FailedToLoad(actions, t, n), FoundUnloaded(actions, t, n));
    }
    hide SawLoaded, StreamEdge, Fits;
    EdgeStays(task.pc, a.ok, Is(s.slots, task.key, Loaded), s'.tasks[t].pc);
  }

  lemma {:induction false} EdgeStays(pc: Pc, ok: bool, loaded: bool, pc': Pc)
    requires StreamEdge(pc, ok, loaded, pc')
    ensures !IsEviction(pc')
  {
  }

  lemma {:induction false} ModelIsKept(actions: seq<Action>, t: nat, b: nat, n: nat)
    requires IsRun(actions) && SpawnedAt(actions, t, b) && b < n <= |actions|
    ensures KeepsModel(actions, t, n)
    decreases n
  {
    hide StateAt, IsRun, Generated, Disturbed, KeepsModel, HistoryFits;
    if n == b + 1 {
      NewStreamKeepsModel(actions, t, b);
    } else {
      ModelIsKept(actions, t, b, n - 1);
      HistoryAlwaysFits(actions, t, b, n - 1);
      if ModelSlotsProgress.NotBy(actions[n - 1], t) {
        KeepsModelOther(actions, t, n - 1);
      } else {
        KeepsModelOwn(actions, t, n - 1);
      }
    }
  }

  lemma {:induction false} NewStreamKeepsModel(actions: seq<Action>, t: nat, b: nat)
    requires IsRun(actions) && SpawnedAt(actions, t, b)
    ensures KeepsModel(actions, t, b + 1)
  {
    NextState(actions, b);
    hide StateAt, IsRun, Inv, Generated, Disturbed;
  }

  /** A stream whose send and load succeed, and whose slot no eviction or other loader empties after it
      has seen it loaded, generates before it is done, and leaves its slot loaded. */
  lemma {:induction false} UndisturbedStreamGenerates(actions: seq<Action>, t: nat, b: nat)
    requires IsRun(actions) && SpawnedAt(actions, t, b) && Stands(actions, |actions|, t, Done)
    requires !FailedToLoad(actions, t, |actions|) && !Disturbed(actions, t, |actions|)
    ensures Generated(actions, t, |actions|)
    ensures SlotIs(actions, |actions|, StateAt(actions, |actions|).tasks[t].key, Loaded)
  {
    DoneIffServed(actions, t, b);
    ModelIsKept(actions, t, b, |actions|);
    if FoundUnloaded(actions, t, |actions|) {
      var i: nat :| i <= |actions| && FindsUnloaded(actions, i, t);
      if i <= b {
        TasksOnlyGrow(actions, i, b);
        assert false;
      }
      ModelIsKept(actions, t, b, i);
    }
  }

  /** The stream of one request with nothing else going on, whose send and load succeed, generates
      before it is done and leaves its slot loaded. */
  lemma {:induction false} LoneStreamGenerates(actions: seq<Action>, key: Key)
    requires IsRun(actions) && actions != [] && actions[0] == Spawn(key) && Stands(actions, |actions|, 0, Done)
    requires forall i :: 0 < i < |actions| ==> actions[i].Act? && actions[i].ok
    ensures Generated(actions, 0, |actions|) && SlotIs(actions, |actions|, key, Loaded)
  {
    StartState(actions);
    assert SpawnedAt(actions, 0, 0);
    forall i: nat | i < |actions| ensures !TakenAway(actions, i, 0) {
      OnlyOneTask(actions, key, i);
      NextState(actions, i);
    }
    OnlyOneTask(actions, key, |actions|);
    hide StateAt, IsRun, TakenAway;
    UndisturbedStreamGenerates(actions, 0, 0);
  }

  lemma {:induction false} OnlyOneTask(actions: seq<Action>, key: Key, n: nat)
    requires IsRun(actions) && n <= |actions| && actions != [] && actions[0] == Spawn(key)
    requires forall i :: 0 < i < |actions| ==> actions[i].Act?
    ensures |StateAt(actions, n).tasks| == if n == 0 then 0 else 1
    ensures n > 0 ==> StateAt(actions, n).tasks[0].key == key
    decreases n
  {
    StartState(actions);
    if n > 0 {
      NextState(actions, n - 1);
      hide StateAt, IsRun, Inv;
      OnlyOneTask(actions, key, n - 1);
      if n > 1 {
        hide Step;
        var s, a := StateAt(actions, n - 1), actions[n - 1];
        TasksStay(s, a);
        if ModelSlotsProgress.NotBy(a, 0) { OtherStep(s, a, 0); } else { KeyStays(s, 0, a.ok, a.pick); }
      }
    }
  }

  lemma {:induction false} KeyStays(s: State, t: nat, ok: bool, pick: Key)
    requires t < |s.tasks| && Step(s, t, ok, pick).Some?
    ensures var s' := Step(s, t, ok, pick).value; t < |s'.tasks| && s'.tasks[t].key == s.tasks[t].key
  {
    hide Step;
    if IsEviction(s.tasks[t].pc) { EvictionMoves(s, t, ok, pick); } else { OwnStep(s, t, ok, pick); }
  }

  /** Where a step can be taken, its send or load may succeed and may fail. */
  lemma {:induction false} EitherOutcomeIsPossible(s: State, t: nat, pick: Key)
    requires t < |s.tasks|
    ensures Step(s, t, true, pick).Some? <==> Step(s, t, false, pick).Some?
  {
  }

  // ---------- why a stream waits, and why it loads ----------

  datatype Look = Look(at: Pc, state: SlotState)

  /** What a stream has to have seen: it waits for the cold lock after finding its slot empty, for a
      notification after finding it loading, and it loads after finding it empty under the cold lock. */
  function Reason(pc: Pc): Option<Look> {
    if pc.WantCold? || pc.WantInner? || pc.Inner? then Some(Look(Checking, Empty))
    else if pc.Parked? then Some(Look(Checking, Loading))
    else if IsLoader(pc) then Some(Look(Inner, Empty))
    else None
  }

  predicate Saw(actions: seq<Action>, i: nat, t: nat, look: Look)
    requires i <= |actions|
  {
    var s := StateAt(actions, i);
    Stands(actions, i, t, look.at) && Is(s.slots, s.tasks[t].key, look.state)
  }

  ghost predicate HasReason(actions: seq<Action>, t: nat, n: nat)
    requires n <= |actions|
  {
    var s := StateAt(actions, n);
    t < |s.tasks| && Reason(s.tasks[t].pc).Some? ==> exists i: nat :: i < n && Saw(actions, i, t, Reason(s.tasks[t].pc).value)
  }

  /** A step keeps the reason for where the task stands, or is it. */
  predicate KeepsReason(s: State, s': State, t: nat) {
    && t < |s.tasks| && t < |s'.tasks|
    && (Reason(s'.tasks[t].pc).Some? ==>
          || Reason(s.tasks[t].pc) == Reason(s'.tasks[t].pc)
          || Reason(s'.tasks[t].pc) == Some(Look(s.tasks[t].pc, Lookup(s, s.tasks[t].key))))
  }

  lemma {:induction false} ApproachKeepsReason(s: State, t: nat)
    requires t < |s.tasks| && !s.tasks[t].pc.InnerParked? && (AtCold(s.tasks[t].pc) ==> Lookup(s, s.tasks[t].key) != Loading || !s.tasks[t].pc.Inner?)
    ensures BeforeCold(s.tasks[t].pc) && EnterStep(s, t).Some? ==> KeepsReason(s, EnterStep(s, t).value, t)
    ensures AtCold(s.tasks[t].pc) && ColdStep(s, t).Some? ==> KeepsReason(s, ColdStep(s, t).value, t)
  {
  }

  lemma {:induction false} ClearingKeepsReason(s: State, t: nat, ok: bool, pick: Key)
    requires t < |s.tasks| && Clearing(s.tasks[t].pc) && UnloadStep(s, t, ok, pick).Some?
    ensures KeepsReason(s, UnloadStep(s, t, ok, pick).value, t)
  {
  }

  lemma {:induction false} SettlingKeepsReason(s: State, t: nat, ok: bool)
    requires t < |s.tasks| && Settling(s.tasks[t].pc) && SettleStep(s, t, ok).Some?
    ensures KeepsReason(s, SettleStep(s, t, ok).value, t)
  {
  }

  lemma {:induction false} LaterKeepsReason(s: State, t: nat)
    requires t < |s.tasks|
    ensures AfterLoading(s.tasks[t].pc) && LeaveStep(s, t).Some? ==> KeepsReason(s, LeaveStep(s, t).value, t)
    ensures InGeneration(s.tasks[t].pc) && GenerateStep(s, t).Some? ==> KeepsReason(s, GenerateStep(s, t).value, t)
  {
  }

  lemma {:induction false} EvictionKeepsReason(s: State, t: nat, ok: bool, pick: Key)
    requires t < |s.tasks| && IsEviction(s.tasks[t].pc) && Step(s, t, ok, pick).Some?
    ensures KeepsReason(s, Step(s, t, ok, pick).value, t)
  {
    EvictionMoves(s, t, ok, pick);
    hide Step;
  }

  lemma {:induction false} StepKeepsReason(s: State, t: nat, ok: bool, pick: Key)
    requires Inv(s) && t < |s.tasks| && Step(s, t, ok, pick).Some?
    ensures KeepsReason(s, Step(s, t, ok, pick).value, t)
  {
    TaskAt(s, t);
    var pc := s.tasks[t].pc;
    if pc.Inner? {
      InnerIsNotLoading(s, t);
    }
    hide Inv, KeepsReason, EnterStep, ColdStep, UnloadStep, SettleStep, LeaveStep, GenerateStep, EvictStep;
    if BeforeCold(pc) || AtCold(pc) { ApproachKeepsReason(s, t); }
    else if Clearing(pc) { ClearingKeepsReason(s, t, ok, pick); }
    else if Settling(pc) { SettlingKeepsReason(s, t, ok); }
    else if IsEviction(pc) { EvictionKeepsReason(s, t, ok, pick); }
    else { LaterKeepsReason(s, t); }
  }

  lemma {:induction false} OthersKeepReason(s: State, a: Action, t: nat)
    requires t < |s.tasks| && ModelSlotsProgress.NotBy(a, t) && Next(s, a).Some?
    ensures KeepsReason(s, Next(s, a).value, t)
  {
    OtherStep(s, a, t);
    hide Next;
  }

  lemma {:induction false} NewTaskNeedsNoReason(s: State, a: Action, t: nat)
    requires Next(s, a).Some? && |s.tasks| <= t < |Next(s, a).value.tasks|
    ensures Reason(Next(s, a).value.tasks[t].pc).None?
  {
    TasksStay(s, a);
  }

  lemma {:induction false} LookedUpIs(s: State, t: nat)
    requires Inv(s) && t < |s.tasks| && (s.tasks[t].pc.Checking? || s.tasks[t].pc.Inner?)
    ensures Is(s.slots, s.tasks[t].key, Lookup(s, s.tasks[t].key))
  {
    TaskAt(s, t);
  }

  lemma {:induction false} ReasonGoesOn(actions: seq<Action>, t: nat, n: nat)
    requires n < |actions| && HasReason(actions, t, n) && KeepsReason(StateAt(actions, n), StateAt(actions, n + 1), t)
    requires var s := StateAt(actions, n);
      s.tasks[t].pc.Checking? || s.tasks[t].pc.Inner? ==> Is(s.slots, s.tasks[t].key, Lookup(s, s.tasks[t].key))
    ensures HasReason(actions, t, n + 1)
  {
    hide StateAt;
    var s, s' := StateAt(actions, n), StateAt(actions, n + 1);
    var reason := Reason(s'.tasks[t].pc);
    if reason.Some? && reason == Some(Look(s.tasks[t].pc, Lookup(s, s.tasks[t].key))) {
      assert Saw(actions, n, t, reason.value);
    }
  }

  lemma {:induction false} ReasonStep(actions: seq<Action>, t: nat, n: nat)
    requires IsRun(actions) && n < |actions| && HasReason(actions, t, n) && t < |StateAt(actions, n).tasks|
    ensures HasReason(actions, t, n + 1)
  {
    var s, a := StateAt(actions, n), actions[n];
    NextState(actions, n);
    hide HasReason, KeepsReason;
    if ModelSlotsProgress.NotBy(a, t) {
      OthersKeepReason(s, a, t);
    } else {
      hide StateAt, Step;
      StepKeepsReason(s, t, a.ok, a.pick);
    }
    if s.tasks[t].pc.Checking? || s.tasks[t].pc.Inner? {
      LookedUpIs(s, t);
    }
    ReasonGoesOn(actions, t, n);
  }

  /** Over every run a task waits or loads only for a reason it has seen: no stream waits for a load while
      its slot is loaded or nobody loads it, and none loads a slot that another loads or has loaded. */
  lemma {:induction false} EveryWaitHasItsReason(actions: seq<Action>, t: nat, n: nat)
    requires IsRun(actions) && n <= |actions|
    ensures HasReason(actions, t, n)
    decreases n
  {
    if n == 0 {
      StartState(actions);
    } else if t < |StateAt(actions, n - 1).tasks| {
      hide *;
      EveryWaitHasItsReason(actions, t, n - 1);
      ReasonStep(actions, t, n - 1);
    } else {
      NextState(actions, n - 1);
      hide StateAt, IsRun, Inv, Next;
      if t < |StateAt(actions, n).tasks| {
        NewTaskNeedsNoReason(StateAt(actions, n - 1), actions[n - 1], t);
      }
    }
  }
}
