/** The model slot protocol of goose-local-inference (lib.rs) as a transition system: any number of
    stream tasks and evictions contend for per-model slots, one cold-load lock and the slots'
    notifications, in any interleaving. */
module ModelSlots {
  import opened Text

  /** A cache key: backend, model id and chat template, as opaque identifiers. */
  datatype Key = Key(backend: nat, model: nat, template: nat)

  datatype SlotState = Empty | Loading | Loaded

  /** Where a task stands. `Want...` waits for a slot lock, `...Hold` holds one. */
  datatype Pc =
    // a stream task, up to the cold lock
    | WantSlot
    | Checking
    | Parked(notified: bool)
    | WantCold
    // holding the cold lock, before it becomes the loader
    | WantInner
    | Inner
    | InnerLoaded
    | InnerParked(notified: bool)
    // the loader
    | Sending
    | SendFailWant
    | SendFailHold
    | Unloading(todo: set<Key>)
    | UnloadWant(other: Key, todo: set<Key>)
    | UnloadHold(other: Key, todo: set<Key>)
    | LoadModel
    | LoadedWant
    | LoadedHold
    | FailWant
    | FailHold
    // after the slot was set and its waiters were notified
    | LoadedNotified
    | LoadedBreak
    | Reporting
    | Dropping
    | DroppingCold
    // generation
    | GenWant
    | GenHold
    | Generating
    // an eviction
    | Evicting(todo: set<Key>)
    | EvictWant(other: Key, todo: set<Key>)
    | EvictHold(other: Key, todo: set<Key>)
    | Done

  datatype Task = Task(key: Key, pc: Pc)

  /** Slots, who holds each slot's lock, who holds the cold-load lock, and every task ever spawned. */
  datatype State = State(slots: map<Key, SlotState>, locks: map<Key, nat>, cold: Option<nat>, tasks: seq<Task>)

  const INIT := State(map[], map[], None, [])

  datatype Action = Insert(key: Key) | Spawn(key: Key) | Evict(model: nat) | Act(task: nat, ok: bool, pick: Key)

  // ---------- the stations of a task ----------

  predicate BeforeCold(pc: Pc) {
    pc.WantSlot? || pc.Checking? || pc.Parked?
  }

  predicate AtCold(pc: Pc) {
    pc.WantCold? || pc.WantInner? || pc.Inner? || pc.InnerLoaded? || pc.InnerParked?
  }

  predicate Settling(pc: Pc) {
    pc.LoadModel? || pc.LoadedWant? || pc.LoadedHold? || pc.FailWant? || pc.FailHold?
  }

  predicate AfterLoading(pc: Pc) {
    pc.LoadedNotified? || pc.LoadedBreak? || pc.Reporting? || pc.Dropping? || pc.DroppingCold?
  }

  predicate InGeneration(pc: Pc) {
    pc.GenWant? || pc.GenHold? || pc.Generating? || pc.Done?
  }

  predicate IsEviction(pc: Pc) {
    pc.Evicting? || pc.EvictWant? || pc.EvictHold?
  }

  predicate Clearing(pc: Pc) {
    pc.Sending? || pc.SendFailWant? || pc.SendFailHold? || pc.Unloading? || pc.UnloadWant? || pc.UnloadHold?
  }

  // ---------- the steps ----------

  function Goto(s: State, t: nat, pc: Pc): State
    requires t < |s.tasks|
  {
    s.(tasks := s.tasks[t := s.tasks[t].(pc := pc)])
  }

  function Acquire(s: State, t: nat, k: Key, pc: Pc): Option<State>
    requires t < |s.tasks|
  {
    if k in s.locks then None else Some(Goto(s.(locks := s.locks[k := t]), t, pc))
  }

  function Release(s: State, t: nat, k: Key, pc: Pc): State
    requires t < |s.tasks|
  {
    Goto(s.(locks := s.locks - {k}), t, pc)
  }

  function ReleaseCold(s: State, t: nat, pc: Pc): State
    requires t < |s.tasks|
  {
    Goto(s.(cold := None), t, pc)
  }

  function WakeTask(task: Task, k: Key): Task {
    if task.key != k then task
    else if task.pc.Parked? then task.(pc := Parked(true))
    else if task.pc.InnerParked? then task.(pc := InnerParked(true))
    else task
  }

  /** `notify_waiters`: every registered waiter of the slot is woken. */
  function Wake(tasks: seq<Task>, k: Key): seq<Task> {
    seq(|tasks|, i requires 0 <= i < |tasks| => WakeTask(tasks[i], k))
  }

  /** Overwrite a slot's state and notify its waiters, both under the slot's lock. */
  function SetAndNotify(s: State, k: Key, state: SlotState): State {
    s.(slots := s.slots[k := state], tasks := Wake(s.tasks, k))
  }

  function Lookup(s: State, k: Key): SlotState {
    if k in s.slots then s.slots[k] else Empty
  }

  /** A stream task on its way to the cold lock. */
  function EnterStep(s: State, t: nat): Option<State>
    requires t < |s.tasks| && BeforeCold(s.tasks[t].pc)
  {
    var Task(key, pc) := s.tasks[t];
    match pc
    case WantSlot => Acquire(s, t, key, Checking)
    case Checking =>
      (match Lookup(s, key)
       case Loaded => Some(Release(s, t, key, GenWant))
       case Loading => Some(Release(s, t, key, Parked(false)))
       case Empty => Some(Release(s, t, key, WantCold)))
    case Parked(notified) => if notified then Some(Goto(s, t, WantSlot)) else None
  }

  /** The second look at the slot, under the cold lock. */
  function ColdStep(s: State, t: nat): Option<State>
    requires t < |s.tasks| && AtCold(s.tasks[t].pc)
  {
    var Task(key, pc) := s.tasks[t];
    match pc
    case WantCold => if s.cold.Some? then None else Some(Goto(s.(cold := Some(t)), t, WantInner))
    case WantInner => Acquire(s, t, key, Inner)
    case Inner =>
      (match Lookup(s, key)
       case Loaded => Some(Release(s, t, key, InnerLoaded))
       case Loading => Some(Release(s, t, key, InnerParked(false)))
       case Empty => Some(Release(s.(slots := s.slots[key := Loading]), t, key, Sending)))
    case InnerLoaded => Some(ReleaseCold(s, t, GenWant))
    case InnerParked(notified) => Some(ReleaseCold(s, t, Parked(notified)))
  }

  /** The loader up to the load: the progress message, and the other models' slots. */
  function UnloadStep(s: State, t: nat, ok: bool, pick: Key): Option<State>
    requires t < |s.tasks| && Clearing(s.tasks[t].pc)
  {
    var Task(key, pc) := s.tasks[t];
    match pc
    case Sending => Some(Goto(s, t, if ok then Unloading(s.slots.Keys - {key}) else SendFailWant))
    case SendFailWant => Acquire(s, t, key, SendFailHold)
    case SendFailHold => Some(Goto(SetAndNotify(s, key, Empty), t, Dropping))
    case Unloading(todo) =>
      if todo == {} then Some(Goto(s, t, LoadModel))
      else if pick in todo then Some(Goto(s, t, UnloadWant(pick, todo)))
      else None
    case UnloadWant(other, todo) => Acquire(s, t, other, UnloadHold(other, todo))
    case UnloadHold(other, todo) =>
      var unloaded := if Lookup(s, other) == Loaded then s.(slots := s.slots[other := Empty]) else s;
      Some(Release(unloaded, t, other, Unloading(todo - {other})))
  }

  /** The load and what it leaves in the slot. */
  function SettleStep(s: State, t: nat, ok: bool): Option<State>
    requires t < |s.tasks| && Settling(s.tasks[t].pc)
  {
    var Task(key, pc) := s.tasks[t];
    match pc
    case LoadModel => Some(Goto(s, t, if ok then LoadedWant else FailWant))
    case LoadedWant => Acquire(s, t, key, LoadedHold)
    case LoadedHold => Some(Goto(SetAndNotify(s, key, Loaded), t, LoadedNotified))
    case FailWant => Acquire(s, t, key, FailHold)
    case FailHold => Some(Goto(SetAndNotify(s, key, Empty), t, Reporting))
  }

  /** Letting go of the locks after loading. */
  function LeaveStep(s: State, t: nat): Option<State>
    requires t < |s.tasks| && AfterLoading(s.tasks[t].pc)
  {
    var Task(key, pc) := s.tasks[t];
    match pc
    case LoadedNotified => Some(ReleaseCold(s, t, LoadedBreak))
    case LoadedBreak => Some(Release(s, t, key, GenWant))
    case Reporting => Some(Goto(s, t, Dropping))
    case Dropping => Some(Release(s, t, key, DroppingCold))
    case DroppingCold => Some(ReleaseCold(s, t, Done))
  }

  function GenerateStep(s: State, t: nat): Option<State>
    requires t < |s.tasks| && InGeneration(s.tasks[t].pc)
  {
    var Task(key, pc) := s.tasks[t];
    match pc
    case GenWant => Acquire(s, t, key, GenHold)
    case GenHold => if Lookup(s, key) == Loaded then Some(Goto(s, t, Generating)) else Some(Release(s, t, key, Done))
    case Generating => Some(Release(s, t, key, Done))
    case Done => None
  }

  function EvictStep(s: State, t: nat, pick: Key): Option<State>
    requires t < |s.tasks| && IsEviction(s.tasks[t].pc)
  {
    match s.tasks[t].pc
    case Evicting(todo) =>
      if todo == {} then Some(Goto(s, t, Done))
      else if pick in todo then Some(Goto(s, t, EvictWant(pick, todo)))
      else None
    case EvictWant(other, todo) => Acquire(s, t, other, EvictHold(other, todo))
    case EvictHold(other, todo) =>
      var evicted := if Lookup(s, other) == Loaded then SetAndNotify(s, other, Empty) else s;
      Some(Release(evicted, t, other, Evicting(todo - {other})))
  }

  /** One step of task `t`; `ok` decides whether a send or a load succeeds, `pick` which slot of a
      snapshot comes next. `None` when the step is not enabled. */
  function Step(s: State, t: nat, ok: bool, pick: Key): Option<State>
    requires t < |s.tasks|
  {
    var pc := s.tasks[t].pc;
    if BeforeCold(pc) then EnterStep(s, t)
    else if AtCold(pc) then ColdStep(s, t)
    else if Clearing(pc) then UnloadStep(s, t, ok, pick)
    else if Settling(pc) then SettleStep(s, t, ok)
    else if AfterLoading(pc) then LeaveStep(s, t)
    else if IsEviction(pc) then EvictStep(s, t, pick)
    else GenerateStep(s, t)
  }

  /** `get_or_create_model_slot`. */
  function WithSlot(slots: map<Key, SlotState>, key: Key): map<Key, SlotState> {
    if key in slots then slots else slots[key := Empty]
  }

  /** A request creates its slot if the map has none, and then spawns its stream, or fails before it
      does; an eviction takes a snapshot of the slots of its model. */
  function Next(s: State, a: Action): Option<State> {
    match a
    case Insert(key) => Some(s.(slots := WithSlot(s.slots, key)))
    case Spawn(key) => Some(s.(slots := WithSlot(s.slots, key), tasks := s.tasks + [Task(key, WantSlot)]))
    case Evict(model) =>
      var todo := set k | k in s.slots && k.model == model;
      Some(s.(tasks := s.tasks + [Task(Key(0, model, 0), Evicting(todo))]))
    case Act(t, ok, pick) => if t < |s.tasks| then Step(s, t, ok, pick) else None
  }

  function Run(s: State, actions: seq<Action>): Option<State>
    decreases |actions|
  {
    if actions == [] then Some(s)
    else
      match Next(s, actions[0])
      case Some(next) => Run(next, actions[1..])
      case None => None
  }

  // ---------- the invariant ----------

  /** The slot whose lock a task at this point holds. */
  function HeldSlot(task: Task): Option<Key> {
    match task.pc
    case Checking | Inner | SendFailHold | LoadedHold | FailHold | LoadedNotified | LoadedBreak
       | Reporting | Dropping | GenHold | Generating => Some(task.key)
    case UnloadHold(other, _) => Some(other)
    case EvictHold(other, _) => Some(other)
    case _ => None
  }

  /** The task is the one loading its slot's model. */
  predicate IsLoader(pc: Pc) {
    match pc
    case Sending | SendFailWant | SendFailHold | LoadModel | LoadedWant | LoadedHold | FailWant | FailHold => true
    case Unloading(_) | UnloadWant(_, _) | UnloadHold(_, _) => true
    case _ => false
  }

  predicate HoldsCold(pc: Pc) {
    IsLoader(pc) || pc.WantInner? || pc.Inner? || pc.InnerLoaded? || pc.InnerParked?
    || pc.LoadedNotified? || pc.Reporting? || pc.Dropping? || pc.DroppingCold?
  }

  /** Slots a loader that has taken its snapshot has still to unload. */
  function ToUnload(pc: Pc): Option<set<Key>> {
    match pc
    case Unloading(todo) => Some(todo)
    case UnloadWant(_, todo) => Some(todo)
    case UnloadHold(_, todo) => Some(todo)
    case LoadModel | LoadedWant | LoadedHold => Some({})
    case _ => None
  }

  predicate Waiting(pc: Pc) {
    pc == Parked(false) || pc == InnerParked(false)
  }

  ghost predicate LocksOk(s: State) {
    && s.locks.Keys <= s.slots.Keys
    && (forall k <- s.locks :: s.locks[k] < |s.tasks| && HeldSlot(s.tasks[s.locks[k]]) == Some(k))
    && forall t :: 0 <= t < |s.tasks| && HeldSlot(s.tasks[t]).Some? ==>
         HeldSlot(s.tasks[t]).value in s.locks && s.locks[HeldSlot(s.tasks[t]).value] == t
  }

  ghost predicate ColdOk(s: State) {
    && (s.cold.Some? ==> s.cold.value < |s.tasks| && HoldsCold(s.tasks[s.cold.value].pc))
    && forall t :: 0 <= t < |s.tasks| && HoldsCold(s.tasks[t].pc) ==> s.cold == Some(t)
  }

  predicate Is(slots: map<Key, SlotState>, k: Key, state: SlotState) {
    k in slots && slots[k] == state
  }

  /** What a task's position says about the slots. */
  ghost predicate TaskOk(slots: map<Key, SlotState>, task: Task) {
    var pc := task.pc;
    && (!IsEviction(pc) && pc != Done ==> task.key in slots)
    && (IsLoader(pc) || Waiting(pc) ==> Is(slots, task.key, Loading))
    && (pc.Generating? ==> Is(slots, task.key, Loaded))
    && !pc.InnerParked?
    && (ToUnload(pc).Some? ==>
          && ToUnload(pc).value <= slots.Keys - {task.key}
          && forall k :: Is(slots, k, Loaded) ==> k in ToUnload(pc).value)
    && (pc.UnloadWant? || pc.UnloadHold? || pc.EvictWant? || pc.EvictHold? ==> pc.other in pc.todo)
    && (IsEviction(pc) ==> pc.todo <= slots.Keys)
  }

  ghost predicate TasksOk(s: State) {
    forall t :: 0 <= t < |s.tasks| ==> TaskOk(s.slots, s.tasks[t])
  }

  /** A loading slot has its loader, which holds the cold lock. */
  ghost predicate LoadingOk(s: State) {
    forall k :: Is(s.slots, k, Loading) ==>
      s.cold.Some? && s.cold.value < |s.tasks| && s.tasks[s.cold.value].key == k && IsLoader(s.tasks[s.cold.value].pc)
  }

  ghost predicate OneLoaded(s: State) {
    forall j, k :: Is(s.slots, j, Loaded) && Is(s.slots, k, Loaded) ==> j == k
  }

  ghost predicate Inv(s: State) {
    LocksOk(s) && ColdOk(s) && TasksOk(s) && LoadingOk(s) && OneLoaded(s)
  }

  // ---------- every step keeps the invariant ----------

  /** `s'` has the same tasks as `s` but for where `t` stands and who has been woken. */
  ghost predicate OthersKeep(s: State, s': State, t: nat) {
    && t < |s.tasks| == |s'.tasks|
    && s'.slots.Keys == s.slots.Keys
    && s'.tasks[t].key == s.tasks[t].key
    && forall u :: 0 <= u < |s.tasks| && u != t ==> s'.tasks[u] == s.tasks[u] || s'.tasks[u] == WakeTask(s.tasks[u], s.tasks[t].key)
  }

  lemma {:induction false} WokenHoldsTheSame(task: Task, k: Key)
    ensures var woken := WakeTask(task, k);
            HeldSlot(woken) == HeldSlot(task) && HoldsCold(woken.pc) == HoldsCold(task.pc) && IsLoader(woken.pc) == IsLoader(task.pc)
  {
  }

  lemma {:induction false} LocksKept(s: State, s': State, t: nat)
    requires LocksOk(s) && OthersKeep(s, s', t)
    requires s'.locks == s.locks && HeldSlot(s'.tasks[t]) == HeldSlot(s.tasks[t])
    ensures LocksOk(s')
  {
    forall u | 0 <= u < |s.tasks| ensures HeldSlot(s'.tasks[u]) == HeldSlot(s.tasks[u]) {
      WokenHoldsTheSame(s.tasks[u], s.tasks[t].key);
    }
  }

  lemma {:induction false} LocksReleased(s: State, s': State, t: nat, k: Key)
    requires LocksOk(s) && OthersKeep(s, s', t)
    requires HeldSlot(s.tasks[t]) == Some(k) && HeldSlot(s'.tasks[t]) == None && s'.locks == s.locks - {k}
    ensures LocksOk(s')
  {
    forall u | 0 <= u < |s.tasks| && u != t ensures HeldSlot(s'.tasks[u]) == HeldSlot(s.tasks[u]) {
      WokenHoldsTheSame(s.tasks[u], s.tasks[t].key);
    }
  }

  lemma {:induction false} LocksAcquired(s: State, s': State, t: nat, k: Key)
    requires LocksOk(s) && OthersKeep(s, s', t) && k in s.slots && k !in s.locks
    requires HeldSlot(s.tasks[t]) == None && HeldSlot(s'.tasks[t]) == Some(k) && s'.locks == s.locks[k := t]
    ensures LocksOk(s')
  {
    forall u | 0 <= u < |s.tasks| && u != t ensures HeldSlot(s'.tasks[u]) == HeldSlot(s.tasks[u]) {
      WokenHoldsTheSame(s.tasks[u], s.tasks[t].key);
    }
  }

  lemma {:induction false} ColdKept(s: State, s': State, t: nat)
    requires ColdOk(s) && OthersKeep(s, s', t)
    requires s'.cold == s.cold && HoldsCold(s'.tasks[t].pc) == HoldsCold(s.tasks[t].pc)
    ensures ColdOk(s')
  {
    forall u | 0 <= u < |s.tasks| ensures HoldsCold(s'.tasks[u].pc) == HoldsCold(s.tasks[u].pc) {
      WokenHoldsTheSame(s.tasks[u], s.tasks[t].key);
    }
  }

  /** With the slots unchanged, only where `t` stands has to be checked. */
  lemma {:induction false} SlotsKept(s: State, s': State, t: nat)
    requires TasksOk(s) && LoadingOk(s) && OneLoaded(s) && t < |s.tasks| == |s'.tasks|
    requires s'.slots == s.slots && s'.tasks == s.tasks[t := s'.tasks[t]] && s'.tasks[t].key == s.tasks[t].key
    requires TaskOk(s.slots, s'.tasks[t])
    requires || (s'.cold == s.cold && (IsLoader(s.tasks[t].pc) ==> IsLoader(s'.tasks[t].pc)))
             || s.cold.None?
             || (s.cold == Some(t) && !IsLoader(s.tasks[t].pc))
    ensures TasksOk(s') && LoadingOk(s') && OneLoaded(s')
  {
  }

  /** A step that changes only where `t` stands. */
  lemma {:induction false} GotoKeepsInv(s: State, t: nat, pc: Pc)
    requires Inv(s) && t < |s.tasks|
    requires var task := s.tasks[t].(pc := pc);
             && HeldSlot(task) == HeldSlot(s.tasks[t]) && HoldsCold(pc) == HoldsCold(s.tasks[t].pc)
             && (IsLoader(s.tasks[t].pc) ==> IsLoader(pc)) && TaskOk(s.slots, task)
    ensures Inv(Goto(s, t, pc))
  {
    var s' := Goto(s, t, pc);
    LocksKept(s, s', t);
    ColdKept(s, s', t);
    SlotsKept(s, s', t);
  }

  lemma {:induction false} AcquireKeepsInv(s: State, t: nat, k: Key, pc: Pc)
    requires Inv(s) && t < |s.tasks| && k in s.slots
    requires var task := s.tasks[t].(pc := pc);
             && HeldSlot(s.tasks[t]) == None && HeldSlot(task) == Some(k) && HoldsCold(pc) == HoldsCold(s.tasks[t].pc)
             && (IsLoader(s.tasks[t].pc) ==> IsLoader(pc)) && TaskOk(s.slots, task)
    ensures Acquire(s, t, k, pc).Some? ==> Inv(Acquire(s, t, k, pc).value)
  {
    if k !in s.locks {
      var s' := Acquire(s, t, k, pc).value;
      LocksAcquired(s, s', t, k);
      ColdKept(s, s', t);
      SlotsKept(s, s', t);
    }
  }

  lemma {:induction false} ReleaseKeepsInv(s: State, t: nat, k: Key, pc: Pc)
    requires Inv(s) && t < |s.tasks|
    requires var task := s.tasks[t].(pc := pc);
             && HeldSlot(s.tasks[t]) == Some(k) && HeldSlot(task) == None && HoldsCold(pc) == HoldsCold(s.tasks[t].pc)
             && (IsLoader(s.tasks[t].pc) ==> IsLoader(pc)) && TaskOk(s.slots, task)
    ensures Inv(Release(s, t, k, pc))
  {
    var s' := Release(s, t, k, pc);
    LocksReleased(s, s', t, k);
    ColdKept(s, s', t);
    SlotsKept(s, s', t);
  }

  lemma {:induction false} ReleaseColdKeepsInv(s: State, t: nat, pc: Pc)
    requires Inv(s) && t < |s.tasks|
    requires var task := s.tasks[t].(pc := pc);
             && HeldSlot(task) == HeldSlot(s.tasks[t]) && HoldsCold(s.tasks[t].pc) && !HoldsCold(pc)
             && !IsLoader(s.tasks[t].pc) && TaskOk(s.slots, task)
    ensures Inv(ReleaseCold(s, t, pc))
  {
    var s' := ReleaseCold(s, t, pc);
    LocksKept(s, s', t);
    SlotsKept(s, s', t);
  }

  lemma {:induction false} TakeColdKeepsInv(s: State, t: nat)
    requires Inv(s) && t < |s.tasks| && s.tasks[t].pc.WantCold? && s.cold.None?
    ensures Inv(Goto(s.(cold := Some(t)), t, WantInner))
  {
    var s' := Goto(s.(cold := Some(t)), t, WantInner);
    LocksKept(s, s', t);
    SlotsKept(s, s', t);
  }

  /** Two tasks never hold the same slot's lock. */
  lemma {:induction false} LockIsExclusive(s: State, t: nat, u: nat)
    requires LocksOk(s) && t < |s.tasks| && u < |s.tasks|
    requires HeldSlot(s.tasks[t]).Some? && HeldSlot(s.tasks[t]) == HeldSlot(s.tasks[u])
    ensures t == u
  {
  }

  /** The loader-to-be marks its empty slot as loading and lets go of it. */
  lemma {:induction false} BecomeLoaderKeepsInv(s: State, t: nat)
    requires Inv(s) && t < |s.tasks| && s.tasks[t].pc.Inner? && s.slots[s.tasks[t].key] == Empty
    ensures var key := s.tasks[t].key; Inv(Release(s.(slots := s.slots[key := Loading]), t, key, Sending))
  {
    var key := s.tasks[t].key;
    var s' := Release(s.(slots := s.slots[key := Loading]), t, key, Sending);
    LocksReleased(s, s', t, key);
    ColdKept(s, s', t);
    forall u | 0 <= u < |s'.tasks| ensures TaskOk(s'.slots, s'.tasks[u]) {
      assert TaskOk(s.slots, s.tasks[u]);
    }
    forall k, state | state != Empty && k != key && Is(s'.slots, k, state) ensures Is(s.slots, k, state) {}
  }

  /** Emptying a loaded slot while holding its lock disturbs no other task, and wakes nobody. */
  lemma {:induction false} EmptyLoadedTasks(s: State, t: nat, k: Key, u: nat)
    requires Inv(s) && t < |s.tasks| && u < |s.tasks| && u != t
    requires HeldSlot(s.tasks[t]) == Some(k) && Is(s.slots, k, Loaded)
    ensures TaskOk(s.slots[k := Empty], s.tasks[u])
    ensures WakeTask(s.tasks[u], k) == s.tasks[u]
  {
    assert TaskOk(s.slots, s.tasks[u]);
    if s.tasks[u].pc.Generating? && s.tasks[u].key == k {
      LockIsExclusive(s, t, u);
    }
  }

  lemma {:induction false} EmptyLoadedKeepsInv(s: State, t: nat, k: Key, pc: Pc)
    requires Inv(s) && t < |s.tasks| && HeldSlot(s.tasks[t]) == Some(k) && k in s.slots && s.slots[k] == Loaded
    requires || (s.tasks[t].pc.UnloadHold? && pc == Unloading(s.tasks[t].pc.todo - {k}))
             || (s.tasks[t].pc.EvictHold? && pc == Evicting(s.tasks[t].pc.todo - {k}))
    ensures Inv(Release(s.(slots := s.slots[k := Empty]), t, k, pc))
  {
    hide LocksOk, ColdOk, TasksOk, LoadingOk, OneLoaded, TaskOk;
    var s' := Release(s.(slots := s.slots[k := Empty]), t, k, pc);
    LocksReleased(s, s', t, k);
    ColdKept(s, s', t);
    EmptyLoadedTask(s, t, k, pc);
    EmptyLoadedTasksAll(s, s', t, k);
    forall j, state | state != Empty && Is(s'.slots, j, state) ensures Is(s.slots, j, state) {}
    LoadingKept(s, s', t);
  }

  lemma {:induction false} EmptyLoadedTask(s: State, t: nat, k: Key, pc: Pc)
    requires Inv(s) && t < |s.tasks| && k in s.slots && s.slots[k] == Loaded
    requires || (s.tasks[t].pc.UnloadHold? && pc == Unloading(s.tasks[t].pc.todo - {k}))
             || (s.tasks[t].pc.EvictHold? && pc == Evicting(s.tasks[t].pc.todo - {k}))
    ensures TaskOk(s.slots[k := Empty], Task(s.tasks[t].key, pc))
  {
    assert TaskOk(s.slots, s.tasks[t]);
    forall j | Is(s.slots[k := Empty], j, Loaded) ensures j != k && Is(s.slots, j, Loaded) {}
  }

  lemma {:induction false} EmptyLoadedTasksAll(s: State, s': State, t: nat, k: Key)
    requires Inv(s) && t < |s.tasks| && HeldSlot(s.tasks[t]) == Some(k) && k in s.slots && s.slots[k] == Loaded
    requires |s'.tasks| == |s.tasks| && s'.tasks == s.tasks[t := s'.tasks[t]]
    requires s'.slots == s.slots[k := Empty] && TaskOk(s'.slots, s'.tasks[t])
    ensures TasksOk(s')
  {
    hide Inv;
    forall u | 0 <= u < |s.tasks| && u != t ensures TaskOk(s'.slots, s'.tasks[u]) {
      EmptyLoadedTasks(s, t, k, u);
    }
  }

  /** An eviction's notification finds no registered waiter. */
  lemma {:induction false} EvictWakesNobody(s: State, t: nat, k: Key)
    requires Inv(s) && t < |s.tasks| && HeldSlot(s.tasks[t]) == Some(k) && Is(s.slots, k, Loaded)
    requires IsEviction(s.tasks[t].pc)
    ensures Wake(s.tasks, k) == s.tasks
  {
    forall u | 0 <= u < |s.tasks| ensures WakeTask(s.tasks[u], k) == s.tasks[u] {
      if u != t {
        EmptyLoadedTasks(s, t, k, u);
      }
    }
  }

  /** The slots marked as loading, and their loaders, are as before. */
  lemma {:induction false} LoadingKept(s: State, s': State, t: nat)
    requires LoadingOk(s) && OneLoaded(s) && OthersKeep(s, s', t) && s'.cold == s.cold
    requires forall k, state :: state != Empty && Is(s'.slots, k, state) ==> Is(s.slots, k, state)
    requires IsLoader(s.tasks[t].pc) ==> IsLoader(s'.tasks[t].pc)
    ensures LoadingOk(s') && OneLoaded(s')
  {
    if s.cold.Some? && s.cold.value < |s.tasks| {
      WokenHoldsTheSame(s.tasks[s.cold.value], s.tasks[t].key);
    }
  }

  /** The loader settles its slot, as `Loaded` or as `Empty`, and wakes every waiter. */
  lemma {:induction false} SettleTasks(s: State, t: nat, state: SlotState, u: nat)
    requires Inv(s) && t < |s.tasks| && u < |s.tasks| && u != t
    requires IsLoader(s.tasks[t].pc) && state != Loading
    requires state == Loaded ==> s.tasks[t].pc.LoadedHold?
    ensures TaskOk(s.slots[s.tasks[t].key := state], WakeTask(s.tasks[u], s.tasks[t].key))
  {
    assert TaskOk(s.slots, s.tasks[t]) && TaskOk(s.slots, s.tasks[u]);
    assert !HoldsCold(s.tasks[u].pc);
  }

  lemma {:induction false} SettleKeepsInv(s: State, t: nat, state: SlotState, pc: Pc)
    requires Inv(s) && t < |s.tasks|
    requires || (s.tasks[t].pc == LoadedHold && state == Loaded && pc == LoadedNotified)
             || (s.tasks[t].pc == SendFailHold && state == Empty && pc == Dropping)
             || (s.tasks[t].pc == FailHold && state == Empty && pc == Reporting)
    ensures Inv(Goto(SetAndNotify(s, s.tasks[t].key, state), t, pc))
  {
    hide LocksOk, ColdOk, TasksOk, LoadingOk, OneLoaded;
    var s' := Goto(SetAndNotify(s, s.tasks[t].key, state), t, pc);
    SettledTask(s, t, state, pc);
    SettleShape(s, t, state, pc);
    hide TaskOk, OthersKeep;
    LocksKept(s, s', t);
    ColdKept(s, s', t);
    SettleSlots(s, s', t, state);
    SettleTasksAll(s, s', t, state);
  }

  lemma {:induction false} SettledTask(s: State, t: nat, state: SlotState, pc: Pc)
    requires Inv(s) && t < |s.tasks| && IsLoader(s.tasks[t].pc)
    requires pc == LoadedNotified || pc == Dropping || pc == Reporting
    ensures s.tasks[t].key in s.slots
    ensures TaskOk(s.slots[s.tasks[t].key := state], Task(s.tasks[t].key, pc))
  {
    assert TaskOk(s.slots, s.tasks[t]);
  }

  lemma {:induction false} SettleShape(s: State, t: nat, state: SlotState, pc: Pc)
    requires t < |s.tasks| && s.tasks[t].key in s.slots
    ensures var s' := Goto(SetAndNotify(s, s.tasks[t].key, state), t, pc);
            && OthersKeep(s, s', t) && s'.tasks[t] == Task(s.tasks[t].key, pc)
            && forall u :: 0 <= u < |s.tasks| && u != t ==> s'.tasks[u] == WakeTask(s.tasks[u], s.tasks[t].key)
  {
  }

  lemma {:induction false} SettleTasksAll(s: State, s': State, t: nat, state: SlotState)
    requires Inv(s) && t < |s.tasks| && IsLoader(s.tasks[t].pc) && state != Loading
    requires state == Loaded ==> s.tasks[t].pc.LoadedHold?
    requires s'.slots == s.slots[s.tasks[t].key := state] && |s'.tasks| == |s.tasks|
    requires forall u :: 0 <= u < |s.tasks| && u != t ==> s'.tasks[u] == WakeTask(s.tasks[u], s.tasks[t].key)
    requires TaskOk(s'.slots, s'.tasks[t])
    ensures TasksOk(s')
  {
    forall u | 0 <= u < |s.tasks| && u != t ensures TaskOk(s'.slots, s'.tasks[u]) {
      SettleTasks(s, t, state, u);
    }
  }

  lemma {:induction false} SettleSlots(s: State, s': State, t: nat, state: SlotState)
    requires Inv(s) && t < |s.tasks| && IsLoader(s.tasks[t].pc) && state != Loading
    requires state == Loaded ==> s.tasks[t].pc.LoadedHold?
    requires s'.slots == s.slots[s.tasks[t].key := state]
    ensures LoadingOk(s') && OneLoaded(s')
  {
    var key := s.tasks[t].key;
    assert TaskOk(s.slots, s.tasks[t]);
    forall k, k' | k != key && k' != key && Is(s'.slots, k, Loaded) && Is(s'.slots, k', Loaded) ensures k == k' {
      assert Is(s.slots, k, Loaded) && Is(s.slots, k', Loaded);
    }
    forall k | Is(s'.slots, k, Loading) ensures false {
      assert Is(s.slots, k, Loading);
    }
    if state == Loaded {
      forall k | k != key && Is(s'.slots, k, Loaded) ensures false {
        assert Is(s.slots, k, Loaded);
      }
    }
  }

  lemma {:induction false} TaskAt(s: State, t: nat)
    requires Inv(s) && t < |s.tasks|
    ensures TaskOk(s.slots, s.tasks[t])
  {
  }

  lemma {:induction false} EnterStepKeepsInv(s: State, t: nat)
    requires Inv(s) && t < |s.tasks| && BeforeCold(s.tasks[t].pc)
    ensures EnterStep(s, t).Some? ==> Inv(EnterStep(s, t).value)
  {
    hide Inv;
    var Task(key, pc) := s.tasks[t];
    TaskAt(s, t);
    match pc {
      case WantSlot => AcquireKeepsInv(s, t, key, Checking);
      case Checking =>
        match s.slots[key] {
          case Loaded => ReleaseKeepsInv(s, t, key, GenWant);
          case Loading => ReleaseKeepsInv(s, t, key, Parked(false));
          case Empty => ReleaseKeepsInv(s, t, key, WantCold);
        }
      case Parked(notified) => if notified { GotoKeepsInv(s, t, WantSlot); }
    }
  }

  /** The inner `Loading` branch is never taken: the slot's loader would hold the cold lock too. */
  lemma {:induction false} InnerIsNotLoading(s: State, t: nat)
    requires Inv(s) && t < |s.tasks| && s.tasks[t].pc.Inner?
    ensures s.slots[s.tasks[t].key] != Loading
  {
    assert TaskOk(s.slots, s.tasks[t]);
    assert !Is(s.slots, s.tasks[t].key, Loading);
  }

  lemma {:induction false} ColdStepKeepsInv(s: State, t: nat)
    requires Inv(s) && t < |s.tasks| && AtCold(s.tasks[t].pc)
    ensures ColdStep(s, t).Some? ==> Inv(ColdStep(s, t).value)
  {
    hide Inv;
    var Task(key, pc) := s.tasks[t];
    TaskAt(s, t);
    match pc {
      case WantCold => if s.cold.None? { TakeColdKeepsInv(s, t); }
      case WantInner => AcquireKeepsInv(s, t, key, Inner);
      case Inner =>
        InnerIsNotLoading(s, t);
        if s.slots[key] == Loaded { ReleaseKeepsInv(s, t, key, InnerLoaded); } else { BecomeLoaderKeepsInv(s, t); }
      case InnerLoaded => ReleaseColdKeepsInv(s, t, GenWant);
    }
  }

  lemma {:induction false} UnloadStepKeepsInv(s: State, t: nat, ok: bool, pick: Key)
    requires Inv(s) && t < |s.tasks| && Clearing(s.tasks[t].pc)
    ensures UnloadStep(s, t, ok, pick).Some? ==> Inv(UnloadStep(s, t, ok, pick).value)
  {
    hide Inv;
    var Task(key, pc) := s.tasks[t];
    TaskAt(s, t);
    match pc {
      case Sending => GotoKeepsInv(s, t, if ok then Unloading(s.slots.Keys - {key}) else SendFailWant);
      case SendFailWant => AcquireKeepsInv(s, t, key, SendFailHold);
      case SendFailHold => SettleKeepsInv(s, t, Empty, Dropping);
      case Unloading(todo) =>
        if todo == {} { GotoKeepsInv(s, t, LoadModel); }
        else if pick in todo { GotoKeepsInv(s, t, UnloadWant(pick, todo)); }
      case UnloadWant(other, todo) => AcquireKeepsInv(s, t, other, UnloadHold(other, todo));
      case UnloadHold(other, todo) => UnloadKeepsInv(s, t);
    }
  }

  lemma {:induction false} UnloadKeepsInv(s: State, t: nat)
    requires Inv(s) && t < |s.tasks| && s.tasks[t].pc.UnloadHold?
    ensures Inv(UnloadStep(s, t, true, s.tasks[t].key).value)
  {
    var UnloadHold(other, todo) := s.tasks[t].pc;
    assert TaskOk(s.slots, s.tasks[t]);
    if s.slots[other] == Loaded {
      EmptyLoadedKeepsInv(s, t, other, Unloading(todo - {other}));
    } else {
      ReleaseKeepsInv(s, t, other, Unloading(todo - {other}));
    }
  }

  lemma {:induction false} SettleStepKeepsInv(s: State, t: nat, ok: bool)
    requires Inv(s) && t < |s.tasks| && Settling(s.tasks[t].pc)
    ensures SettleStep(s, t, ok).Some? ==> Inv(SettleStep(s, t, ok).value)
  {
    hide Inv;
    var Task(key, pc) := s.tasks[t];
    TaskAt(s, t);
    match pc {
      case LoadModel => GotoKeepsInv(s, t, if ok then LoadedWant else FailWant);
      case LoadedWant => AcquireKeepsInv(s, t, key, LoadedHold);
      case LoadedHold => SettleKeepsInv(s, t, Loaded, LoadedNotified);
      case FailWant => AcquireKeepsInv(s, t, key, FailHold);
      case FailHold => SettleKeepsInv(s, t, Empty, Reporting);
    }
  }

  lemma {:induction false} LeaveStepKeepsInv(s: State, t: nat)
    requires Inv(s) && t < |s.tasks| && AfterLoading(s.tasks[t].pc)
    ensures LeaveStep(s, t).Some? ==> Inv(LeaveStep(s, t).value)
  {
    hide Inv;
    var Task(key, pc) := s.tasks[t];
    TaskAt(s, t);
    match pc {
      case LoadedNotified => ReleaseColdKeepsInv(s, t, LoadedBreak);
      case LoadedBreak => ReleaseKeepsInv(s, t, key, GenWant);
      case Reporting => GotoKeepsInv(s, t, Dropping);
      case Dropping => ReleaseKeepsInv(s, t, key, DroppingCold);
      case DroppingCold => ReleaseColdKeepsInv(s, t, Done);
    }
  }

  lemma {:induction false} GenerateStepKeepsInv(s: State, t: nat)
    requires Inv(s) && t < |s.tasks| && InGeneration(s.tasks[t].pc)
    ensures GenerateStep(s, t).Some? ==> Inv(GenerateStep(s, t).value)
  {
    hide Inv;
    var Task(key, pc) := s.tasks[t];
    TaskAt(s, t);
    match pc {
      case GenWant => AcquireKeepsInv(s, t, key, GenHold);
      case GenHold =>
        if s.slots[key] == Loaded { GotoKeepsInv(s, t, Generating); } else { ReleaseKeepsInv(s, t, key, Done); }
      case Generating => ReleaseKeepsInv(s, t, key, Done);
      case Done =>
    }
  }

  lemma {:induction false} EvictStepKeepsInv(s: State, t: nat, pick: Key)
    requires Inv(s) && t < |s.tasks| && IsEviction(s.tasks[t].pc)
    ensures EvictStep(s, t, pick).Some? ==> Inv(EvictStep(s, t, pick).value)
  {
    hide Inv;
    TaskAt(s, t);
    match s.tasks[t].pc {
      case Evicting(todo) =>
        if todo == {} { GotoKeepsInv(s, t, Done); }
        else if pick in todo { GotoKeepsInv(s, t, EvictWant(pick, todo)); }
      case EvictWant(other, todo) => AcquireKeepsInv(s, t, other, EvictHold(other, todo));
      case EvictHold(other, todo) =>
        if s.slots[other] == Loaded {
          EvictWakesNobody(s, t, other);
          EmptyLoadedKeepsInv(s, t, other, Evicting(todo - {other}));
        } else {
          ReleaseKeepsInv(s, t, other, Evicting(todo - {other}));
        }
    }
  }

  /** With every old task where it was, a new one that holds nothing changes no lock. */
  lemma {:induction false} SpawnKeepsLocks(s: State, a: Action)
    requires LocksOk(s) && ColdOk(s) && !a.Act?
    ensures LocksOk(Next(s, a).value) && ColdOk(Next(s, a).value)
  {
    var s' := Next(s, a).value;
    assert forall t :: 0 <= t < |s.tasks| ==> s'.tasks[t] == s.tasks[t];
  }

  lemma {:induction false} SpawnKeepsTasks(s: State, a: Action)
    requires TasksOk(s) && !a.Act?
    ensures TasksOk(Next(s, a).value)
  {
    var s' := Next(s, a).value;
    forall k, state | state != Empty && Is(s'.slots, k, state) ensures Is(s.slots, k, state) {}
    forall t | 0 <= t < |s.tasks| ensures TaskOk(s'.slots, s'.tasks[t]) {
      assert TaskOk(s.slots, s.tasks[t]);
    }
  }

  lemma {:induction false} SpawnKeepsInv(s: State, a: Action)
    requires Inv(s) && !a.Act?
    ensures Inv(Next(s, a).value)
  {
    hide TasksOk, LocksOk, ColdOk;
    var s' := Next(s, a).value;
    SpawnKeepsLocks(s, a);
    SpawnKeepsTasks(s, a);
    forall k, state | state != Empty && Is(s'.slots, k, state) ensures Is(s.slots, k, state) {}
    assert forall t :: 0 <= t < |s.tasks| ==> s'.tasks[t] == s.tasks[t];
  }

  lemma {:induction false} NextKeepsInv(s: State, a: Action)
    requires Inv(s)
    ensures Next(s, a).Some? ==> Inv(Next(s, a).value)
  {
    if !a.Act? {
      SpawnKeepsInv(s, a);
    } else if a.task < |s.tasks| {
      var pc := s.tasks[a.task].pc;
      if BeforeCold(pc) { EnterStepKeepsInv(s, a.task); }
      else if AtCold(pc) { ColdStepKeepsInv(s, a.task); }
      else if Settling(pc) { SettleStepKeepsInv(s, a.task, a.ok); }
      else if Clearing(pc) { UnloadStepKeepsInv(s, a.task, a.ok, a.pick); }
      else if AfterLoading(pc) { LeaveStepKeepsInv(s, a.task); }
      else if IsEviction(pc) { EvictStepKeepsInv(s, a.task, a.pick); }
      else { GenerateStepKeepsInv(s, a.task); }
    }
  }

  lemma {:induction false} RunKeepsInv(s: State, actions: seq<Action>)
    requires Inv(s)
    ensures Run(s, actions).Some? ==> Inv(Run(s, actions).value)
    decreases |actions|
  {
    if actions != [] && Next(s, actions[0]).Some? {
      NextKeepsInv(s, actions[0]);
      RunKeepsInv(Next(s, actions[0]).value, actions[1..]);
    }
  }

  /** `s` is reached by some interleaving of any number of tasks. */
  ghost predicate Reachable(s: State) {
    exists actions :: Run(INIT, actions) == Some(s)
  }

  lemma {:induction false} ReachableInv(s: State)
    requires Reachable(s)
    ensures Inv(s)
  {
    var actions :| Run(INIT, actions) == Some(s);
    RunKeepsInv(INIT, actions);
  }
}
