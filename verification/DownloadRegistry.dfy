/** The registry of goose-download-manager (lib.rs): a map of progress records that decides which
    download may start, and the tasks that run beside it. */
module DownloadRegistry {
  import opened Text

  datatype Status = Downloading | Completed | Failed | Cancelled

  datatype Progress = Progress(status: Status, taskExited: bool, error: Option<string>)

  type Registry = map<string, Progress>

  // ---------- what each operation does to the map ----------

  /** A download that runs, or that was cancelled and has not exited yet, keeps others out. */
  predicate Blocked(m: Registry, id: string) {
    id in m && (m[id].status.Downloading? || (m[id].status.Cancelled? && !m[id].taskExited))
  }

  function AfterStart(m: Registry, id: string): Registry {
    if Blocked(m, id) then m else m[id := Progress(Downloading, false, None)]
  }

  function AfterReserve(m: Registry, id: string, progress: Progress): Registry {
    if Blocked(m, id) then m else m[id := progress]
  }

  function AfterCancel(m: Registry, id: string): Registry {
    if id in m then m[id := m[id].(status := Cancelled)] else m
  }

  function AfterSuccess(m: Registry, id: string): Registry {
    if id in m then m[id := m[id].(status := Completed, taskExited := true)] else m
  }

  function AfterFailure(m: Registry, id: string, error: string): Registry {
    if id in m then
      m[id := Progress(if m[id].status.Cancelled? then Cancelled else Failed, true, Some(error))]
    else m
  }

  function AfterClear(m: Registry, id: string): Registry {
    if id in m && !m[id].status.Downloading? && m[id].taskExited then m - {id} else m
  }

  // ---------- the operations as the source writes them ----------

  class DownloadManager {
    var downloads: Registry

    constructor ()
      ensures downloads == map[]
    {
      downloads := map[];
    }

    /** The locked part of `download_model_sharded_with_bearer_token`. */
    method StartDownload(id: string) returns (ok: bool)
      modifies this
      ensures ok == !Blocked(old(downloads), id) && downloads == AfterStart(old(downloads), id)
    {
      if id in downloads {
        var existing := downloads[id];
        if existing.status == Downloading {
          return false;
        }
        if existing.status == Cancelled && !existing.taskExited {
          return false;
        }
      }
      downloads := downloads[id := Progress(Downloading, false, None)];
      ok := true;
    }

    method ReserveDownload(id: string, progress: Progress) returns (ok: bool)
      modifies this
      ensures ok == !Blocked(old(downloads), id) && downloads == AfterReserve(old(downloads), id, progress)
    {
      if id in downloads {
        var existing := downloads[id];
        if existing.status == Downloading || (existing.status == Cancelled && !existing.taskExited) {
          return false;
        }
      }
      downloads := downloads[id := progress];
      ok := true;
    }

    method CancelDownload(id: string) returns (ok: bool)
      modifies this
      ensures ok == (id in old(downloads)) && downloads == AfterCancel(old(downloads), id)
    {
      ok := id in downloads;
      if ok {
        downloads := downloads[id := downloads[id].(status := Cancelled)];
      }
    }

    /** The task's last step when the files have arrived. */
    method FinishDownload(id: string)
      modifies this
      ensures downloads == AfterSuccess(old(downloads), id)
    {
      if id in downloads {
        downloads := downloads[id := downloads[id].(status := Completed, taskExited := true)];
      }
    }

    /** The task's last step when they have not. */
    method FailDownload(id: string, error: string)
      modifies this
      ensures downloads == AfterFailure(old(downloads), id, error)
    {
      if id in downloads {
        var progress := downloads[id];
        if progress.status != Cancelled {
          progress := progress.(status := Failed);
        }
        downloads := downloads[id := progress.(error := Some(error), taskExited := true)];
      }
    }

    method ClearCompleted(id: string)
      modifies this
      ensures downloads == AfterClear(old(downloads), id)
    {
      if id in downloads {
        var progress := downloads[id];
        var isTerminal := progress.status == Completed || progress.status == Failed || progress.status == Cancelled;
        if isTerminal && progress.taskExited {
          downloads := downloads - {id};
        }
      }
    }
  }

  // ---------- every interleaving with the tasks ----------

  /** A call that has been admitted creates directories, then its task downloads, then on failure it
      cleans up before its last step. */
  datatype Phase = Preparing | Running | CleaningUp | Exited

  datatype Task = Task(id: string, phase: Phase)

  datatype State = State(registry: Registry, tasks: seq<Task>)

  datatype Action =
    | Start(id: string)
    | Reserve(id: string, progress: Progress)
    | Cancel(id: string)
    | Clear(id: string)
    | Prepared(task: nat, ok: bool)
    | Ran(task: nat, ok: bool)
    | CleanedUp(task: nat, error: string)

  function Goto(s: State, t: nat, phase: Phase): State
    requires t < |s.tasks|
  {
    s.(tasks := s.tasks[t := s.tasks[t].(phase := phase)])
  }

  predicate At(s: State, t: nat, phase: Phase) {
    t < |s.tasks| && s.tasks[t].phase == phase
  }

  function Next(s: State, a: Action): State {
    match a
    case Start(id) =>
      if Blocked(s.registry, id) then s
      else State(AfterStart(s.registry, id), s.tasks + [Task(id, Preparing)])
    case Reserve(id, progress) => s.(registry := AfterReserve(s.registry, id, progress))
    case Cancel(id) => s.(registry := AfterCancel(s.registry, id))
    case Clear(id) => s.(registry := AfterClear(s.registry, id))
    case Prepared(t, ok) => if At(s, t, Preparing) then Goto(s, t, if ok then Running else Exited) else s
    case Ran(t, ok) =>
      if !At(s, t, Running) then s
      else if ok then Goto(s.(registry := AfterSuccess(s.registry, s.tasks[t].id)), t, Exited)
      else Goto(s, t, CleaningUp)
    case CleanedUp(t, error) =>
      if !At(s, t, CleaningUp) then s
      else Goto(s.(registry := AfterFailure(s.registry, s.tasks[t].id, error)), t, Exited)
  }

  function Run(s: State, actions: seq<Action>): State
    decreases |actions|
  {
    if actions == [] then s else Run(Next(s, actions[0]), actions[1..])
  }

  const INIT := State(map[], [])

  predicate Live(s: State, t: nat) {
    t < |s.tasks| && !s.tasks[t].phase.Exited?
  }

  /** A live task's entry is there, and is `Downloading`, or `Cancelled` with the task not exited. */
  predicate EntryLives(m: Registry, id: string) {
    id in m && !m[id].taskExited && (m[id].status.Downloading? || m[id].status.Cancelled?)
  }

  ghost predicate Exclusive(s: State) {
    forall t: nat, u: nat :: Live(s, t) && Live(s, u) && s.tasks[t].id == s.tasks[u].id ==> t == u
  }

  ghost predicate EntriesLive(s: State) {
    forall t: nat :: Live(s, t) ==> EntryLives(s.registry, s.tasks[t].id)
  }

  lemma {:induction false} NextKeepsInv(s: State, a: Action)
    requires Exclusive(s) && EntriesLive(s)
    ensures Exclusive(Next(s, a)) && EntriesLive(Next(s, a))
  {
    var s' := Next(s, a);
    forall t: nat | Live(s', t) && t < |s.tasks| ensures Live(s, t) && s'.tasks[t].id == s.tasks[t].id {}
    match a {
      case Start(id) =>
        if !Blocked(s.registry, id) {
          forall t: nat | Live(s, t) ensures s.tasks[t].id != id {}
        }
      case Reserve(id, progress) =>
        if !Blocked(s.registry, id) {
          forall t: nat | Live(s, t) ensures s.tasks[t].id != id {}
        }
      case Ran(t, ok) =>
        forall u: nat | Live(s', u) && u != t && At(s, t, Running) ensures s'.tasks[u].id != s.tasks[t].id {}
      case CleanedUp(t, error) =>
        forall u: nat | Live(s', u) && u != t && At(s, t, CleaningUp) ensures s'.tasks[u].id != s.tasks[t].id {}
      case _ =>
    }
  }

  lemma {:induction false} RunKeepsInv(s: State, actions: seq<Action>)
    requires Exclusive(s) && EntriesLive(s)
    ensures Exclusive(Run(s, actions)) && EntriesLive(Run(s, actions))
    decreases |actions|
  {
    if actions != [] {
      NextKeepsInv(s, actions[0]);
      RunKeepsInv(Next(s, actions[0]), actions[1..]);
    }
  }

  /** Over every interleaving of calls and tasks no model has two live tasks, and a live task's entry
      keeps everyone else out. */
  lemma {:induction false} OneTaskPerModel(actions: seq<Action>)
    ensures var s := Run(INIT, actions);
            && (forall t: nat, u: nat :: Live(s, t) && Live(s, u) && s.tasks[t].id == s.tasks[u].id ==> t == u)
            && (forall t: nat :: Live(s, t) ==> EntryLives(s.registry, s.tasks[t].id) && Blocked(s.registry, s.tasks[t].id))
  {
    RunKeepsInv(INIT, actions);
  }

  // ---------- who keeps a model refused ----------

  /** The last call that was admitted for one model, and what has happened to it: a start that put
      task `task` to work, a start whose directory could not be created, or a reservation with its
      record, and whether the model was cancelled since. */
  datatype Admission = Nothing | Started(task: nat) | DirectoryFailed | Reservation(record: Progress, cancelled: bool)

  function Track(h: Admission, s: State, a: Action, id: string): Admission {
    match a
    case Start(i) => if i == id && !Blocked(s.registry, id) then Started(|s.tasks|) else h
    case Reserve(i, progress) => if i == id && !Blocked(s.registry, id) then Reservation(progress, false) else h
    case Cancel(i) => if i == id && h.Reservation? then h.(cancelled := true) else h
    case Prepared(t, ok) => if h == Started(t) && At(s, t, Preparing) && !ok then DirectoryFailed else h
    case _ => h
  }

  /** The last admission of `id` after the actions. */
  function LastAdmission(h: Admission, s: State, actions: seq<Action>, id: string): Admission
    decreases |actions|
  {
    if actions == [] then h else LastAdmission(Track(h, s, actions[0], id), Next(s, actions[0]), actions[1..], id)
  }

  /** A reserved record that blocks: as it was stored it is downloading or being cancelled, or it has
      been cancelled since, and its task never counted as exited. */
  predicate RecordBlocks(record: Progress, cancelled: bool) {
    if cancelled then !record.taskExited
    else record.status.Downloading? || (record.status.Cancelled? && !record.taskExited)
  }

  /** The model is refused though no task will ever free it. */
  predicate Abandoned(h: Admission) {
    h.DirectoryFailed? || (h.Reservation? && RecordBlocks(h.record, h.cancelled))
  }

  ghost predicate HasLiveTask(s: State, id: string) {
    exists t: nat :: Live(s, t) && s.tasks[t].id == id
  }

  /** The entry is the reserved record, cancelled or not; it may be gone if it had exited. */
  predicate HoldsRecord(m: Registry, id: string, record: Progress, cancelled: bool) {
    if id in m then m[id] == if cancelled then record.(status := Cancelled) else record
    else record.taskExited && (cancelled || !record.status.Downloading?)
  }

  /** What the last admission says about the entry and the tasks. */
  ghost predicate Tracked(s: State, h: Admission, id: string) {
    match h
    case Nothing => id !in s.registry && !HasLiveTask(s, id)
    case Started(t) =>
      && t < |s.tasks| && s.tasks[t].id == id
      && (!Live(s, t) && id in s.registry ==> s.registry[id].taskExited && !s.registry[id].status.Downloading?)
      && forall u: nat :: Live(s, u) && s.tasks[u].id == id ==> u == t
    case DirectoryFailed => EntryLives(s.registry, id) && !HasLiveTask(s, id)
    case Reservation(record, cancelled) => HoldsRecord(s.registry, id, record, cancelled) && !HasLiveTask(s, id)
  }

  /** A live task before is live after, or its own last step has been taken. */
  lemma {:induction false} LiveBefore(s: State, a: Action, t: nat)
    requires Live(Next(s, a), t) && t < |s.tasks|
    ensures Live(s, t) && Next(s, a).tasks[t].id == s.tasks[t].id
  {
  }

  lemma {:induction false} NoNewTask(s: State, a: Action, id: string)
    requires !HasLiveTask(s, id) && !(a.Start? && a.id == id && !Blocked(s.registry, id))
    ensures !HasLiveTask(Next(s, a), id)
  {
    var s' := Next(s, a);
    forall t: nat | Live(s', t) && s'.tasks[t].id == id ensures false {
      if t < |s.tasks| {
        LiveBefore(s, a, t);
      }
    }
  }

  /** Without a live task of `id` only calls for `id` change its entry. */
  lemma {:induction false} EntryStays(s: State, a: Action, id: string)
    requires !HasLiveTask(s, id)
    requires !(a.Start? || a.Reserve? || a.Cancel? || a.Clear?) || a.id != id
    ensures id in Next(s, a).registry <==> id in s.registry
    ensures id in s.registry ==> Next(s, a).registry[id] == s.registry[id]
  {
    match a {
      case Ran(t, ok) =>
        if At(s, t, Running) {
          assert Live(s, t);
        }
      case CleanedUp(t, error) =>
        if At(s, t, CleaningUp) {
          assert Live(s, t);
        }
      case _ =>
    }
  }

  lemma {:induction false} AbandonedStaysTracked(s: State, h: Admission, a: Action, id: string)
    requires Exclusive(s) && EntriesLive(s) && Tracked(s, h, id) && !h.Started?
    requires !(a.Start? && a.id == id && !Blocked(s.registry, id)) && !(a.Reserve? && a.id == id && !Blocked(s.registry, id))
    ensures Tracked(Next(s, a), Track(h, s, a, id), id)
  {
    NoNewTask(s, a, id);
    hide HasLiveTask;
    if !(a.Start? || a.Reserve? || a.Cancel? || a.Clear?) || a.id != id {
      EntryStays(s, a, id);
    }
  }

  lemma {:induction false} StartedStaysTracked(s: State, t: nat, a: Action, id: string)
    requires Exclusive(s) && EntriesLive(s) && Tracked(s, Started(t), id)
    requires !(a.Start? && a.id == id && !Blocked(s.registry, id)) && !(a.Reserve? && a.id == id && !Blocked(s.registry, id))
    ensures Tracked(Next(s, a), Track(Started(t), s, a, id), id)
  {
    var s' := Next(s, a);
    forall u: nat | Live(s', u) && s'.tasks[u].id == id ensures u == t {
      if u < |s.tasks| {
        LiveBefore(s, a, u);
      }
    }
    if Track(Started(t), s, a, id) == DirectoryFailed {
      assert Live(s, t);
    } else if !Live(s, t) {
      assert !HasLiveTask(s, id);
      if !(a.Start? || a.Reserve? || a.Cancel? || a.Clear?) || a.id != id {
        EntryStays(s, a, id);
      }
    }
  }

  lemma {:induction false} NextKeepsTracked(s: State, h: Admission, a: Action, id: string)
    requires Exclusive(s) && EntriesLive(s) && Tracked(s, h, id)
    ensures Tracked(Next(s, a), Track(h, s, a, id), id)
  {
    if a.Start? && a.id == id && !Blocked(s.registry, id) {
      forall t: nat | Live(s, t) ensures s.tasks[t].id != id {}
    } else if a.Reserve? && a.id == id && !Blocked(s.registry, id) {
      forall t: nat | Live(s, t) ensures s.tasks[t].id != id {}
      NoNewTask(s, a, id);
    } else if h.Started? {
      StartedStaysTracked(s, h.task, a, id);
    } else {
      AbandonedStaysTracked(s, h, a, id);
    }
  }

  lemma {:induction false} RunKeepsTracked(s: State, h: Admission, actions: seq<Action>, id: string)
    requires Exclusive(s) && EntriesLive(s) && Tracked(s, h, id)
    ensures Tracked(Run(s, actions), LastAdmission(h, s, actions, id), id)
    ensures Exclusive(Run(s, actions)) && EntriesLive(Run(s, actions))
    decreases |actions|
  {
    hide Exclusive, EntriesLive, Tracked, Next, Track;
    if actions != [] {
      NextKeepsInv(s, actions[0]);
      NextKeepsTracked(s, h, actions[0], id);
      RunKeepsTracked(Next(s, actions[0]), Track(h, s, actions[0], id), actions[1..], id);
    }
  }

  /** Over every interleaving, reservations and failed directories included: a model is refused exactly
      while a task of it is live, or its last admission was a start whose directory could not be
      created, or a reservation whose record blocks; in the last two cases no task is live. */
  lemma {:induction false} RefusedExactlyWhile(actions: seq<Action>, id: string)
    ensures var s := Run(INIT, actions);
            var h := LastAdmission(Nothing, INIT, actions, id);
            && (Blocked(s.registry, id) <==> HasLiveTask(s, id) || Abandoned(h))
            && !(HasLiveTask(s, id) && Abandoned(h))
  {
    RunKeepsTracked(INIT, Nothing, actions, id);
    var s := Run(INIT, actions);
    var h := LastAdmission(Nothing, INIT, actions, id);
    if h.Started? {
      assert Live(s, h.task) ==> HasLiveTask(s, id);
    }
  }

  /** A directory that cannot be created leaves its model refused with no task behind it, until it is
      cancelled, and even then, as no task will ever mark it as exited. */
  lemma {:induction false} FailedDirectoryBlocks(id: string)
    ensures var s := Run(INIT, [Start(id), Prepared(0, false)]);
            Blocked(s.registry, id) && (forall t: nat :: !Live(s, t)) && Blocked(Next(Next(s, Cancel(id)), Clear(id)).registry, id)
  {
    var one := Next(INIT, Start(id));
    assert [Start(id), Prepared(0, false)][1..] == [Prepared(0, false)];
    assert [Prepared(0, false)][1..] == [];
    assert Run(one, [Prepared(0, false)]) == Run(Next(one, Prepared(0, false)), []);
  }

  /** A reservation can do so too, even with a finished record: cancelling it makes it block, if its
      task never counted as exited. */
  lemma {:induction false} CancelledReservationBlocks(id: string)
    ensures var s := Run(INIT, [Reserve(id, Progress(Completed, false, None)), Cancel(id)]);
            Blocked(s.registry, id) && (forall t: nat :: !Live(s, t)) && Blocked(Next(s, Clear(id)).registry, id)
  {
    var reserve := Reserve(id, Progress(Completed, false, None));
    var one := Next(INIT, reserve);
    assert [reserve, Cancel(id)][1..] == [Cancel(id)] && [Cancel(id)][1..] == [];
    assert Run(one, [Cancel(id)]) == Run(Next(one, Cancel(id)), []);
  }
}
