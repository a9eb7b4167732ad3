/** How a download ends: when it may fail, when it goes on, and that it succeeds once a server answers
    in full. */
module DownloadOutcomes {
  import opened Text
  import opened Downloads
  import opened DownloadProperties

  // ---------- failures that are tried again ----------

  /** The turn fails in a way that is worth another try: no connection, a server error, or a body that breaks. */
  predicate Fails(turn: Turn) {
    && !turn.cancelled
    && (turn.answer.NoConnection? || turn.answer == Refused(true) || (turn.answer.Body? && turn.answer.ending.Broken?))
  }

  /** How many of the first `n` turns do. */
  function Failures(script: seq<Turn>, n: nat): nat
    requires n <= |script|
  {
    if n == 0 then 0 else Failures(script, n - 1) + if Fails(script[n - 1]) then 1 else 0
  }

  /** The turn is one with which the download gives up, `failures` having come before it. */
  predicate GivesUp(turn: Turn, failures: nat) {
    !turn.cancelled && (turn.answer == Refused(false) || (Fails(turn) && failures >= MAX_RETRIES))
  }

  /** A cancellation is seen: before the request, with a chunk, or asleep before another try. */
  predicate SeesCancel(turn: Turn, failures: nat) {
    || turn.cancelled
    || (turn.answer.Body? && turn.answer.ending.CancelSeen?)
    || (Fails(turn) && failures < MAX_RETRIES && turn.cancelledAsleep)
  }

  predicate Completes(turn: Turn) {
    !turn.cancelled && turn.answer.Body? && turn.answer.ending.Clean?
  }

  predicate Stalls(turn: Turn) {
    !turn.cancelled && turn.answer.Body? && turn.answer.ending.StillOpen?
  }

  predicate RangeRefused(turn: Turn) {
    !turn.cancelled && turn.answer.RangeNotSatisfiable?
  }

  /** What the loop counts as retries is the failures so far, and what counts as downloaded is there. */
  predicate Counts(l: Local, failures: nat) {
    l.retries == failures <= MAX_RETRIES && (l.fileBytes > 0 ==> l.disk.part.Some?)
  }

  predicate IsWhole(l: Local) {
    l.fileTotal > 0 && l.fileBytes == l.fileTotal
  }

  /** What a turn makes of the download. */
  predicate TurnEnds(l: Local, turn: Turn, failures: nat, next: Next) {
    match next
    case Continue(l') =>
      && !GivesUp(turn, failures) && !SeesCancel(turn, failures) && !Completes(turn) && !Stalls(turn)
      && (RangeRefused(turn) ==> !IsWhole(l)) && Counts(l', failures + if Fails(turn) then 1 else 0)
    case Stop(outcome, _) =>
      match outcome
      case Failed => GivesUp(turn, failures)
      case Cancelled => SeesCancel(turn, failures)
      case Done => Completes(turn) || (RangeRefused(turn) && IsWhole(l))
      case Pending => Stalls(turn)
  }

  lemma {:induction false} TurnEndsAsItShould(l: Local, turn: Turn, failures: nat)
    requires Counts(l, failures)
    ensures TurnEnds(l, turn, failures, Step(l, turn))
  {
    hide Concat, SetLen;
  }

  // ---------- how one file ends ----------

  /** Turn `j` does not end the loop, unless it refuses the range of a whole file. */
  predicate GoesOn(script: seq<Turn>, j: nat)
    requires j < |script|
  {
    var turn, failures := script[j], Failures(script, j);
    !GivesUp(turn, failures) && !SeesCancel(turn, failures) && !Completes(turn) && !Stalls(turn)
  }

  /** The last of `n` turns ends the loop this way. */
  predicate EndsAs(outcome: Outcome, script: seq<Turn>, n: nat)
    requires 0 < n <= |script|
  {
    var turn, failures := script[n - 1], Failures(script, n - 1);
    match outcome
    case Failed => GivesUp(turn, failures)
    case Cancelled => SeesCancel(turn, failures)
    case Done => Completes(turn) || RangeRefused(turn)
    case Pending => Stalls(turn)
  }

  /** All turns but the last go on; the last ends the loop, or the script is used up. */
  predicate EndsWith(outcome: Outcome, script: seq<Turn>, n: nat) {
    && n <= |script|
    && (forall j :: 0 <= j < n - 1 ==> GoesOn(script, j))
    && ((n > 0 && EndsAs(outcome, script, n)) || (outcome.Pending? && n == |script| && (n > 0 ==> GoesOn(script, n - 1))))
  }

  lemma {:induction false} LoopEnds(l: Local, script: seq<Turn>, i: nat)
    requires i <= |script| && Counts(l, Failures(script, i)) && forall j :: 0 <= j < i ==> GoesOn(script, j)
    ensures var ran := Loop(l, script, i); i <= ran.turns && EndsWith(ran.outcome, script, ran.turns)
    decreases |script| - i
  {
    hide Step, Counts;
    if i < |script| {
      TurnEndsAsItShould(l, script[i], Failures(script, i));
      hide GivesUp, SeesCancel, Completes, Stalls, Fails;
      if Step(l, script[i]).Continue? {
        LoopEnds(Step(l, script[i]).local, script, i + 1);
      }
    }
  }

  /** The partial file is promoted before any request: it has the size that HEAD reported. */
  predicate PromotedAtOnce(disk: Disk, script: Script) {
    script.head > 0 && PartLen(disk) == script.head
  }

  lemma {:induction false} FileEnds(disk: Disk, cumulative: nat, script: Script)
    ensures var ran := DownloadOne(disk, cumulative, script);
            if PromotedAtOnce(disk, script) then ran.outcome.Done? && ran.turns == 0
            else EndsWith(ran.outcome, script.turns, ran.turns)
  {
    var prepared := Prepare(disk, cumulative, script);
    if prepared.Continue? {
      LoopEnds(prepared.local, script.turns, 0);
    }
  }

  /** A download fails exactly when the answer that ends it is a refusal that is not transient, or a
      failure that comes after MAX_RETRIES others; every earlier answer was tried again. */
  lemma {:induction false} FailsIff(disk: Disk, cumulative: nat, script: Script)
    ensures var ran := DownloadOne(disk, cumulative, script);
            && ran.turns <= |script.turns|
            && (ran.outcome.Failed? <==>
                  ran.turns > 0 && GivesUp(script.turns[ran.turns - 1], Failures(script.turns, ran.turns - 1)))
            && forall j :: 0 <= j < ran.turns - 1 ==> !GivesUp(script.turns[j], Failures(script.turns, j))
  {
    FileEnds(disk, cumulative, script);
    hide DownloadOne, Failures;
    var ran := DownloadOne(disk, cumulative, script);
    forall j | 0 <= j < ran.turns - 1 ensures !GivesUp(script.turns[j], Failures(script.turns, j)) {
      assert GoesOn(script.turns, j);
    }
  }

  /** It is cancelled exactly when the last turn saw a cancellation, and no earlier turn did. */
  lemma {:induction false} CancelledIff(disk: Disk, cumulative: nat, script: Script)
    ensures var ran := DownloadOne(disk, cumulative, script);
            && ran.turns <= |script.turns|
            && (ran.outcome.Cancelled? <==>
                  ran.turns > 0 && SeesCancel(script.turns[ran.turns - 1], Failures(script.turns, ran.turns - 1)))
            && forall j :: 0 <= j < ran.turns - 1 ==> !SeesCancel(script.turns[j], Failures(script.turns, j))
  {
    FileEnds(disk, cumulative, script);
    hide DownloadOne, Failures;
    var ran := DownloadOne(disk, cumulative, script);
    forall j | 0 <= j < ran.turns - 1 ensures !SeesCancel(script.turns[j], Failures(script.turns, j)) {
      assert GoesOn(script.turns, j);
    }
  }

  /** A cancellation seen before a request or with a chunk takes the partial file away, if it can be
      removed; one seen asleep leaves it; and in no case is there a destination. */
  lemma {:induction false} CancelledFileIsRemoved(disk: Disk, cumulative: nat, script: Script)
    requires disk.dest.None?
    ensures var ran := DownloadOne(disk, cumulative, script);
            ran.outcome.Cancelled? ==>
              && 0 < ran.turns <= |script.turns| && ran.local.disk.dest.None?
              && var last := script.turns[ran.turns - 1];
                 if !Fails(last) then last.removed ==> ran.local.disk.part.None?
                 else ran.local.fileBytes > 0 ==> ran.local.disk.part.Some? && |ran.local.disk.part.value| == ran.local.fileBytes
  {
    var prepared := Prepare(disk, cumulative, script);
    if prepared.Continue? {
      LoopCancelled(prepared.local, script.turns, 0);
    }
  }

  lemma {:induction false} StepCancelled(l: Local, turn: Turn)
    requires l.disk.dest.None? && (l.fileBytes > 0 ==> l.disk.part.Some? && |l.disk.part.value| == l.fileBytes)
    ensures match Step(l, turn)
            case Continue(l') => l'.disk.dest.None? && (l'.fileBytes > 0 ==> l'.disk.part.Some? && |l'.disk.part.value| == l'.fileBytes)
            case Stop(outcome, l') =>
              outcome.Cancelled? ==>
                && l'.disk.dest.None?
                && if !Fails(turn) then turn.removed ==> l'.disk.part.None?
                   else l'.fileBytes > 0 ==> l'.disk.part.Some? && |l'.disk.part.value| == l'.fileBytes
  {
    if !turn.cancelled && turn.answer.Body? {
      OpenedLength(l, turn);
      hide Opened;
    }
    hide Concat, SetLen;
  }

  lemma {:induction false} LoopCancelled(l: Local, script: seq<Turn>, i: nat)
    requires i <= |script| && l.disk.dest.None? && (l.fileBytes > 0 ==> l.disk.part.Some? && |l.disk.part.value| == l.fileBytes)
    ensures var ran := Loop(l, script, i);
            ran.outcome.Cancelled? ==>
              && i < ran.turns <= |script| && ran.local.disk.dest.None?
              && var last := script[ran.turns - 1];
                 if !Fails(last) then last.removed ==> ran.local.disk.part.None?
                 else ran.local.fileBytes > 0 ==> ran.local.disk.part.Some? && |ran.local.disk.part.value| == ran.local.fileBytes
    decreases |script| - i
  {
    hide Step, Fails;
    if i < |script| {
      StepCancelled(l, script[i]);
      if Step(l, script[i]).Continue? {
        LoopCancelled(Step(l, script[i]).local, script, i + 1);
      }
    }
  }

  // ---------- a whole file whose range is refused ----------

  /** The turn's answer carries the size of the file: the length of a 200, the total of a 206. */
  predicate TellsSize(turn: Turn, size: nat) {
    && !turn.cancelled && turn.answer.Body?
    && (if turn.answer.partial then turn.answer.total else turn.answer.length) == Some(size)
  }

  /** A loop that has used up the first `k` turns goes on from there. */
  lemma {:induction false} LoopGoesOn(l: Local, script: seq<Turn>, i: nat, k: nat)
    requires i <= k <= |script|
    requires var ran := Loop(l, script[..k], i); ran.outcome.Pending? && ran.turns == k && (k > i ==> !Stalls(script[k - 1]))
    ensures Loop(l, script, i) == Loop(Loop(l, script[..k], i).local, script, k)
    decreases k - i
  {
    hide Stalls;
    if i < k {
      assert script[..k][i] == script[i];
      if Step(l, script[i]).Continue? {
        hide Step;
        LoopGoesOn(Step(l, script[i]).local, script, i + 1, k);
      } else {
        PendingStalls(l, script[i]);
      }
    }
  }

  lemma {:induction false} PendingStalls(l: Local, turn: Turn)
    ensures Step(l, turn).Stop? && Step(l, turn).outcome.Pending? ==> Stalls(turn)
  {
    hide Concat, SetLen;
  }

  /** With an honest server the size is known once it was told. */
  lemma {:induction false} SizeIsLearned(l: Local, script: seq<Turn>, i: nat, k: nat, remote: bytes)
    requires i <= k <= |script| && Sound(l, remote, true) && HonestRun(l, script[..k], i, remote) && remote != []
    requires var ran := Loop(l, script[..k], i); ran.outcome.Pending? && ran.turns == k
    requires l.fileTotal > 0 || exists j :: i <= j < k && TellsSize(script[j], |remote|)
    ensures Loop(l, script[..k], i).local.fileTotal == |remote|
    decreases k - i
  {
    hide Honest, Sound, TellsSize;
    if i < k {
      var turn := script[i];
      assert script[..k][i] == turn;
      SizeStep(l, turn, remote);
      StepIsSound(l, turn, remote, true);
      if Step(l, turn).Continue? {
        hide Step;
        SizeIsLearned(Step(l, turn).local, script, i + 1, k, remote);
      }
    } else {
      SoundSize(l, remote);
    }
  }

  lemma {:induction false} SoundSize(l: Local, remote: bytes)
    requires Sound(l, remote, true) && l.fileTotal > 0
    ensures l.fileTotal == |remote|
  {
  }

  lemma {:induction false} SizeStep(l: Local, turn: Turn, remote: bytes)
    requires Sound(l, remote, true) && Honest(l, turn, remote) && remote != []
    ensures l.fileTotal > 0 || TellsSize(turn, |remote|) ==> Step(l, turn).local.fileTotal == |remote|
  {
    hide Concat, SetLen;
  }

  /** Once everything is on disk and the size is known, from HEAD or from any answer, a refused range
      does not start over but ends the download, with the whole file. */
  lemma {:induction false} RefusedRangeOfWholeFileIsDone(disk: Disk, cumulative: nat, script: Script, k: nat, remote: bytes)
    requires disk.dest.None? && Fits(disk.part, remote, true) && remote != []
    requires k < |script.turns| && RangeRefused(script.turns[k])
    requires script.head == |remote| || (script.head == 0 && exists j :: 0 <= j < k && TellsSize(script.turns[j], |remote|))
    requires var front := script.(turns := script.turns[..k]);
      && HonestServer(disk, cumulative, front, remote)
      && var ran := DownloadOne(disk, cumulative, front);
         && ran.outcome.Pending? && ran.turns == k && (k > 0 ==> !Stalls(script.turns[k - 1]))
         && ran.local.fileBytes == |remote|
    ensures var ran := DownloadOne(disk, cumulative, script);
            ran.outcome.Done? && ran.turns == k + 1 && ran.local.disk == Disk(None, Some(remote))
  {
    var front := script.(turns := script.turns[..k]);
    var prepared := Prepare(disk, cumulative, front);
    assert prepared == Prepare(disk, cumulative, script);
    PreparedIsSound(disk, cumulative, script, remote);
    var l := prepared.local;
    SizeIsLearned(l, script.turns, 0, k, remote);
    LoopGoesOn(l, script.turns, 0, k);
    ResumeIsCorrect(disk, cumulative, front, remote, true);
    PendingIsSound(l, front.turns, 0, remote);
    var l' := Loop(l, front.turns, 0).local;
    hide Honest, HonestRun, Sound;
    WholeIsPromoted(l', script.turns[k], remote);
  }

  lemma {:induction false} PreparedIsSound(disk: Disk, cumulative: nat, script: Script, remote: bytes)
    requires disk.dest.None? && Fits(disk.part, remote, true) && (script.head == 0 || script.head == |remote|)
    ensures Prepare(disk, cumulative, script).Continue? ==> Sound(Prepare(disk, cumulative, script).local, remote, true)
    ensures Prepare(disk, cumulative, script).Continue? ==> Prepare(disk, cumulative, script).local.fileTotal == script.head
  {
  }

  /** A loop that has used up its script is in a sound state. */
  lemma {:induction false} PendingIsSound(l: Local, script: seq<Turn>, i: nat, remote: bytes)
    requires i <= |script| && Sound(l, remote, true) && HonestRun(l, script, i, remote)
    requires var ran := Loop(l, script, i); ran.outcome.Pending? && ran.turns == |script| && (|script| > i ==> !Stalls(script[|script| - 1]))
    ensures Sound(Loop(l, script, i).local, remote, true)
    decreases |script| - i
  {
    hide Honest, Sound, Stalls;
    if i < |script| {
      StepIsSound(l, script[i], remote, true);
      if Step(l, script[i]).Continue? {
        hide Step;
        PendingIsSound(Step(l, script[i]).local, script, i + 1, remote);
      } else {
        PendingStalls(l, script[i]);
      }
    }
  }

  lemma {:induction false} WholeIsPromoted(l: Local, turn: Turn, remote: bytes)
    requires Sound(l, remote, true) && l.fileTotal == l.fileBytes == |remote| > 0 && RangeRefused(turn)
    ensures Step(l, turn).Stop? && Step(l, turn).outcome.Done? && Step(l, turn).local.disk == Disk(None, Some(remote))
  {
    assert l.disk.part.value == remote;
  }

  /** The first complete body ends it, as done. */
  lemma {:induction false} CompleteBodyEnds(disk: Disk, cumulative: nat, script: Script, j: nat)
    requires j < |script.turns| && Completes(script.turns[j])
    ensures var ran := DownloadOne(disk, cumulative, script);
            ran.turns <= j + 1 && (ran.turns == j + 1 ==> ran.outcome.Done?)
  {
    FileEnds(disk, cumulative, script);
    hide DownloadOne, Failures;
    var ran := DownloadOne(disk, cumulative, script);
    assert !GoesOn(script.turns, j);
  }

  // ---------- a server that answers in the end ----------

  /** Up to turn `k` there are only failures and refused ranges, at most MAX_RETRIES failures, and no
      cancellation; turn `k` brings a complete body. */
  predicate Recovers(script: seq<Turn>, k: nat) {
    && k < |script| && Completes(script[k]) && Failures(script, k) <= MAX_RETRIES
    && forall j :: 0 <= j < k ==> (Fails(script[j]) && !script[j].cancelledAsleep) || RangeRefused(script[j])
  }

  lemma {:induction false} FailuresGrow(script: seq<Turn>, i: nat, n: nat)
    requires i <= n <= |script|
    ensures Failures(script, i) <= Failures(script, n)
    decreases n
  {
    if i < n {
      FailuresGrow(script, i, n - 1);
    }
  }

  lemma {:induction false} RecoveryGoesOn(script: seq<Turn>, k: nat, j: nat)
    requires Recovers(script, k) && j < k
    ensures GoesOn(script, j)
  {
    FailuresGrow(script, j + 1, k);
  }

  /** Then the download is done, whatever is on disk. */
  lemma {:induction false} RecoveryIsDone(disk: Disk, cumulative: nat, script: Script, k: nat)
    requires Recovers(script.turns, k)
    ensures var ran := DownloadOne(disk, cumulative, script); ran.outcome.Done? && ran.turns <= k + 1
  {
    FileEnds(disk, cumulative, script);
    CompleteBodyEnds(disk, cumulative, script, k);
    hide DownloadOne, Failures;
    var ran := DownloadOne(disk, cumulative, script);
    if 0 < ran.turns <= k {
      RecoveryGoesOn(script.turns, k, ran.turns - 1);
      hide Recovers;
    }
  }

  /** And with an honest server whose complete body runs to the end, its destination is the remote file. */
  lemma {:induction false} RecoveryIsWhole(disk: Disk, cumulative: nat, script: Script, k: nat, remote: bytes, stale: bool)
    requires Recovers(script.turns, k) && !CutShort(script.turns[k], remote)
    requires disk.dest.None? && Fits(disk.part, remote, stale) && HonestServer(disk, cumulative, script, remote)
    ensures var ran := DownloadOne(disk, cumulative, script);
            ran.outcome.Done? && ran.local.disk == Disk(None, Some(remote))
  {
    RecoveryIsDone(disk, cumulative, script, k);
    ResumeIsCorrect(disk, cumulative, script, remote, stale);
    hide DownloadOne, HonestServer, Failures;
    var ran := DownloadOne(disk, cumulative, script);
    if 0 < ran.turns <= k {
      assert !CutShort(script.turns[ran.turns - 1], remote);
    }
  }

  // ---------- all files ----------

  ghost predicate RecoversSomewhere(script: Script) {
    exists k: nat :: Recovers(script.turns, k)
  }

  /** When every server answers in the end and nothing is cancelled, the whole download is done. */
  lemma {:induction false} AllFilesAreDone(disks: seq<Disk>, cumulative: nat, scripts: seq<FileScript>, i: nat)
    requires i <= |disks| == |scripts|
    requires forall k :: i <= k < |disks| ==> !scripts[k].cancelled && RecoversSomewhere(scripts[k].file)
    ensures FilesFrom(disks, cumulative, scripts, i).outcome.Done?
    decreases |disks| - i
  {
    hide DownloadOne, Recovers;
    if i < |disks| {
      if disks[i].dest.Some? {
        AllFilesAreDone(disks, cumulative, scripts, i + 1);
      } else {
        var k: nat :| Recovers(scripts[i].file.turns, k);
        RecoveryIsDone(disks[i], cumulative, scripts[i].file, k);
        var ran := DownloadOne(disks[i], cumulative, scripts[i].file);
        AllFilesAreDone(disks[i := ran.local.disk], ran.local.cumulative, scripts, i + 1);
      }
    }
  }

  /** Shard `k` had no destination, and its own download ended this way. */
  ghost predicate EndedAt(disks: seq<Disk>, scripts: seq<FileScript>, k: nat, outcome: Outcome)
    requires |disks| == |scripts|
  {
    && k < |disks|
    && ((scripts[k].cancelled && outcome.Cancelled?)
        || (disks[k].dest.None? && exists c: nat :: DownloadOne(disks[k], c, scripts[k].file).outcome == outcome))
  }

  /** A download that is not done has ended as the first shard did that is not; the shards after it
      are untouched. */
  lemma {:induction false} EndsAsTheFirstUnfinished(disks: seq<Disk>, cumulative: nat, scripts: seq<FileScript>, i: nat) returns (k: nat)
    requires i <= |disks| == |scripts| && !FilesFrom(disks, cumulative, scripts, i).outcome.Done?
    ensures var ran := FilesFrom(disks, cumulative, scripts, i);
            && i <= k && EndedAt(disks, scripts, k, ran.outcome) && |ran.disks| == |disks|
            && forall j :: k < j < |disks| ==> ran.disks[j] == disks[j]
    decreases |disks| - i
  {
    hide DownloadOne;
    if scripts[i].cancelled {
      k := i;
    } else if disks[i].dest.Some? {
      k := EndsAsTheFirstUnfinished(disks, cumulative, scripts, i + 1);
    } else {
      var ran := DownloadOne(disks[i], cumulative, scripts[i].file);
      if ran.outcome.Done? {
        var disks' := disks[i := ran.local.disk];
        k := EndsAsTheFirstUnfinished(disks', ran.local.cumulative, scripts, i + 1);
        assert disks'[k] == disks[k];
      } else {
        k := i;
      }
    }
  }
}
