/** What the downloader guarantees against an honest server, however often connections drop, streams
    break, ranges are ignored or refused, and whenever it is stopped. */
module DownloadProperties {
  import opened Text
  import opened Downloads

  // ---------- an honest server ----------

  predicate Known(size: Option<nat>, remote: bytes) {
    size.Some? ==> size.value == |remote|
  }

  /** The answer is true to the remote file: a 200 carries it from its start, and whole if the body
      is complete; a 206 answers the range that was asked for and carries bytes from there on. How far
      a 206 reaches is the server's choice (section 15.3.7 of RFC 9110). */
  predicate Honest(l: Local, turn: Turn, remote: bytes) {
    !turn.cancelled && turn.answer.Body? ==>
      var data := Concat(turn.answer.chunks);
      if turn.answer.partial then
        && 0 < l.fileBytes == turn.answer.first < |remote| && Known(turn.answer.total, remote)
        && data <= remote[turn.answer.first..]
      else
        Known(turn.answer.length, remote) && data <= remote && (turn.answer.ending.Clean? ==> data == remote)
  }

  predicate HonestRun(l: Local, script: seq<Turn>, i: nat, remote: bytes)
    requires i <= |script|
    decreases |script| - i
  {
    i < |script| ==>
      && Honest(l, script[i], remote)
      && (Step(l, script[i]).Continue? ==> HonestRun(Step(l, script[i]).local, script, i + 1, remote))
  }

  predicate HonestServer(disk: Disk, cumulative: nat, script: Script, remote: bytes) {
    && (script.head == 0 || script.head == |remote|)
    && var prepared := Prepare(disk, cumulative, script);
       prepared.Continue? ==> HonestRun(prepared.local, script.turns, 0, remote)
  }

  /** A complete 206 that stops before the end of the file. */
  predicate CutShort(turn: Turn, remote: bytes) {
    && !turn.cancelled && turn.answer.Body? && turn.answer.partial && turn.answer.ending.Clean?
    && turn.answer.first + |Concat(turn.answer.chunks)| < |remote|
  }

  // ---------- the partial file is a prefix, the destination is whole ----------

  /** A partial file is a prefix of the remote file, or else, when `stale` ones are allowed for, longer. */
  predicate Fits(part: Option<bytes>, remote: bytes, stale: bool) {
    part.Some? ==> part.value <= remote || (stale && |part.value| > |remote|)
  }

  /** What every turn of the loop keeps. */
  predicate Sound(l: Local, remote: bytes, stale: bool) {
    && l.disk.dest.None? && Fits(l.disk.part, remote, stale)
    && (l.fileBytes > 0 ==> l.disk.part.Some? && |l.disk.part.value| == l.fileBytes)
    && (l.fileTotal == 0 || l.fileTotal == |remote|)
  }

  /** How a file may end. */
  predicate EndsWell(outcome: Outcome, disk: Disk, cutShort: bool, remote: bytes, stale: bool) {
    if outcome.Done? then
      disk.part.None? && disk.dest.Some? && disk.dest.value <= remote && (disk.dest.value == remote <==> !cutShort)
    else
      disk.dest.None? && Fits(disk.part, remote, stale)
  }

  /** When a body's first chunk can be written, the partial file is exactly the bytes before it. */
  lemma {:induction false} OpenedIsPrefix(l: Local, turn: Turn, remote: bytes, stale: bool)
    requires Sound(l, remote, stale) && Honest(l, turn, remote) && !turn.cancelled && turn.answer.Body?
    ensures var o, data := Opened(l, turn), Concat(turn.answer.chunks);
            && o.fileBytes == (if turn.answer.partial then turn.answer.first else 0) <= |remote|
            && o.disk == Disk(Some(remote[..o.fileBytes]), None) && data <= remote[o.fileBytes..]
            && (o.fileTotal == 0 || o.fileTotal == |remote|) && o.retries == l.retries
  {
    hide Concat;
    if turn.answer.partial {
      assert l.disk.part.value == remote[..l.fileBytes];
      assert SetLen(l.disk.part.value, l.fileBytes) == l.disk.part.value;
    } else {
      assert remote[0..] == remote;
      assert remote[..0] == [];
    }
  }

  lemma {:induction false} ReceivedIsPrefix(l: Local, turn: Turn, remote: bytes, stale: bool)
    requires Sound(l, remote, stale) && Honest(l, turn, remote) && !turn.cancelled && turn.answer.Body?
    ensures var got := Append(Opened(l, turn), Concat(turn.answer.chunks));
            && got.fileBytes <= |remote| && got.disk == Disk(Some(remote[..got.fileBytes]), None)
            && Sound(got, remote, stale) && got.retries == l.retries
            && (turn.answer.ending.Clean? ==> (got.fileBytes == |remote| <==> !CutShort(turn, remote)))
  {
    OpenedIsPrefix(l, turn, remote, stale);
    hide Opened;
    var o, data := Opened(l, turn), Concat(turn.answer.chunks);
    assert remote[..o.fileBytes] + data == remote[..o.fileBytes + |data|];
  }

  /** What a step has to give: a sound state, or a good end. */
  predicate GoodNext(next: Next, cutShort: bool, remote: bytes, stale: bool) {
    match next
    case Continue(l) => Sound(l, remote, stale)
    case Stop(outcome, l) => EndsWell(outcome, l.disk, cutShort, remote, stale)
  }

  lemma {:induction false} ReceiveIsGood(l: Local, turn: Turn, remote: bytes, stale: bool)
    requires Sound(l, remote, stale) && Honest(l, turn, remote) && !turn.cancelled && turn.answer.Body?
    ensures GoodNext(Receive(l, turn), CutShort(turn, remote), remote, stale)
  {
    ReceivedIsPrefix(l, turn, remote, stale);
    hide Opened, Append, CutShort, Honest, Concat;
    var got := Append(Opened(l, turn), Concat(turn.answer.chunks));
    assert got.fileBytes == |remote| ==> remote[..got.fileBytes] == remote;
    assert got.fileBytes < |remote| ==> |remote[..got.fileBytes]| != |remote|;
  }

  lemma {:induction false} StepIsSound(l: Local, turn: Turn, remote: bytes, stale: bool)
    requires Sound(l, remote, stale) && Honest(l, turn, remote)
    ensures GoodNext(Step(l, turn), CutShort(turn, remote), remote, stale)
  {
    if !turn.cancelled && turn.answer.Body? {
      hide GoodNext, CutShort, Honest, Sound, Receive;
      ReceiveIsGood(l, turn, remote, stale);
    } else {
      hide Receive, Honest, Concat;
    }
  }

  lemma {:induction false} LoopIsSound(l: Local, script: seq<Turn>, i: nat, remote: bytes, stale: bool)
    requires i <= |script| && Sound(l, remote, stale) && HonestRun(l, script, i, remote)
    ensures var ran := Loop(l, script, i);
            && i <= ran.turns <= |script| && (ran.outcome.Done? ==> ran.turns > i)
            && EndsWell(ran.outcome, ran.local.disk, ran.turns > 0 && CutShort(script[ran.turns - 1], remote), remote, stale)
    decreases |script| - i
  {
    hide CutShort, Honest, Step;
    if i < |script| {
      StepIsSound(l, script[i], remote, stale);
      if Step(l, script[i]).Continue? {
        LoopIsSound(Step(l, script[i]).local, script, i + 1, remote, stale);
      }
    }
  }

  /** However the download goes, and wherever it is stopped: the partial file stays a prefix of the
      remote file, a destination appears only when the download is done, and then it is the whole
      file, except exactly when the answer that ended it was a complete 206 that stopped short. */
  lemma {:induction false} ResumeIsCorrect(disk: Disk, cumulative: nat, script: Script, remote: bytes, stale: bool)
    requires disk.dest.None? && Fits(disk.part, remote, stale) && HonestServer(disk, cumulative, script, remote)
    ensures var ran := DownloadOne(disk, cumulative, script);
            && ran.turns <= |script.turns|
            && EndsWell(ran.outcome, ran.local.disk, ran.turns > 0 && CutShort(script.turns[ran.turns - 1], remote), remote, stale)
  {
    var prepared := Prepare(disk, cumulative, script);
    if prepared.Continue? {
      LoopIsSound(prepared.local, script.turns, 0, remote, stale);
    }
  }

  /** The exception is real: a partial file of one byte, and a 206 that carries one more. */
  lemma {:induction false} ShortPartialLosesTheTail(remote: bytes)
    requires |remote| >= 3
    ensures var disk := Disk(Some(remote[..1]), None);
            var script := Script(|remote|, true,
              [Turn(false, Body(true, 1, None, Some(|remote|), [remote[1..2]], Clean), true, false)]);
            && HonestServer(disk, 1, script, remote)
            && DownloadOne(disk, 1, script).outcome.Done?
            && DownloadOne(disk, 1, script).local.disk.dest == Some(remote[..2]) && remote[..2] != remote
  {
    var chunk := remote[1..2];
    var turn := Turn(false, Body(true, 1, None, Some(|remote|), [chunk], Clean), true, false);
    assert [chunk][1..] == [];
    assert Concat([chunk]) == chunk + [] == chunk;
    var l := Local(Disk(Some(remote[..1]), None), 1, |remote|, 0, 1);
    assert SetLen(remote[..1], 1) == remote[..1];
    assert remote[..1] + chunk == remote[..2];
    assert chunk <= remote[1..];
    assert Step(l, turn) == Stop(Done, Local(Disk(None, Some(remote[..2])), 2, |remote|, 0, 2));
  }

  // ---------- at most 22 requests ----------

  /** A request without a range is answered 416. */
  predicate BareRefusal(l: Local, turn: Turn) {
    !turn.cancelled && turn.answer.RangeNotSatisfiable? && l.fileBytes == 0
  }

  /** How many of the turns taken from turn `i` on are such refusals. */
  function BareRefusals(l: Local, script: seq<Turn>, i: nat): nat
    requires i <= |script|
    decreases |script| - i
  {
    if i == |script| then 0
    else
      (if BareRefusal(l, script[i]) then 1 else 0)
      + match Step(l, script[i])
        case Stop(_, _) => 0
        case Continue(local) => BareRefusals(local, script, i + 1)
  }

  /** How many more turns there can be besides bare refusals. */
  function TurnsLeft(l: Local): int {
    2 * (MAX_RETRIES - l.retries) + 1 + if l.fileBytes > 0 then 1 else 0
  }

  lemma {:induction false} StepSpendsATurn(l: Local, turn: Turn)
    requires l.retries <= MAX_RETRIES
    ensures var next := Step(l, turn);
            next.Continue? ==>
              && next.local.retries <= MAX_RETRIES
              && TurnsLeft(next.local) + 1 <= TurnsLeft(l) + if BareRefusal(l, turn) then 1 else 0
  {
    hide Concat, SetLen;
  }

  lemma {:induction false} LoopIsBounded(l: Local, script: seq<Turn>, i: nat)
    requires i <= |script| && l.retries <= MAX_RETRIES
    ensures Loop(l, script, i).turns <= i + TurnsLeft(l) + BareRefusals(l, script, i)
    decreases |script| - i
  {
    hide Step, BareRefusal;
    if i < |script| {
      StepSpendsATurn(l, script[i]);
      if Step(l, script[i]).Continue? {
        LoopIsBounded(Step(l, script[i]).local, script, i + 1);
      }
    }
  }

  /** The bare refusals of one file's download. */
  function AllBareRefusals(disk: Disk, cumulative: nat, script: Script): nat {
    match Prepare(disk, cumulative, script)
    case Stop(_, _) => 0
    case Continue(local) => BareRefusals(local, script.turns, 0)
  }

  /** Whatever the server does, one file takes at most 2 * (MAX_RETRIES + 1) requests besides those
      without a range that are answered 416, which nothing counts. */
  lemma {:induction false} AtMost22Requests(disk: Disk, cumulative: nat, script: Script)
    ensures DownloadOne(disk, cumulative, script).turns <= 22 + AllBareRefusals(disk, cumulative, script)
  {
    var prepared := Prepare(disk, cumulative, script);
    if prepared.Continue? {
      LoopIsBounded(prepared.local, script.turns, 0);
    }
  }

  /** Refused ranges and streams that break once everything has arrived, in turn. */
  function WorstTurn(remote: bytes, i: nat): Turn {
    if i % 2 == 0 then Turn(false, RangeNotSatisfiable, true, false)
    else Turn(false, Body(false, 0, None, None, [remote], Broken), true, false)
  }

  function WorstTurns(remote: bytes): seq<Turn> {
    seq(22, i requires 0 <= i => WorstTurn(remote, i))
  }

  lemma {:induction false} WorstLoop(remote: bytes, i: nat)
    requires |remote| == 1 && i <= 20 && i % 2 == 0
    ensures var l := Local(Disk(Some(remote), None), 1, 0, i / 2, 1);
            && Loop(l, WorstTurns(remote), i).turns == 22
            && HonestRun(l, WorstTurns(remote), i, remote) && BareRefusals(l, WorstTurns(remote), i) == 0
    decreases 20 - i
  {
    var script := WorstTurns(remote);
    var l := Local(Disk(Some(remote), None), 1, 0, i / 2, 1);
    var bare := Local(Disk(None, None), 0, 0, i / 2, 0);
    assert Step(l, script[i]) == Continue(bare);
    assert [remote][1..] == [] && Concat([remote]) == remote + [] == remote;
    assert SetLen([], 0) == [] && [] + remote == remote;
    assert Opened(bare, script[i + 1]) == Local(Disk(Some([]), None), 0, 0, i / 2, 0);
    if i < 20 {
      assert Step(bare, script[i + 1]) == Continue(Local(Disk(Some(remote), None), 1, 0, (i + 2) / 2, 1));
      WorstLoop(remote, i + 2);
    } else {
      assert Step(bare, script[i + 1]) == Stop(Failed, Local(Disk(Some(remote), None), 1, 0, 10, 1));
    }
  }

  /** The bound is met by an honest server that refuses no bare request. */
  lemma {:induction false} TwentyTwoRequestsHappen(remote: bytes)
    requires |remote| == 1
    ensures var disk, script := Disk(Some(remote), None), Script(0, true, WorstTurns(remote));
            && HonestServer(disk, 1, script, remote) && AllBareRefusals(disk, 1, script) == 0
            && DownloadOne(disk, 1, script).turns == 22
  {
    WorstLoop(remote, 0);
  }

  /** Bare refusals themselves have no bound. */
  lemma {:induction false} BareRefusalsAreEndless(l: Local, n: nat, i: nat)
    requires i <= n && l.fileBytes == 0
    ensures var script := seq(n, _ => Turn(false, RangeNotSatisfiable, false, false));
            Loop(l, script, i).outcome.Pending? && Loop(l, script, i).turns == n && BareRefusals(l, script, i) == n - i
    decreases n - i
  {
    if i < n {
      var script := seq(n, _ => Turn(false, RangeNotSatisfiable, false, false));
      BareRefusalsAreEndless(Step(l, script[i]).local, n, i + 1);
    }
  }

  // ---------- the cumulative count is exact ----------

  /** `others` bytes are on disk for the other shards; the rest of the count is this file's. */
  predicate Counted(l: Local, others: nat) {
    && l.cumulative == others + l.fileBytes
    && (l.fileBytes > 0 ==> l.disk.part.Some? && |l.disk.part.value| == l.fileBytes)
  }

  predicate AllRemoved(script: Script) {
    script.removed && forall i :: 0 <= i < |script.turns| ==> script.turns[i].removed
  }

  /** Nothing is on disk but the bytes that count. */
  predicate Exact(l: Local) {
    l.disk.dest.None? && l.fileBytes == PartLen(l.disk)
  }

  lemma {:induction false} OpenedLength(l: Local, turn: Turn)
    requires turn.answer.Body?
    ensures var o := Opened(l, turn); o.disk.part.Some? && |o.disk.part.value| == o.fileBytes && o.disk.dest == l.disk.dest
  {
  }

  lemma {:induction false} StepCounts(l: Local, turn: Turn, others: nat)
    requires Counted(l, others)
    ensures var next := Step(l, turn);
            && next.local.cumulative == others + next.local.fileBytes
            && (next.Continue? ==> Counted(next.local, others))
            && (next.Stop? && next.outcome.Done? ==> next.local.disk.dest.Some? && |next.local.disk.dest.value| == next.local.fileBytes)
    ensures var next := Step(l, turn);
            Exact(l) && turn.removed && (next.Continue? || next.outcome.Failed? || next.outcome.Pending?) ==> Exact(next.local)
  {
    if !turn.cancelled && turn.answer.Body? {
      OpenedLength(l, turn);
      hide SetLen, Concat;
    }
  }

  lemma {:induction false} LoopCounts(l: Local, script: seq<Turn>, i: nat, others: nat)
    requires i <= |script| && Counted(l, others)
    ensures var ran := Loop(l, script, i);
            && ran.local.cumulative == others + ran.local.fileBytes
            && (ran.outcome.Done? ==> ran.local.disk.dest.Some? && |ran.local.disk.dest.value| == ran.local.fileBytes)
    ensures var ran := Loop(l, script, i);
            Exact(l) && (forall j :: 0 <= j < |script| ==> script[j].removed) && !ran.outcome.Done? && !ran.outcome.Cancelled?
            ==> Exact(ran.local)
    decreases |script| - i
  {
    hide Step, Counted, Exact;
    if i < |script| {
      StepCounts(l, script[i], others);
      if Step(l, script[i]).Continue? {
        LoopCounts(Step(l, script[i]).local, script, i + 1, others);
      }
    } else {
      CountedMeans(l, others);
    }
  }

  lemma {:induction false} CountedMeans(l: Local, others: nat)
    requires Counted(l, others)
    ensures l.cumulative == others + l.fileBytes
  {
  }

  /** The count never loses or gains a byte, whatever the server does: it is the other shards' bytes
      and this file's, so no subtraction of this file's bytes from it saturates. While the file is worked on, and after it
      is done or has failed, that is what is on disk, as long as removals succeed. */
  lemma {:induction false} CountIsExact(disk: Disk, others: nat, script: Script)
    requires disk.dest.None?
    ensures var ran := DownloadOne(disk, others + OnDisk(disk), script);
            && ran.local.cumulative == others + ran.local.fileBytes
            && (ran.outcome.Done? || (AllRemoved(script) && !ran.outcome.Cancelled?) ==>
                  ran.local.cumulative == others + OnDisk(ran.local.disk))
  {
    var prepared := Prepare(disk, others + OnDisk(disk), script);
    if prepared.Continue? {
      hide Step;
      LoopCounts(prepared.local, script.turns, 0, others);
    }
  }

  // ---------- all files ----------

  lemma {:induction false} TotalOfUpdate(disks: seq<Disk>, i: nat, disk: Disk, n: nat)
    requires i < |disks| && n <= |disks|
    ensures TotalOnDisk(disks[i := disk], n) == TotalOnDisk(disks, n) + if i < n then OnDisk(disk) - OnDisk(disks[i]) else 0
    decreases n
  {
    if n > 0 {
      TotalOfUpdate(disks, i, disk, n - 1);
    }
  }

  lemma {:induction false} TotalCoversEach(disks: seq<Disk>, i: nat, n: nat)
    requires i < n <= |disks|
    ensures OnDisk(disks[i]) <= TotalOnDisk(disks, n)
    decreases n
  {
    if i < n - 1 {
      TotalCoversEach(disks, i, n - 1);
    }
  }

  predicate AllFilesRemoved(scripts: seq<FileScript>) {
    forall i :: 0 <= i < |scripts| ==> AllRemoved(scripts[i].file)
  }

  /** The count of the whole download is what is on disk, when it is done and wherever it stops
      except at a cancellation. */
  lemma {:induction false} TotalIsExact(disks: seq<Disk>, scripts: seq<FileScript>, i: nat)
    requires i <= |disks| == |scripts| && AllFilesRemoved(scripts)
    ensures var ran := FilesFrom(disks, TotalOnDisk(disks, |disks|), scripts, i);
            |ran.disks| == |disks| && (!ran.outcome.Cancelled? ==> ran.cumulative == TotalOnDisk(ran.disks, |disks|))
    decreases |disks| - i
  {
    hide DownloadOne;
    if i < |disks| && !scripts[i].cancelled {
      if disks[i].dest.Some? {
        TotalIsExact(disks, scripts, i + 1);
      } else {
        var total := TotalOnDisk(disks, |disks|);
        TotalCoversEach(disks, i, |disks|);
        var ran := DownloadOne(disks[i], total, scripts[i].file);
        CountIsExact(disks[i], total - OnDisk(disks[i]), scripts[i].file);
        TotalOfUpdate(disks, i, ran.local.disk, |disks|);
        assert AllRemoved(scripts[i].file);
        if ran.outcome.Done? {
          TotalIsExact(disks[i := ran.local.disk], scripts, i + 1);
        }
      }
    }
  }

  // ---------- the session's count ----------

  /** The bytes a turn receives, and those of this file that it makes count no more: an ignored range,
      or a range that was refused. */
  function TurnReceives(turn: Turn): nat {
    if !turn.cancelled && turn.answer.Body? then |Concat(turn.answer.chunks)| else 0
  }

  function TurnDiscards(l: Local, turn: Turn): nat {
    if turn.cancelled then 0
    else
      match turn.answer
      case RangeNotSatisfiable => if l.fileTotal > 0 && l.fileBytes == l.fileTotal then 0 else l.fileBytes
      case Body(partial, _, _, _, _, _) => if partial then 0 else l.fileBytes
      case _ => 0
  }

  function LoopReceives(l: Local, script: seq<Turn>, i: nat): nat
    requires i <= |script|
    decreases |script| - i
  {
    if i == |script| then 0
    else
      TurnReceives(script[i])
      + match Step(l, script[i])
        case Stop(_, _) => 0
        case Continue(local) => LoopReceives(local, script, i + 1)
  }

  function LoopDiscards(l: Local, script: seq<Turn>, i: nat): nat
    requires i <= |script|
    decreases |script| - i
  {
    if i == |script| then 0
    else
      TurnDiscards(l, script[i])
      + match Step(l, script[i])
        case Stop(_, _) => 0
        case Continue(local) => LoopDiscards(local, script, i + 1)
  }

  function FileReceives(disk: Disk, cumulative: nat, script: Script): nat {
    match Prepare(disk, cumulative, script)
    case Stop(_, _) => 0
    case Continue(local) => LoopReceives(local, script.turns, 0)
  }

  /** An oversized partial file is discarded before the loop. */
  function FileDiscards(disk: Disk, cumulative: nat, script: Script): nat {
    (if script.head > 0 && PartLen(disk) > script.head then PartLen(disk) else 0)
    + match Prepare(disk, cumulative, script)
      case Stop(_, _) => 0
      case Continue(local) => LoopDiscards(local, script.turns, 0)
  }

  /** What the files from `i` on receive in one run, and what they discard. */
  function Receives(disks: seq<Disk>, cumulative: nat, scripts: seq<FileScript>, i: nat): nat
    requires i <= |disks| == |scripts|
    decreases |disks| - i
  {
    if i == |disks| || scripts[i].cancelled then 0
    else if disks[i].dest.Some? then Receives(disks, cumulative, scripts, i + 1)
    else
      var ran := DownloadOne(disks[i], cumulative, scripts[i].file);
      FileReceives(disks[i], cumulative, scripts[i].file)
      + if ran.outcome.Done? then Receives(disks[i := ran.local.disk], ran.local.cumulative, scripts, i + 1) else 0
  }

  function Discards(disks: seq<Disk>, cumulative: nat, scripts: seq<FileScript>, i: nat): nat
    requires i <= |disks| == |scripts|
    decreases |disks| - i
  {
    if i == |disks| || scripts[i].cancelled then 0
    else if disks[i].dest.Some? then Discards(disks, cumulative, scripts, i + 1)
    else
      var ran := DownloadOne(disks[i], cumulative, scripts[i].file);
      FileDiscards(disks[i], cumulative, scripts[i].file)
      + if ran.outcome.Done? then Discards(disks[i := ran.local.disk], ran.local.cumulative, scripts, i + 1) else 0
  }

  lemma {:induction false} StepBalances(l: Local, turn: Turn, others: nat)
    requires Counted(l, others)
    ensures Step(l, turn).local.cumulative + TurnDiscards(l, turn) == l.cumulative + TurnReceives(turn)
  {
    hide SetLen, Concat;
  }

  lemma {:induction false} LoopBalances(l: Local, script: seq<Turn>, i: nat, others: nat)
    requires i <= |script| && Counted(l, others)
    ensures Loop(l, script, i).local.cumulative + LoopDiscards(l, script, i) == l.cumulative + LoopReceives(l, script, i)
    decreases |script| - i
  {
    hide Step, Counted, TurnReceives, TurnDiscards;
    if i < |script| {
      StepBalances(l, script[i], others);
      StepCounts(l, script[i], others);
      if Step(l, script[i]).Continue? {
        LoopBalances(Step(l, script[i]).local, script, i + 1, others);
      }
    }
  }

  lemma {:induction false} FileBalances(disk: Disk, others: nat, script: Script)
    requires disk.dest.None?
    ensures var start := others + OnDisk(disk);
            DownloadOne(disk, start, script).local.cumulative + FileDiscards(disk, start, script)
              == start + FileReceives(disk, start, script)
  {
    var prepared := Prepare(disk, others + OnDisk(disk), script);
    if prepared.Continue? {
      hide Step;
      LoopBalances(prepared.local, script.turns, 0, others);
    }
  }

  lemma {:induction false} RunBalances(disks: seq<Disk>, scripts: seq<FileScript>, i: nat)
    requires i <= |disks| == |scripts|
    ensures var total := TotalOnDisk(disks, |disks|);
            FilesFrom(disks, total, scripts, i).cumulative + Discards(disks, total, scripts, i)
              == total + Receives(disks, total, scripts, i)
    decreases |disks| - i
  {
    hide DownloadOne, FileReceives, FileDiscards;
    if i < |disks| && !scripts[i].cancelled {
      if disks[i].dest.Some? {
        RunBalances(disks, scripts, i + 1);
      } else {
        var total := TotalOnDisk(disks, |disks|);
        TotalCoversEach(disks, i, |disks|);
        var others := total - OnDisk(disks[i]);
        var ran := DownloadOne(disks[i], total, scripts[i].file);
        CountIsExact(disks[i], others, scripts[i].file);
        FileBalances(disks[i], others, scripts[i].file);
        TotalOfUpdate(disks, i, ran.local.disk, |disks|);
        if ran.outcome.Done? {
          RunBalances(disks[i := ran.local.disk], scripts, i + 1);
        }
      }
    }
  }

  /** The one subtraction that can saturate takes the bytes on disk before the first file from the
      count, for the session's speed. Wherever a run over all files stands, it saturates exactly when
      more bytes were discarded so far, in ignored or refused ranges and oversized partial files, than
      were received, over all files together. */
  lemma {:induction false} SessionSaturatesIff(disks: seq<Disk>, scripts: seq<FileScript>)
    requires |disks| == |scripts|
    ensures var bytesAtStart := TotalOnDisk(disks, |disks|);
            var cumulative := DownloadAll(disks, scripts).cumulative;
            SaturatingSub(cumulative, bytesAtStart) != cumulative - bytesAtStart <==>
              Discards(disks, bytesAtStart, scripts, 0) > Receives(disks, bytesAtStart, scripts, 0)
  {
    RunBalances(disks, scripts, 0);
  }

  /** It does saturate, with an honest server: the range is ignored and the file starts again. */
  lemma {:induction false} RestartSaturatesSession(remote: bytes)
    requires |remote| >= 3
    ensures var disk := Disk(Some(remote[..2]), None);
            var script := Script(|remote|, true, [Turn(false, Body(false, 0, None, None, [remote[..1]], StillOpen), true, false)]);
            && HonestServer(disk, 2, script, remote) && TotalOnDisk([disk], 1) == 2
            && DownloadAll([disk], [FileScript(false, script)]).cumulative == 1
  {
    var chunk := remote[..1];
    var turn := Turn(false, Body(false, 0, None, None, [chunk], StillOpen), true, false);
    var disk := Disk(Some(remote[..2]), None);
    var script := Script(|remote|, true, [turn]);
    var l := Local(disk, 2, |remote|, 0, 2);
    assert [chunk][1..] == [] && Concat([chunk]) == chunk + [] == chunk && chunk <= remote;
    assert SetLen([], 0) == [] && [] + chunk == chunk;
    assert Opened(l, turn) == Local(Disk(Some([]), None), 0, |remote|, 0, 0);
    assert Step(l, turn) == Stop(Pending, Local(Disk(Some(chunk), None), 1, |remote|, 0, 1));
    assert DownloadOne(disk, 2, script).local.cumulative == 1;
    assert TotalOnDisk([disk], 0) == 0;
  }

  // ---------- every file arrives ----------

  /** Every server is honest about its file along the run. */
  predicate HonestFrom(disks: seq<Disk>, cumulative: nat, scripts: seq<FileScript>, remotes: seq<bytes>, i: nat)
    requires i <= |disks| == |scripts| == |remotes|
    decreases |disks| - i
  {
    i == |disks| || scripts[i].cancelled
    || (if disks[i].dest.Some? then HonestFrom(disks, cumulative, scripts, remotes, i + 1)
        else
          var ran := DownloadOne(disks[i], cumulative, scripts[i].file);
          && HonestServer(disks[i], cumulative, scripts[i].file, remotes[i])
          && (ran.outcome.Done? ==> HonestFrom(disks[i := ran.local.disk], ran.local.cumulative, scripts, remotes, i + 1)))
  }

  /** No complete 206 stops before its file's end. */
  predicate RunsToTheEnd(script: Script, remote: bytes) {
    forall i :: 0 <= i < |script.turns| ==> !CutShort(script.turns[i], remote)
  }

  predicate DiskFits(disk: Disk, remote: bytes) {
    if disk.dest.Some? then disk.dest.value == remote else Fits(disk.part, remote, true)
  }

  predicate AllFit(disks: seq<Disk>, remotes: seq<bytes>) {
    |disks| == |remotes| && forall i :: 0 <= i < |disks| ==> DiskFits(disks[i], remotes[i])
  }

  lemma {:induction false} OneFileFits(disk: Disk, cumulative: nat, script: Script, remote: bytes)
    requires disk.dest.None? && DiskFits(disk, remote)
    requires HonestServer(disk, cumulative, script, remote) && RunsToTheEnd(script, remote)
    ensures var ran := DownloadOne(disk, cumulative, script);
            DiskFits(ran.local.disk, remote) && (ran.outcome.Done? ==> ran.local.disk.dest == Some(remote))
  {
    ResumeIsCorrect(disk, cumulative, script, remote, true);
    hide DownloadOne, HonestServer, CutShort;
    var ran := DownloadOne(disk, cumulative, script);
    if ran.turns > 0 {
      assert !CutShort(script.turns[ran.turns - 1], remote);
    }
  }

  /** When every file's download is done, every destination is its remote file; wherever the
      downloads stop, no destination holds anything else, and what is partial can be resumed. */
  lemma {:induction false} AllFilesArrive(disks: seq<Disk>, cumulative: nat, scripts: seq<FileScript>, remotes: seq<bytes>, i: nat)
    requires i <= |disks| == |scripts| && AllFit(disks, remotes)
    requires HonestFrom(disks, cumulative, scripts, remotes, i)
    requires forall k :: i <= k < |disks| ==> RunsToTheEnd(scripts[k].file, remotes[k])
    requires forall k :: 0 <= k < i ==> disks[k].dest.Some?
    ensures var ran := FilesFrom(disks, cumulative, scripts, i);
            && AllFit(ran.disks, remotes)
            && (ran.outcome.Done? ==> forall k :: 0 <= k < |disks| ==> ran.disks[k].dest == Some(remotes[k]))
    decreases |disks| - i
  {
    hide DownloadOne, DiskFits, HonestServer, RunsToTheEnd;
    if i == |disks| {
      forall k | 0 <= k < |disks| ensures disks[k].dest == Some(remotes[k]) {
        WholeWhenPresent(disks[k], remotes[k]);
      }
    } else if !scripts[i].cancelled {
      if disks[i].dest.Some? {
        AllFilesArrive(disks, cumulative, scripts, remotes, i + 1);
      } else {
        var ran := DownloadOne(disks[i], cumulative, scripts[i].file);
        OneFileFits(disks[i], cumulative, scripts[i].file, remotes[i]);
        if ran.outcome.Done? {
          AllFilesArrive(disks[i := ran.local.disk], ran.local.cumulative, scripts, remotes, i + 1);
        }
      }
    }
  }

  lemma {:induction false} WholeWhenPresent(disk: Disk, remote: bytes)
    requires DiskFits(disk, remote) && disk.dest.Some?
    ensures disk.dest == Some(remote)
  {
  }
}
