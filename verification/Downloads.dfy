/** The resumable sharded downloader of goose-download-manager (lib.rs) against a server that may
    drop connections, break streams, ignore ranges or refuse them. */
module Downloads {
  import opened Text

  newtype byte = x: int | 0 <= x < 256
  type bytes = seq<byte>

  const MAX_RETRIES := 10

  // ---------- what the outside may do ----------

  /** How a response body ends, as the client sees it. */
  datatype Ending =
    | Clean          // the body is complete
    | Broken         // the stream fails
    | StillOpen      // no more has arrived so far
    | CancelSeen     // one more chunk arrives, and the download is found cancelled

  datatype Answer =
    | NoConnection
    | RangeNotSatisfiable
    | Refused(transient: bool)
    // 206 when `partial`, with a Content-Range that starts at `first`; otherwise 200
    | Body(partial: bool, first: nat, length: Option<nat>, total: Option<nat>, chunks: seq<bytes>, ending: Ending)

  /** One turn of the request loop: whether it finds the download cancelled, what the request is
      answered, whether removing the partial file succeeds, and whether a cancellation is seen
      during the back-off sleep. */
  datatype Turn = Turn(cancelled: bool, answer: Answer, removed: bool, cancelledAsleep: bool)

  /** A shard on disk: its partial file and its destination. */
  datatype Disk = Disk(part: Option<bytes>, dest: Option<bytes>)

  // ---------- one file ----------

  /** What the loop of `download_one_file` works on. */
  datatype Local = Local(disk: Disk, fileBytes: nat, fileTotal: nat, retries: nat, cumulative: nat)

  datatype Outcome = Done | Cancelled | Failed | Pending

  datatype Next = Continue(local: Local) | Stop(outcome: Outcome, local: Local)

  function SaturatingSub(a: nat, b: nat): nat {
    if a < b then 0 else a - b
  }

  function Concat(chunks: seq<bytes>): bytes {
    if chunks == [] then [] else chunks[0] + Concat(chunks[1..])
  }

  function Zeros(n: nat): bytes {
    seq(n, i => 0)
  }

  /** `set_len`. */
  function SetLen(content: bytes, n: nat): bytes {
    if n <= |content| then content[..n] else content + Zeros(n - |content|)
  }

  function PartLen(disk: Disk): nat {
    if disk.part.Some? then |disk.part.value| else 0
  }

  function RemovePart(disk: Disk, removed: bool): Disk {
    if removed then disk.(part := None) else disk
  }

  /** Forget what was downloaded of this file. */
  function Reset(l: Local, removed: bool): Local {
    l.(cumulative := SaturatingSub(l.cumulative, l.fileBytes), fileBytes := 0, disk := RemovePart(l.disk, removed))
  }

  /** Renaming the partial file; it fails when there is none. */
  function Promote(l: Local): Next {
    if l.disk.part.Some? then Stop(Done, l.(disk := Disk(None, l.disk.part))) else Stop(Failed, l)
  }

  function RetryOrFail(l: Local, turn: Turn): Next {
    if l.retries >= MAX_RETRIES then Stop(Failed, l)
    else if turn.cancelledAsleep then Stop(Cancelled, l.(retries := l.retries + 1))
    else Continue(l.(retries := l.retries + 1))
  }

  function LearnTotal(l: Local, answer: Answer): Local
    requires answer.Body?
  {
    if l.fileTotal != 0 then l
    else
      match if l.fileBytes > 0 then answer.total else answer.length
      case Some(t) => l.(fileTotal := t)
      case None => l
  }

  /** Opening the partial file for appending, cut or extended to the bytes that count. */
  function OpenPart(l: Local): Local {
    l.(disk := l.disk.(part := Some(SetLen(if l.disk.part.Some? then l.disk.part.value else [], l.fileBytes))))
  }

  function Append(l: Local, data: bytes): Local
    requires l.disk.part.Some?
  {
    l.(disk := l.disk.(part := Some(l.disk.part.value + data)),
       fileBytes := l.fileBytes + |data|, cumulative := l.cumulative + |data|)
  }

  /** The file as it is when a body's first chunk can be written. */
  function Opened(l: Local, turn: Turn): Local
    requires turn.answer.Body?
  {
    var started := if l.fileBytes > 0 && !turn.answer.partial then Reset(l, turn.removed) else l;
    OpenPart(LearnTotal(started, turn.answer))
  }

  function Receive(l: Local, turn: Turn): Next
    requires turn.answer.Body?
  {
    var got := Append(Opened(l, turn), Concat(turn.answer.chunks));
    match turn.answer.ending
    case Clean => Promote(got)
    case Broken => RetryOrFail(got, turn)
    case StillOpen => Stop(Pending, got)
    case CancelSeen => Stop(Cancelled, got.(disk := RemovePart(got.disk, turn.removed)))
  }

  /** One turn of the loop. */
  function Step(l: Local, turn: Turn): Next {
    if turn.cancelled then Stop(Cancelled, l.(disk := RemovePart(l.disk, turn.removed)))
    else
      match turn.answer
      case NoConnection => RetryOrFail(l, turn)
      case RangeNotSatisfiable =>
        if l.fileTotal > 0 && l.fileBytes == l.fileTotal then Promote(l) else Continue(Reset(l, turn.removed))
      case Refused(transient) => if transient then RetryOrFail(l, turn) else Stop(Failed, l)
      case Body(_, _, _, _, _, _) => Receive(l, turn)
  }

  /** How the loop ends: its outcome, where it stands, and how many turns it took. */
  datatype Ran = Ran(outcome: Outcome, local: Local, turns: nat)

  /** The loop from turn `i` of a script on; a script that is used up leaves it pending. */
  function Loop(l: Local, script: seq<Turn>, i: nat): Ran
    requires i <= |script|
    decreases |script| - i
  {
    if i == |script| then Ran(Pending, l, i)
    else
      match Step(l, script[i])
      case Stop(outcome, local) => Ran(outcome, local, i + 1)
      case Continue(local) => Loop(local, script, i + 1)
  }

  /** What the outside does during one file: the size its HEAD reports (0 when it reports none),
      whether a first removal succeeds, and the turns. */
  datatype Script = Script(head: nat, removed: bool, turns: seq<Turn>)

  /** What precedes the loop: an exact partial file is promoted, an oversized one is discarded. */
  function Prepare(disk: Disk, cumulative: nat, script: Script): Next {
    var l := Local(disk, PartLen(disk), script.head, 0, cumulative);
    if script.head > 0 && l.fileBytes == script.head then Promote(l)
    else if script.head > 0 && l.fileBytes > script.head then Continue(Reset(l, script.removed))
    else Continue(l)
  }

  function DownloadOne(disk: Disk, cumulative: nat, script: Script): Ran {
    match Prepare(disk, cumulative, script)
    case Stop(outcome, local) => Ran(outcome, local, 0)
    case Continue(local) => Loop(local, script.turns, 0)
  }

  // ---------- all files in turn ----------

  datatype FileScript = FileScript(cancelled: bool, file: Script)

  datatype AllRan = AllRan(outcome: Outcome, disks: seq<Disk>, cumulative: nat)

  /** The files from `i` on. */
  function FilesFrom(disks: seq<Disk>, cumulative: nat, scripts: seq<FileScript>, i: nat): AllRan
    requires i <= |disks| == |scripts|
    decreases |disks| - i
  {
    if i == |disks| then AllRan(Done, disks, cumulative)
    else if scripts[i].cancelled then AllRan(Cancelled, disks, cumulative)
    else if disks[i].dest.Some? then FilesFrom(disks, cumulative, scripts, i + 1)
    else
      var ran := DownloadOne(disks[i], cumulative, scripts[i].file);
      var disks' := disks[i := ran.local.disk];
      if ran.outcome.Done? then FilesFrom(disks', ran.local.cumulative, scripts, i + 1)
      else AllRan(ran.outcome, disks', ran.local.cumulative)
  }

  /** The bytes of a shard that the pre-scan counts. */
  function OnDisk(disk: Disk): nat {
    if disk.dest.Some? then |disk.dest.value| else PartLen(disk)
  }

  function TotalOnDisk(disks: seq<Disk>, n: nat): nat
    requires n <= |disks|
  {
    if n == 0 then 0 else TotalOnDisk(disks, n - 1) + OnDisk(disks[n - 1])
  }

  function DownloadAll(disks: seq<Disk>, scripts: seq<FileScript>): AllRan
    requires |disks| == |scripts|
  {
    FilesFrom(disks, TotalOnDisk(disks, |disks|), scripts, 0)
  }

  // ---------- the loops as the source writes them ----------

  /** A shard's two files on disk. */
  class Shard {
    var part: Option<bytes>
    var dest: Option<bytes>

    constructor (part: Option<bytes>, dest: Option<bytes>)
      ensures Value() == Disk(part, dest)
    {
      this.part, this.dest := part, dest;
    }

    ghost function Value(): Disk
      reads this
    {
      Disk(part, dest)
    }

    method Remove(removed: bool)
      modifies this`part
      ensures Value() == RemovePart(old(Value()), removed)
    {
      if removed {
        part := None;
      }
    }

    method Rename() returns (outcome: Outcome)
      modifies this
      ensures outcome == (if old(part).Some? then Done else Failed)
      ensures Value() == if old(part).Some? then Disk(None, old(part)) else old(Value())
    {
      if part.Some? {
        part, dest := None, part;
        outcome := Done;
      } else {
        outcome := Failed;
      }
    }

    /** `create`, `append` and, when the length differs, `set_len`. */
    method Open(fileBytes: nat)
      modifies this`part
      ensures Value() == OpenPart(Local(old(Value()), fileBytes, 0, 0, 0)).disk
    {
      if part.None? {
        part := Some([]);
      }
      if |part.value| != fileBytes {
        part := Some(SetLen(part.value, fileBytes));
      } else {
        assert part.value[..fileBytes] == part.value;
      }
    }
  }

  lemma {:induction false} ConcatAppend(a: seq<bytes>, b: seq<bytes>)
    ensures Concat(a + b) == Concat(a) + Concat(b)
    decreases |a|
  {
    if a == [] {
      assert a + b == b;
    } else {
      assert (a + b)[1..] == a[1..] + b;
      ConcatAppend(a[1..], b);
    }
  }

  lemma {:induction false} ConcatSnoc(chunks: seq<bytes>, i: nat)
    requires i < |chunks|
    ensures Concat(chunks[..i + 1]) == Concat(chunks[..i]) + chunks[i]
  {
    assert chunks[..i + 1] == chunks[..i] + [chunks[i]];
    ConcatAppend(chunks[..i], [chunks[i]]);
    assert [chunks[i]][1..] == [];
  }

  lemma {:induction false} Assoc(a: bytes, b: bytes, c: bytes)
    ensures (a + b) + c == a + (b + c)
  {
  }

  /** The body's chunks, each written as it arrives. */
  method WriteChunks(shard: Shard, chunks: seq<bytes>, fileBytes: nat, cumulative: nat)
    returns (fileBytes': nat, cumulative': nat)
    requires shard.part.Some?
    modifies shard`part
    ensures shard.part == Some(old(shard.part.value) + Concat(chunks))
    ensures fileBytes' == fileBytes + |Concat(chunks)| && cumulative' == cumulative + |Concat(chunks)|
  {
    fileBytes', cumulative' := fileBytes, cumulative;
    var i := 0;
    assert chunks[..0] == [];
    assert old(shard.part.value) + [] == old(shard.part.value);
    while i < |chunks|
      invariant 0 <= i <= |chunks|
      invariant shard.part == Some(old(shard.part.value) + Concat(chunks[..i]))
      invariant fileBytes' == fileBytes + |Concat(chunks[..i])| && cumulative' == cumulative + |Concat(chunks[..i])|
    {
      ConcatSnoc(chunks, i);
      Assoc(old(shard.part.value), Concat(chunks[..i]), chunks[i]);
      shard.part := Some(shard.part.value + chunks[i]);
      fileBytes' := fileBytes' + |chunks[i]|;
      cumulative' := cumulative' + |chunks[i]|;
      i := i + 1;
    }
    assert chunks[..i] == chunks;
  }

  /** A success answer up to the end of its body: restart if the range was ignored, learn the total,
      open the partial file at the bytes that count, and write the chunks. */
  method WriteBody(shard: Shard, turn: Turn, fileBytes: nat, fileTotal: nat, ghost retries: nat, cumulative: nat)
    returns (fileBytes': nat, fileTotal': nat, cumulative': nat)
    requires turn.answer.Body?
    modifies shard`part
    ensures Local(shard.Value(), fileBytes', fileTotal', retries, cumulative') ==
            Append(Opened(Local(old(shard.Value()), fileBytes, fileTotal, retries, cumulative), turn), Concat(turn.answer.chunks))
  {
    hide SetLen, Concat;
    fileBytes', fileTotal', cumulative' := fileBytes, fileTotal, cumulative;
    if fileBytes' > 0 && !turn.answer.partial {
      cumulative' := SaturatingSub(cumulative', fileBytes');
      fileBytes' := 0;
      shard.Remove(turn.removed);
    }
    if fileTotal' == 0 {
      var newFileTotal := if fileBytes' > 0 then turn.answer.total else turn.answer.length;
      if newFileTotal.Some? {
        fileTotal' := newFileTotal.value;
      }
    }
    shard.Open(fileBytes');
    fileBytes', cumulative' := WriteChunks(shard, turn.answer.chunks, fileBytes', cumulative');
  }

  /** `download_one_file`: HEAD, then requests until one ends it. */
  method DownloadOneFile(shard: Shard, cumulative: nat, script: Script) returns (outcome: Outcome, cumulative': nat)
    modifies shard
    ensures var ran := DownloadOne(old(shard.Value()), cumulative, script);
            outcome == ran.outcome && shard.Value() == ran.local.disk && cumulative' == ran.local.cumulative
  {
    hide SetLen, Concat, Opened, Append;
    ghost var ran := DownloadOne(shard.Value(), cumulative, script);
    cumulative' := cumulative;
    var retries: nat := 0;
    var fileBytes: nat := if shard.part.Some? then |shard.part.value| else 0;
    var fileTotal := script.head;
    if fileTotal > 0 && fileBytes == fileTotal {
      outcome := shard.Rename();
      return;
    }
    if fileTotal > 0 && fileBytes > fileTotal {
      cumulative' := SaturatingSub(cumulative', fileBytes);
      fileBytes := 0;
      shard.Remove(script.removed);
    }
    var i := 0;
    while true
      invariant 0 <= i <= |script.turns|
      invariant ran == Loop(Local(shard.Value(), fileBytes, fileTotal, retries, cumulative'), script.turns, i)
      decreases |script.turns| - i
    {
      if i == |script.turns| {
        return Pending, cumulative';
      }
      var turn := script.turns[i];
      i := i + 1;
      if turn.cancelled {
        shard.Remove(turn.removed);
        return Cancelled, cumulative';
      }
      match turn.answer {
        case NoConnection =>
        case RangeNotSatisfiable =>
          if fileTotal > 0 && fileBytes == fileTotal {
            break;
          }
          cumulative' := SaturatingSub(cumulative', fileBytes);
          fileBytes := 0;
          shard.Remove(turn.removed);
          continue;
        case Refused(transient) =>
          if !transient {
            return Failed, cumulative';
          }
        case Body(_, _, _, _, _, ending) =>
          fileBytes, fileTotal, cumulative' := WriteBody(shard, turn, fileBytes, fileTotal, retries, cumulative');
          match ending {
            case Clean => break;
            case Broken =>
            case StillOpen => return Pending, cumulative';
            case CancelSeen =>
              shard.Remove(turn.removed);
              return Cancelled, cumulative';
          }
      }
      if retries >= MAX_RETRIES {
        return Failed, cumulative';
      }
      retries := retries + 1;
      if turn.cancelledAsleep {
        return Cancelled, cumulative';
      }
    }
    outcome := shard.Rename();
  }

  ghost function Values(shards: seq<Shard>): seq<Disk>
    reads shards
  {
    seq(|shards|, i requires 0 <= i < |shards| reads shards => shards[i].Value())
  }

  predicate Distinct(shards: seq<Shard>) {
    forall i, j :: 0 <= i < j < |shards| ==> shards[i] != shards[j]
  }

  /** The scan for what is on disk already. */
  method ScanShards(shards: seq<Shard>) returns (cumulative: nat)
    ensures cumulative == TotalOnDisk(Values(shards), |shards|)
  {
    cumulative := 0;
    var i := 0;
    while i < |shards|
      invariant 0 <= i <= |shards|
      invariant cumulative == TotalOnDisk(Values(shards), i)
    {
      if shards[i].dest.Some? {
        cumulative := cumulative + |shards[i].dest.value|;
      } else if shards[i].part.Some? {
        cumulative := cumulative + |shards[i].part.value|;
      }
      assert Values(shards)[i] == shards[i].Value();
      i := i + 1;
    }
  }

  /** `download_files_sequentially`. */
  method DownloadFilesSequentially(shards: seq<Shard>, scripts: seq<FileScript>) returns (outcome: Outcome, cumulative: nat)
    requires |shards| == |scripts| && Distinct(shards)
    modifies shards
    ensures AllRan(outcome, Values(shards), cumulative) == DownloadAll(old(Values(shards)), scripts)
  {
    hide DownloadOne;
    cumulative := ScanShards(shards);
    ghost var all := DownloadAll(Values(shards), scripts);
    var i := 0;
    while i < |shards|
      invariant 0 <= i <= |shards|
      invariant all == FilesFrom(Values(shards), cumulative, scripts, i)
    {
      if scripts[i].cancelled {
        return Cancelled, cumulative;
      }
      if shards[i].dest.None? {
        ghost var before := Values(shards);
        outcome, cumulative := DownloadOneFile(shards[i], cumulative, scripts[i].file);
        assert Values(shards) == before[i := shards[i].Value()];
        if outcome != Done {
          return;
        }
      }
      i := i + 1;
    }
    outcome := Done;
  }
}
