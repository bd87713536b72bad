/**
 One inbound transfer of platform/filexfer/filexfer.go as a value: the receiver
 state machine over chunks, the disk it stages files on, and what any sequence
 of chunks - duplicated, reordered, malformed or oversized - can do to them.
 */
module Transfers {
  import opened Common
  import opened Names
  import opened Paths

  type TID = string

  const CHUNK_SIZE: i64 := 0x4_0000
  const AUTO_ACCEPT_MAX: i64 := 0x320_0000
  const MAX_FILES: nat := 64
  const QUEUE_CAP: nat := 256

  datatype State = Pending | Receiving | Done | Declined | Failed | Canceled {
    predicate Terminal() { Done? || Declined? || Failed? || Canceled? }
  }

  datatype Meta = Meta(name: string, size: i64)

  datatype Path = Path(dir: Dir, name: string)

  type Disk = map<Path, seq<byte>>

  datatype Chunk = Chunk(idx: int, off: int, data: seq<byte>, fin: bool)

  /** Why a transfer failed or was ended by the other side. */
  datatype Reason =
    | ChunkTooLarge | IndexOutOfRange | EarlyFin | NoClipboard | ClipboardFailed
    | PastEnd | WrongFile | WrongOffset | ExceedsSize
    | MkdirFailed | CreateFailed | WriteFailed | CloseFailed | Remote(text: string)

  /**
   Outcomes of the calls outside the model; a failed write may leave a prefix
   behind, told is the send of the reply.
   */
  datatype Io = Io(mkdir: bool, create: bool, write: Option<nat>, close: bool, writer: bool, clip: bool, told: bool)

  const ALL_OK := Io(true, true, None, true, true, true, true)

  /**
   inTransfer. accepted is the history of chunks fully written so far; it exists
   for the statements and no code reads it.
   */
  datatype Inbound = Inbound(
    tid: TID, dir: Dir, from: string, files: seq<Meta>, names: seq<string>, auto: bool, total: i64,
    state: State, done: i64, curIdx: nat, curDone: i64, handle: Option<Path>, err: Option<Reason>,
    accepted: seq<Chunk>)

  datatype Reply = NoReply | SendCancel | SendDone

  datatype Outcome = Outcome(t: Inbound, disk: Disk, reply: Reply)

  function Content(disk: Disk, p: Path): seq<byte> { if p in disk then disk[p] else [] }

  /** What a write at an offset makes of a file: bytes beyond it stay, and a gap before it is filled with zeros. */
  function WriteAt(was: seq<byte>, off: int, data: seq<byte>): seq<byte> {
    if data == [] then was
    else
      var n := if |was| <= off + |data| then off + |data| else |was|;
      seq(n, i requires 0 <= i < n =>
        if off <= i < off + |data| then data[i - off] else if i < |was| then was[i] else 0)
  }

  /** A write through an open handle, at the offset it has reached. */
  function Put(disk: Disk, p: Path, off: int, data: seq<byte>): Disk {
    if data == [] then disk else disk[p := WriteAt(Content(disk, p), off, data)]
  }

  lemma WriteAppends(was: seq<byte>, data: seq<byte>)
    ensures WriteAt(was, |was|, data) == was + data
  {
    var now := WriteAt(was, |was|, data);
    if data == [] {
      assert was + data == was;
    } else {
      forall i | 0 <= i < |now| ensures now[i] == (was + data)[i] {
      }
    }
  }

  /** At the end of a file a write appends. */
  lemma PutAppends(disk: Disk, p: Path, data: seq<byte>)
    requires p in disk
    ensures Put(disk, p, |disk[p]|, data) == disk[p := disk[p] + data]
  {
    WriteAppends(disk[p], data);
  }

  function Fail(t: Inbound, disk: Disk, why: Reason): Outcome {
    Outcome(t.(state := Failed, err := Some(why), handle := None), disk, SendCancel)
  }

  /** Why a chunk other than the final one is refused, if it is. */
  function Refusal(t: Inbound, ev: Chunk): Option<Reason>
    requires |ev.data| <= CHUNK_SIZE && 0 <= ev.idx
  {
    if ev.idx >= |t.files| then Some(PastEnd)
    else if ev.idx != t.curIdx then Some(WrongFile)
    else if ev.off != t.curDone then Some(WrongOffset)
    else if Add64(t.curDone, |ev.data|) > t.files[ev.idx].size then Some(ExceedsSize)
    else None
  }

  function Finish(t: Inbound, disk: Disk, ev: Chunk, io: Io): Outcome {
    if ev.idx != |t.files| || t.curIdx != |t.files| then Fail(t, disk, EarlyFin)
    else if !io.writer then Fail(t, disk, NoClipboard)
    else if !io.clip then Fail(t, disk, ClipboardFailed)
    else Outcome(t.(state := Done), disk, SendDone)
  }

  /** The data is on disk: advance, and close the file when it is complete. */
  function Advance(t: Inbound, disk: Disk, ev: Chunk, io: Io): Outcome
    requires t.curIdx < |t.files| && |ev.data| <= CHUNK_SIZE
  {
    var d: i64 := |ev.data|;
    var t1 := t.(curDone := Add64(t.curDone, d), done := Add64(t.done, d), accepted := t.accepted + [ev]);
    if t1.curDone != t.files[t.curIdx].size then Outcome(t1, disk, NoReply)
    else if !io.close then Fail(t1, disk, CloseFailed)
    else Outcome(t1.(handle := None, curIdx := t.curIdx + 1, curDone := 0), disk, NoReply)
  }

  function WriteData(t: Inbound, disk: Disk, p: Path, ev: Chunk, io: Io): Outcome
    requires t.curIdx < |t.files| && |ev.data| <= CHUNK_SIZE
  {
    match io.write
    case Some(k) =>
      var part := if k < |ev.data| then ev.data[..k] else ev.data;
      Fail(t, Put(disk, p, t.curDone, part), WriteFailed)
    case None => Advance(t, Put(disk, p, t.curDone, ev.data), ev, io)
  }

  function Store(t: Inbound, disk: Disk, ev: Chunk, io: Io): Outcome
    requires t.curIdx < |t.files| == |t.names| && |ev.data| <= CHUNK_SIZE
  {
    match t.handle
    case Some(p) => WriteData(t, disk, p, ev, io)
    case None =>
      var p := Path(t.dir, t.names[t.curIdx]);
      if !io.mkdir then Fail(t, disk, MkdirFailed)
      else if !io.create then Fail(t, disk, CreateFailed)
      else WriteData(t.(handle := Some(p)), disk[p := []], p, ev, io)
  }

  /** processChunk. */
  function Process(t: Inbound, disk: Disk, ev: Chunk, io: Io): Outcome
    requires |t.files| == |t.names|
  {
    if !t.state.Receiving? then Outcome(t, disk, NoReply)
    else if |ev.data| > CHUNK_SIZE then Fail(t, disk, ChunkTooLarge)
    else if ev.idx < t.curIdx || ev.idx > |t.files| then Fail(t, disk, IndexOutOfRange)
    else if ev.fin then Finish(t, disk, ev, io)
    else
      match Refusal(t, ev)
      case Some(why) => Fail(t, disk, why)
      case None => Store(t, disk, ev, io)
  }

  /** Respond, on a transfer that was found; only a pending one can be answered. */
  function Respond(t: Inbound, accept: bool, mkdir: bool): Inbound {
    if !t.state.Pending? then t
    else if !accept then t.(state := Declined)
    else if !mkdir then t.(state := Failed, err := Some(MkdirFailed))
    else t.(state := Receiving)
  }

  /** The inbound half of onCanceled. */
  function CancelBy(t: Inbound, from: string, reason: string): Inbound {
    if from != t.from then t
    else
      var t1 := t.(handle := None);
      if t.state.Receiving? || t.state.Pending? then
        t1.(state := if reason == "declined" then Declined else Canceled, err := Some(Remote(reason)))
      else t1
  }

  /** The inbound half of Detach. */
  function Release(t: Inbound): Inbound {
    t.(handle := None, state := if t.state.Receiving? then Canceled else t.state)
  }

  function SumSizes(files: seq<Meta>): int {
    if files == [] then 0 else SumSizes(files[..|files| - 1]) + files[|files| - 1].size
  }

  /** The bytes accepted for file i, in the order they were accepted. */
  function FileBytes(chunks: seq<Chunk>, i: nat): seq<byte> {
    if chunks == [] then []
    else
      var c := chunks[|chunks| - 1];
      FileBytes(chunks[..|chunks| - 1], i) + (if c.idx == i then c.data else [])
  }

  /** Sizes are not negative and their sum, plus one chunk, fits in int64. */
  ghost predicate SizesFit(files: seq<Meta>) {
    && (forall m :: m in files ==> m.size >= 0)
    && SumSizes(files) + CHUNK_SIZE < TWO63
  }

  /** The bookkeeping every reachable transfer satisfies. */
  ghost predicate Sane(t: Inbound) {
    && |t.names| == |t.files| && Distinct(t.names) && SizesFit(t.files) && t.total == SumSizes(t.files)
    && t.curIdx <= |t.files| && 0 <= t.curDone
    && (t.curIdx < |t.files| ==> t.curDone <= t.files[t.curIdx].size)
    && (t.curIdx == |t.files| ==> t.curDone == 0)
    && t.done == SumSizes(t.files[..t.curIdx]) + t.curDone
    && (t.handle.Some? ==>
          t.state.Receiving? && t.curIdx < |t.files| && t.handle.value == Path(t.dir, t.names[t.curIdx]))
    && (t.state.Receiving? && t.handle.None? ==> t.curDone == 0)
    && (t.state.Done? ==> t.curIdx == |t.files|)
    && (t.state.Pending? ==> t.curIdx == 0 && t.curDone == 0)
    && (forall i :: 0 <= i < |t.files| ==> |FileBytes(t.accepted, i)| == Received(t, i))
  }

  /** How many bytes of file i have been accepted. */
  function Received(t: Inbound, i: nat): i64
    requires i < |t.files|
  {
    if i < t.curIdx then t.files[i].size else if i == t.curIdx then t.curDone else 0
  }

  /** The disk holds every complete file, and the open one up to the last accepted byte. */
  ghost predicate OnDisk(t: Inbound, disk: Disk)
    requires |t.names| == |t.files| && t.curIdx <= |t.files|
  {
    && (forall i :: 0 <= i < t.curIdx ==>
                      var p := Path(t.dir, t.names[i]); p in disk && disk[p] == FileBytes(t.accepted, i))
    && (t.handle.Some? && t.curIdx < |t.files| ==>
          var p := Path(t.dir, t.names[t.curIdx]); p in disk && disk[p] == FileBytes(t.accepted, t.curIdx))
  }

  lemma SumPrefix(files: seq<Meta>, i: nat)
    requires i < |files|
    ensures SumSizes(files[..i + 1]) == SumSizes(files[..i]) + files[i].size
  {
    assert files[..i + 1][..i] == files[..i];
  }

  lemma {:induction false} SumMonotone(files: seq<Meta>, i: nat)
    requires i <= |files| && forall m :: m in files ==> m.size >= 0
    ensures 0 <= SumSizes(files[..i]) <= SumSizes(files)
    decreases |files| - i
  {
    if i == |files| {
      assert files[..i] == files;
      SumNonNegative(files);
    } else {
      SumMonotone(files, i + 1);
      SumPrefix(files, i);
      assert files[i] in files;
      SumNonNegative(files[..i]);
    }
  }

  lemma {:induction false} SumNonNegative(files: seq<Meta>)
    requires forall m :: m in files ==> m.size >= 0
    ensures SumSizes(files) >= 0
  {
    if files != [] {
      SumNonNegative(files[..|files| - 1]);
      assert files[|files| - 1] in files;
    }
  }

  lemma BytesAppend(chunks: seq<Chunk>, c: Chunk, i: nat)
    ensures FileBytes(chunks + [c], i) == FileBytes(chunks, i) + (if c.idx == i then c.data else [])
  {
    assert (chunks + [c])[..|chunks|] == chunks;
  }

  /** A finished file's size, and any accepted chunk, leave the sums within int64. */
  lemma NoOverflow(t: Inbound, n: i64)
    requires Sane(t) && t.curIdx < |t.files| && 0 <= n <= CHUNK_SIZE
    ensures t.curDone + n < TWO63 && t.done + n < TWO63
    ensures Add64(t.curDone, n) == t.curDone + n && Add64(t.done, n) == t.done + n
  {
    SumMonotone(t.files, t.curIdx);
    SumMonotone(t.files, t.curIdx + 1);
    SumPrefix(t.files, t.curIdx);
  }

  /** A step keeps the identity of the transfer and never goes back. */
  predicate Extends(t: Inbound, t': Inbound) {
    && t'.tid == t.tid && t'.dir == t.dir && t'.from == t.from
    && t'.files == t.files && t'.names == t.names && t'.total == t.total
    && t.curIdx <= t'.curIdx && t.accepted <= t'.accepted
    && (t.state.Terminal() ==> t'.state == t.state)
  }

  /** Only the current file of the transfer changes. */
  ghost predicate DiskFrame(t: Inbound, disk: Disk, disk': Disk) {
    forall p :: p in disk && (t.curIdx < |t.names| ==> p != Path(t.dir, t.names[t.curIdx])) ==>
      p in disk' && disk'[p] == disk[p]
  }

  lemma AdvanceSane(t: Inbound, disk: Disk, ev: Chunk, io: Io)
    requires Sane(t) && t.state.Receiving? && t.curIdx < |t.files|
    requires t.handle == Some(Path(t.dir, t.names[t.curIdx]))
    requires |ev.data| <= CHUNK_SIZE && ev.idx == t.curIdx && t.curDone + |ev.data| <= t.files[t.curIdx].size
    ensures Sane(Advance(t, disk, ev, io).t)
  {
    var o := Advance(t, disk, ev, io).t;
    NoOverflow(t, |ev.data|);
    SumPrefix(t.files, t.curIdx);
    forall i | 0 <= i < |t.files| ensures |FileBytes(o.accepted, i)| == Received(o, i) {
      BytesAppend(t.accepted, ev, i);
      assert |FileBytes(t.accepted, i)| == Received(t, i);
    }
  }

  /** With the chunk appended to its current file, the disk holds what the transfer has then received. */
  lemma AppendedOnDisk(t: Inbound, disk: Disk, p: Path, ev: Chunk, io: Io, disk': Disk)
    requires Sane(t) && t.state.Receiving? && t.curIdx < |t.files| && p == Path(t.dir, t.names[t.curIdx])
    requires t.handle == Some(p) && OnDisk(t, disk)
    requires |ev.data| <= CHUNK_SIZE && ev.idx == t.curIdx && t.curDone + |ev.data| <= t.files[t.curIdx].size
    requires disk' == disk[p := FileBytes(t.accepted, t.curIdx) + ev.data]
    ensures OnDisk(Advance(t, disk', ev, io).t, disk')
  {
    var o := Advance(t, disk', ev, io).t;
    BytesAppend(t.accepted, ev, t.curIdx);
    forall i | 0 <= i < t.curIdx ensures disk'[Path(t.dir, t.names[i])] == FileBytes(o.accepted, i) {
      BytesAppend(t.accepted, ev, i);
    }
  }

  lemma AdvanceOnDisk(t: Inbound, disk: Disk, p: Path, ev: Chunk, io: Io)
    requires Sane(t) && t.state.Receiving? && t.curIdx < |t.files| && p == Path(t.dir, t.names[t.curIdx])
    requires t.handle == Some(p) && OnDisk(t, disk)
    requires |ev.data| <= CHUNK_SIZE && ev.idx == t.curIdx && t.curDone + |ev.data| <= t.files[t.curIdx].size
    ensures OnDisk(Advance(t, Put(disk, p, t.curDone, ev.data), ev, io).t, Put(disk, p, t.curDone, ev.data))
  {
    assert |FileBytes(t.accepted, t.curIdx)| == Received(t, t.curIdx);
    PutAppends(disk, p, ev.data);
    AppendedOnDisk(t, disk, p, ev, io, Put(disk, p, t.curDone, ev.data));
  }

  /** What every step of a right transfer must show: if the disk held its bytes, it still does. */
  ghost predicate Keeps(t: Inbound, disk: Disk, t': Inbound, disk': Disk)
    requires Sane(t)
  {
    && Sane(t') && Extends(t, t') && DiskFrame(t, disk, disk')
    && (OnDisk(t, disk) ==> OnDisk(t', disk'))
  }

  /** Changing only the state, the error and the handle keeps the counters right. */
  lemma CountersKept(t: Inbound, t': Inbound)
    requires Sane(t) && t' == t.(state := t'.state, err := t'.err, handle := t'.handle)
    ensures forall i :: 0 <= i < |t'.files| ==> |FileBytes(t'.accepted, i)| == Received(t', i)
  {
    forall i | 0 <= i < |t'.files| ensures |FileBytes(t'.accepted, i)| == Received(t', i) {
      assert |FileBytes(t.accepted, i)| == Received(t, i);
    }
  }

  lemma FailKeeps(t: Inbound, disk: Disk, why: Reason)
    requires Sane(t) && t.state.Receiving?
    ensures Keeps(t, disk, Fail(t, disk, why).t, disk)
  {
    CountersKept(t, Fail(t, disk, why).t);
  }

  /** Writing anything into the current file leaves the complete ones alone. */
  lemma TouchCurrent(t: Inbound, disk: Disk, data: seq<byte>)
    requires Sane(t) && t.curIdx < |t.files|
    ensures var disk' := disk[Path(t.dir, t.names[t.curIdx]) := data];
            (OnDisk(t, disk) ==> OnDisk(t.(handle := None), disk')) && DiskFrame(t, disk, disk')
  {
  }

  /** Opening the current file truncates nothing: without a handle no byte of it was accepted. */
  lemma OpenTruncates(t: Inbound, disk: Disk)
    requires Sane(t) && t.state.Receiving? && t.curIdx < |t.files| && t.handle.None?
    ensures var p := Path(t.dir, t.names[t.curIdx]);
            && FileBytes(t.accepted, t.curIdx) == [] && Sane(t.(handle := Some(p)))
            && (OnDisk(t, disk) ==> OnDisk(t.(handle := Some(p)), disk[p := []]))
  {
    var p := Path(t.dir, t.names[t.curIdx]);
    var t1 := t.(handle := Some(p));
    assert |FileBytes(t.accepted, t.curIdx)| == Received(t, t.curIdx);
    CountersKept(t, t1);
  }

  /** A write that fails after a part of the data ends the transfer. */
  lemma FailedWriteKeeps(t: Inbound, disk: Disk, part: seq<byte>)
    requires Sane(t) && t.state.Receiving? && t.curIdx < |t.files|
    ensures var p := Path(t.dir, t.names[t.curIdx]); var disk' := Put(disk, p, t.curDone, part);
            Keeps(t, disk, Fail(t, disk', WriteFailed).t, disk')
  {
    var p := Path(t.dir, t.names[t.curIdx]);
    FailKeeps(t, disk, WriteFailed);
    TouchCurrent(t, disk, WriteAt(Content(disk, p), t.curDone, part));
  }

  lemma WrittenKeeps(t: Inbound, disk: Disk, p: Path, ev: Chunk, io: Io)
    requires Sane(t) && t.state.Receiving? && t.curIdx < |t.files|
    requires p == Path(t.dir, t.names[t.curIdx]) && t.handle == Some(p)
    requires |ev.data| <= CHUNK_SIZE && ev.idx == t.curIdx && t.curDone + |ev.data| <= t.files[t.curIdx].size
    ensures var disk' := Put(disk, p, t.curDone, ev.data); Keeps(t, disk, Advance(t, disk', ev, io).t, disk')
  {
    var disk' := Put(disk, p, t.curDone, ev.data);
    AdvanceSane(t, disk', ev, io);
    if OnDisk(t, disk) { AdvanceOnDisk(t, disk, p, ev, io); }
  }

  lemma WriteKeeps(t: Inbound, disk: Disk, p: Path, ev: Chunk, io: Io)
    requires Sane(t) && t.state.Receiving? && t.curIdx < |t.files|
    requires p == Path(t.dir, t.names[t.curIdx]) && t.handle == Some(p)
    requires |ev.data| <= CHUNK_SIZE && ev.idx == t.curIdx && t.curDone + |ev.data| <= t.files[t.curIdx].size
    ensures var o := WriteData(t, disk, p, ev, io); Keeps(t, disk, o.t, o.disk)
  {
    match io.write
    case None => WrittenKeeps(t, disk, p, ev, io);
    case Some(k) => FailedWriteKeeps(t, disk, if k < |ev.data| then ev.data[..k] else ev.data);
  }

  lemma StoreKeeps(t: Inbound, disk: Disk, ev: Chunk, io: Io)
    requires Sane(t) && t.state.Receiving? && t.curIdx < |t.files|
    requires |ev.data| <= CHUNK_SIZE && ev.idx == t.curIdx && t.curDone + |ev.data| <= t.files[t.curIdx].size
    ensures var o := Store(t, disk, ev, io); Keeps(t, disk, o.t, o.disk)
  {
    var p := Path(t.dir, t.names[t.curIdx]);
    if t.handle.Some? {
      WriteKeeps(t, disk, p, ev, io);
    } else if !io.mkdir {
      FailKeeps(t, disk, MkdirFailed);
    } else if !io.create {
      FailKeeps(t, disk, CreateFailed);
    } else {
      OpenTruncates(t, disk);
      WriteKeeps(t.(handle := Some(p)), disk[p := []], p, ev, io);
    }
  }

  lemma FinishKeeps(t: Inbound, disk: Disk, ev: Chunk, io: Io)
    requires Sane(t) && t.state.Receiving?
    ensures var o := Finish(t, disk, ev, io); Keeps(t, disk, o.t, o.disk)
  {
    FailKeeps(t, disk, EarlyFin);
    FailKeeps(t, disk, NoClipboard);
    FailKeeps(t, disk, ClipboardFailed);
    CountersKept(t, t.(state := Done));
  }

  lemma DataKeeps(t: Inbound, disk: Disk, ev: Chunk, io: Io)
    requires Sane(t) && t.state.Receiving?
    requires |ev.data| <= CHUNK_SIZE && t.curIdx <= ev.idx
    ensures match Refusal(t, ev)
            case Some(why) => Keeps(t, disk, Fail(t, disk, why).t, disk)
            case None => var o := Store(t, disk, ev, io); Keeps(t, disk, o.t, o.disk)
  {
    if t.curIdx < |t.files| { NoOverflow(t, |ev.data|); }
    match Refusal(t, ev)
    case Some(why) => FailKeeps(t, disk, why);
    case None => StoreKeeps(t, disk, ev, io);
  }

  /**
   Safety of one chunk, whatever it is and whatever fails: the bookkeeping and
   the staged bytes stay right, only the current file changes, and terminal
   states are absorbing.
   */
  lemma ProcessKeeps(t: Inbound, disk: Disk, ev: Chunk, io: Io)
    requires Sane(t)
    ensures var o := Process(t, disk, ev, io); Keeps(t, disk, o.t, o.disk)
  {
    if t.state.Receiving? {
      if |ev.data| > CHUNK_SIZE {
        FailKeeps(t, disk, ChunkTooLarge);
      } else if ev.idx < t.curIdx || ev.idx > |t.files| {
        FailKeeps(t, disk, IndexOutOfRange);
      } else if ev.fin {
        FinishKeeps(t, disk, ev, io);
      } else {
        DataKeeps(t, disk, ev, io);
      }
    }
  }

  lemma RespondKeeps(t: Inbound, disk: Disk, accept: bool, mkdir: bool)
    requires Sane(t)
    ensures Keeps(t, disk, Respond(t, accept, mkdir), disk)
  {
    CountersKept(t, Respond(t, accept, mkdir));
  }

  lemma ReleaseKeeps(t: Inbound, disk: Disk)
    requires Sane(t)
    ensures Keeps(t, disk, Release(t), disk)
  {
    CountersKept(t, Release(t));
  }

  lemma CancelKeeps(t: Inbound, disk: Disk, from: string, reason: string)
    requires Sane(t)
    ensures Keeps(t, disk, CancelBy(t, from, reason), disk)
  {
    CountersKept(t, CancelBy(t, from, reason));
  }

  /** Earlier files never change again, and the accepted bytes of a complete file are final. */
  lemma CompletedFilesFinal(t: Inbound, disk: Disk, ev: Chunk, io: Io, i: nat)
    requires Sane(t) && OnDisk(t, disk) && i < t.curIdx
    ensures var o := Process(t, disk, ev, io); var p := Path(t.dir, t.names[i]);
            && o.disk[p] == disk[p] && |disk[p]| == t.files[i].size
            && FileBytes(o.t.accepted, i) == FileBytes(t.accepted, i)
  {
    ProcessKeeps(t, disk, ev, io);
    assert |FileBytes(t.accepted, i)| == Received(t, i);
  }

  /** Done means every file is the in-order concatenation of its accepted chunks, at its declared size. */
  lemma DoneIsComplete(t: Inbound, disk: Disk, i: nat)
    requires Sane(t) && OnDisk(t, disk) && t.state.Done? && i < |t.files|
    ensures var p := Path(t.dir, t.names[i]);
            p in disk && disk[p] == FileBytes(t.accepted, i) && |disk[p]| == t.files[i].size
    ensures t.done == t.total
  {
    assert |FileBytes(t.accepted, i)| == Received(t, i);
    assert t.files[..t.curIdx] == t.files;
  }

  /** Progress never exceeds the total. */
  lemma ProgressBounded(t: Inbound)
    requires Sane(t)
    ensures 0 <= t.done <= t.total
  {
    SumMonotone(t.files, t.curIdx);
    if t.curIdx < |t.files| {
      SumMonotone(t.files, t.curIdx + 1);
      SumPrefix(t.files, t.curIdx);
    }
  }

  /** One file's line in a status snapshot. */
  function FileProgress(t: Inbound, i: nat): i64
    requires i < |t.files|
  {
    if t.state.Done? then t.files[i].size else Received(t, i)
  }

  function SumProgress(t: Inbound, n: nat): int
    requires n <= |t.files|
  {
    if n == 0 then 0 else SumProgress(t, n - 1) + FileProgress(t, n - 1)
  }

  lemma {:induction false} SumProgressPrefix(t: Inbound, n: nat)
    requires Sane(t) && n <= |t.files|
    ensures SumProgress(t, n) == if n <= t.curIdx then SumSizes(t.files[..n]) else t.done as int
  {
    if n > 0 {
      SumProgressPrefix(t, n - 1);
      SumPrefix(t.files, n - 1);
    }
  }

  /** The per-file progress shown to the user always adds up to the transfer's progress. */
  lemma ProgressAddsUp(t: Inbound)
    requires Sane(t)
    ensures SumProgress(t, |t.files|) == t.done
  {
    SumProgressPrefix(t, |t.files|);
  }
}
