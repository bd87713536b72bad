/**
 Exactly when bytes on disk change, and what the first chunk of a new transfer
 does to them.
 */
module Staging {
  import opened Common
  import opened Names
  import opened Paths
  import opened Transfers
  import opened Inboxes

  /** A data chunk the transfer has no reason to refuse. */
  predicate Fitting(t: Inbound, c: Chunk) {
    && t.state.Receiving? && !c.fin && |c.data| <= CHUNK_SIZE
    && c.idx == t.curIdx < |t.files| == |t.names| && c.off == t.curDone && c.off + |c.data| <= t.files[t.curIdx].size
  }

  /** The part of a chunk that reaches the disk. */
  function Landed(c: Chunk, io: Io): seq<byte> {
    match io.write
    case None => c.data
    case Some(k) => if k < |c.data| then c.data[..k] else c.data
  }

  /** What is at a path, if anything. */
  function At(disk: Disk, p: Path): Option<seq<byte>> { if p in disk then Some(disk[p]) else None }

  /** These bytes are in the file at this offset. */
  predicate Has(file: seq<byte>, off: int, data: seq<byte>) {
    data == [] || (0 <= off && off + |data| <= |file| && file[off..off + |data|] == data)
  }

  predicate Rewrites(t: Inbound, disk: Disk, c: Chunk, io: Io)
    requires t.curIdx < |t.names|
  {
    var p := Path(t.dir, t.names[t.curIdx]);
    if t.handle.Some? then !Has(Content(disk, p), t.curDone, Landed(c, io))
    else io.mkdir && io.create && At(disk, p) != Some(Landed(c, io))
  }

  /** Writing what is already there, and only that, changes nothing. */
  lemma WriteSameIff(was: seq<byte>, off: nat, data: seq<byte>)
    ensures WriteAt(was, off, data) == was <==> Has(was, off, data)
  {
    var now := WriteAt(was, off, data);
    if data != [] {
      if Has(was, off, data) {
        forall i | 0 <= i < |now| ensures now[i] == was[i] {
          if off <= i < off + |data| { assert was[i] == was[off..off + |data|][i - off]; }
        }
      }
      if now == was {
        forall k | 0 <= k < |data| ensures was[off..off + |data|][k] == data[k] {
          assert now[off + k] == data[k];
        }
      }
    }
  }

  lemma PutSameIff(disk: Disk, p: Path, off: nat, data: seq<byte>, q: Path)
    ensures At(Put(disk, p, off, data), q) != At(disk, q) <==> q == p && !Has(Content(disk, p), off, data)
  {
    WriteSameIff(Content(disk, p), off, data);
    if data != [] && p !in disk { assert WriteAt([], off, data) != []; }
  }

  /**
   The head of the queue fits its transfer, p is that transfer's current file,
   and the write differs from what is there: it puts something new at the offset
   the open file has reached, or the file is opened and truncated to something new.
   */
  predicate Changes(m: Inbox, a: Action, p: Path)
    requires Typed(m)
  {
    a.Work? && m.queue != [] &&
    var (r, c) := m.queue[0];
    var t := m.arena[r];
    && Fitting(t, c) && p == Path(t.dir, t.names[t.curIdx])
    && Rewrites(t, m.disk, c, a.io)
  }

  /** A write to a file just truncated is all it holds. */
  lemma FirstPut(disk: Disk, p: Path, data: seq<byte>)
    ensures Put(disk[p := []], p, 0, data) == disk[p := data]
  {
    PutAppends(disk[p := []], p, data);
    assert [] + data == data;
  }

  lemma WriteDisk(t: Inbound, disk: Disk, p: Path, c: Chunk, io: Io)
    requires t.curIdx < |t.files| && |c.data| <= CHUNK_SIZE
    ensures WriteData(t, disk, p, c, io).disk == Put(disk, p, t.curDone, Landed(c, io))
  {
  }

  lemma StoreDisk(t: Inbound, disk: Disk, c: Chunk, io: Io)
    requires t.curIdx < |t.files| == |t.names| && |c.data| <= CHUNK_SIZE
    requires t.handle.None? ==> t.curDone == 0
    requires t.handle.Some? ==> t.handle.value == Path(t.dir, t.names[t.curIdx])
    ensures var p := Path(t.dir, t.names[t.curIdx]);
            Store(t, disk, c, io).disk ==
            if t.handle.Some? then Put(disk, p, t.curDone, Landed(c, io))
            else if io.mkdir && io.create then disk[p := Landed(c, io)]
            else disk
  {
    var p := Path(t.dir, t.names[t.curIdx]);
    if t.handle.Some? {
      WriteDisk(t, disk, p, c, io);
    } else {
      WriteDisk(t.(handle := Some(p)), disk[p := []], p, c, io);
      FirstPut(disk, p, Landed(c, io));
    }
  }

  /** The disk after one chunk, whatever it is and whatever fails. */
  lemma ProcessDisk(t: Inbound, disk: Disk, c: Chunk, io: Io)
    requires Sane(t)
    ensures Process(t, disk, c, io).disk ==
            if Fitting(t, c) && (t.handle.Some? || (io.mkdir && io.create)) then
              var p := Path(t.dir, t.names[t.curIdx]);
              if t.handle.Some? then Put(disk, p, t.curDone, Landed(c, io)) else disk[p := Landed(c, io)]
            else disk
  {
    if t.curIdx < |t.files| && |c.data| <= CHUNK_SIZE {
      NoOverflow(t, |c.data|);
      if t.state.Receiving? { StoreDisk(t, disk, c, io); }
    }
  }

  lemma WorkChangesIff(m: Inbox, io: Io, p: Path)
    requires Inv(m)
    ensures At(HandleWork(m, io).disk, p) != At(m.disk, p) <==> Changes(m, Action.Work(io), p)
  {
    if m.queue != [] {
      var (r, c) := m.queue[0];
      assert Good(m, r);
      if IsLive(m, r) {
        ProcessDisk(m.arena[r], m.disk, c, io);
        ChunkChangesIff(m.arena[r], m.disk, c, io, p);
      } else {
        InertIgnores(m.arena[r], m.disk, c, io);
      }
    }
  }

  lemma ChunkChangesIff(t: Inbound, disk: Disk, c: Chunk, io: Io, p: Path)
    requires Sane(t)
    ensures At(Process(t, disk, c, io).disk, p) != At(disk, p) <==>
            Fitting(t, c) && p == Path(t.dir, t.names[t.curIdx]) && Rewrites(t, disk, c, io)
  {
    ProcessDisk(t, disk, c, io);
    if Fitting(t, c) && t.handle.Some? {
      PutSameIff(disk, Path(t.dir, t.names[t.curIdx]), t.curDone, Landed(c, io), p);
    }
  }

  /** Only the write loop changes the disk. */
  lemma OnlyWorkWrites(m: Inbox, a: Action)
    requires Typed(m) && !a.Work?
    ensures Step(m, a).disk == m.disk
  {
  }

  /** Exactly when a step changes what is at a path. */
  lemma StepChangesIff(m: Inbox, a: Action, p: Path)
    requires Inv(m)
    ensures At(Step(m, a).disk, p) != At(m.disk, p) <==> Changes(m, a, p)
  {
    if a.Work? { WorkChangesIff(m, a.io, p); } else { OnlyWorkWrites(m, a); }
  }

  /** What is at p stays the same through every step of a run. */
  ghost predicate Untouched(m: Inbox, steps: seq<Action>, p: Path)
    requires Typed(m)
    decreases |steps|
  {
    steps == [] || (
      TypedKept(m, steps[0]);
      At(Step(m, steps[0]).disk, p) == At(m.disk, p) && Untouched(Step(m, steps[0]), steps[1..], p))
  }

  ghost predicate NoneChanges(m: Inbox, steps: seq<Action>, p: Path)
    requires Typed(m)
    decreases |steps|
  {
    steps == [] || (
      TypedKept(m, steps[0]);
      !Changes(m, steps[0], p) && NoneChanges(Step(m, steps[0]), steps[1..], p))
  }

  /** So exactly when a run leaves a file alone. */
  lemma {:induction false} UntouchedIff(m: Inbox, steps: seq<Action>, p: Path)
    requires Inv(m) && AllFit(steps)
    ensures Untouched(m, steps, p) <==> NoneChanges(m, steps, p)
    decreases |steps|
  {
    if steps != [] {
      AllFitSplit(steps);
      StepKeeps(m, steps[0]);
      StepChangesIff(m, steps[0], p);
      UntouchedIff(Step(m, steps[0]), steps[1..], p);
    }
  }

  /** A first data chunk that fits the first offered file. */
  predicate FirstChunk(man: Manifest, c: Chunk) {
    !c.fin && c.idx == 0 && c.off == 0 && man.files != [] && 0 < |c.data| <= CHUNK_SIZE && |c.data| <= man.files[0].size
  }

  /** Offered, and its first chunk received, with nothing failing. */
  function Restart(man: Manifest, self: string, c: Chunk): seq<Action> {
    [Offer(man, true), ChunkIn(man.tid, man.from, self, c), Action.Work(ALL_OK)]
  }

  lemma RunThree(m: Inbox, a: Action, b: Action, c: Action)
    requires Typed(m)
    ensures var x := Step(m, a); Typed(x) && var y := Step(x, b); Typed(y) && Run(m, [a, b, c]) == Step(y, c)
  {
    TypedKept(m, a);
    TypedKept(Step(m, a), b);
    var x, y := Step(m, a), Step(Step(m, a), b);
    TypedKept(y, c);
    assert [a, b, c][1..] == [b, c] && [b, c][1..] == [c] && [c][1..] == [];
    assert Run(y, [c]) == Step(y, c);
    assert Run(x, [b, c]) == Run(y, [c]);
  }

  /** The first chunk of a new transfer replaces whatever was staged under its first name. */
  lemma FirstChunkLands(t: Inbound, disk: Disk, c: Chunk)
    requires Sane(t) && t.state.Receiving? && t.handle.None? && t.curIdx == 0 && t.curDone == 0
    requires |t.files| > 0 && !c.fin && c.idx == 0 && c.off == 0 && |c.data| <= CHUNK_SIZE &&
             |c.data| <= t.files[0].size
    ensures var o := Process(t, disk, c, ALL_OK);
            && o.disk == disk[Path(t.dir, t.names[0]) := c.data]
            && o.t.tid == t.tid && o.t.dir == t.dir && o.t.names == t.names
            && if |c.data| == t.files[0].size then o.t.curIdx == 1 else o.t.handle == Some(Path(t.dir, t.names[0]))
  {
    ProcessDisk(t, disk, c, ALL_OK);
    NoOverflow(t, |c.data|);
  }

  /** m' is m after transfer t joined it and stored its first chunk c. */
  ghost predicate Restarted(m: Inbox, t: Inbound, c: Chunk, m': Inbox)
    requires t.names != [] && t.files != []
  {
    && m'.disk == m.disk[Path(t.dir, t.names[0]) := c.data]
    && m'.queue == [] && m'.self == m.self && m'.staging == m.staging && m'.autoMax == m.autoMax
    && |m'.arena| == |m.arena| + 1 && m.arena <= m'.arena && m'.live == m.live[t.tid := |m.arena|]
    && var t' := m'.arena[|m.arena|];
       && t'.tid == t.tid && t'.dir == t.dir && t'.names == t.names
       && if |c.data| == t.files[0].size then t'.curIdx == 1 else t'.handle == Some(Path(t.dir, t.names[0]))
  }

  lemma AdmittedFirstChunk(m: Inbox, t: Inbound, c: Chunk)
    requires Inv(m) && m.queue == [] && t.tid !in m.live && Sane(t) && InOwnDir(m.staging, t)
    requires t.state.Receiving? && t.handle.None? && t.curIdx == 0 && t.curDone == 0 && t.auto && |t.files| > 0
    requires !c.fin && c.idx == 0 && c.off == 0 && |c.data| <= CHUNK_SIZE && |c.data| <= t.files[0].size
    ensures var m1 := Admit(m, t, true);
            && Typed(m1) && var m2 := HandleChunk(m1, t.tid, t.from, m.self, c);
               && Typed(m2) && Restarted(m, t, c, HandleWork(m2, ALL_OK))
  {
    var m1 := Admit(m, t, true);
    AdmitKeeps(m, t, true);
    assert m1.arena == m.arena + [t] && m1.live[t.tid] == |m.arena| && m1.disk == m.disk && m1.queue == [];
    var m2 := HandleChunk(m1, t.tid, t.from, m.self, c);
    assert m2.queue == [(|m.arena|, c)] && m2.arena == m1.arena && m2.disk == m.disk;
    FirstChunkLands(t, m.disk, c);
  }

  /** A draft is a new transfer with its offer's id, sender and files. */
  predicate NewFor(man: Manifest, t: Inbound) {
    && t.tid == man.tid && t.from == man.from && t.files == man.files && |t.names| == |t.files| > 0
    && t.handle.None? && t.curIdx == 0 && t.curDone == 0 && (t.auto ==> t.state.Receiving?)
  }

  lemma DraftIsNew(m: Inbox, man: Manifest)
    ensures Draft(m, man).Some? ==> NewFor(man, Draft(m, man).value) && man.tid !in m.live
  {
  }

  lemma RestartSteps(m: Inbox, man: Manifest, c: Chunk)
    requires Typed(m)
    ensures var m1 := HandleOffer(m, man, true);
            && Typed(m1) && var m2 := HandleChunk(m1, man.tid, man.from, m.self, c);
               && Typed(m2) && Run(m, Restart(man, m.self, c)) == HandleWork(m2, ALL_OK)
  {
    RunThree(m, Offer(man, true), ChunkIn(man.tid, man.from, m.self, c), Action.Work(ALL_OK));
  }

  lemma RestartSettles(m: Inbox, man: Manifest, draft: Option<Inbound>, c: Chunk)
    requires Inv(m) && m.queue == [] && draft.Some? && NewFor(man, draft.value) && draft.value.auto
    requires Admissible(m, draft) && FirstChunk(man, c)
    ensures var m1 := Settle(m, draft, true);
            && Typed(m1) && var m2 := HandleChunk(m1, man.tid, man.from, m.self, c);
               && Typed(m2) && Restarted(m, draft.value, c, HandleWork(m2, ALL_OK))
  {
    AdmittedFirstChunk(m, draft.value, c);
  }

  /**
   An id that is not registered can be offered, and then the first chunk
   overwrites whatever was staged in its directory under its first name.
   */
  lemma ReofferOverwrites(m: Inbox, man: Manifest, t: Inbound, c: Chunk)
    requires Inv(m) && Fits(Offer(man, true)) && m.queue == [] && FirstChunk(man, c)
    requires Draft(m, man) == Some(t) && t.auto
    ensures NewFor(man, t) && Restarted(m, t, c, Run(m, Restart(man, m.self, c)))
    ensures Inv(Run(m, Restart(man, m.self, c)))
  {
    DraftAdmissible(m, man, true);
    DraftIsNew(m, man);
    RestartSettles(m, man, Some(t), c);
    RestartSteps(m, man, c);
    assert AllFit(Restart(man, m.self, c));
    RunKeeps(m, Restart(man, m.self, c));
  }
}
