/**
 The whole transfer: the sender's stream, any FIFO channel, and the receiver.
 */
module EndToEnd {
  import opened Common
  import opened Transfers
  import opened Streams
  import opened Deliveries

  /** The receiver after processing chunks in order, with every disk and clipboard call succeeding. */
  function ProcessAll(t: Inbound, disk: Disk, cs: seq<Chunk>): (r: Outcome)
    requires |t.files| == |t.names|
    ensures r.t.files == t.files && r.t.names == t.names
    decreases |cs|
  {
    if cs == [] then Outcome(t, disk, NoReply)
    else
      var o := Process(t, disk, cs[0], ALL_OK);
      ProcessAll(o.t, o.disk, cs[1..])
  }

  lemma {:induction false} ProcessAppend(t: Inbound, disk: Disk, p: seq<Chunk>, q: seq<Chunk>)
    requires |t.files| == |t.names|
    ensures var o := ProcessAll(t, disk, p);
            var r := ProcessAll(o.t, o.disk, q);
            ProcessAll(t, disk, p + q).t == r.t && ProcessAll(t, disk, p + q).disk == r.disk
    decreases |p|
  {
    if p == [] {
      assert p + q == q;
    } else {
      var o := Process(t, disk, p[0], ALL_OK);
      ProcessAppend(o.t, o.disk, p[1..], q);
      assert (p + q)[0] == p[0] && (p + q)[1..] == p[1..] + q;
    }
  }

  lemma {:induction false} AllKept(t: Inbound, disk: Disk, cs: seq<Chunk>)
    requires Sane(t) && OnDisk(t, disk)
    ensures var o := ProcessAll(t, disk, cs);
            && Sane(o.t) && OnDisk(o.t, o.disk) && Extends(t, o.t)
    decreases |cs|
  {
    if cs != [] {
      var o := Process(t, disk, cs[0], ALL_OK);
      ProcessKeeps(t, disk, cs[0], ALL_OK);
      AllKept(o.t, o.disk, cs[1..]);
    }
  }

  lemma ProcessCons(t: Inbound, disk: Disk, c: Chunk, rest: seq<Chunk>)
    requires |t.files| == |t.names|
    ensures var o := Process(t, disk, c, ALL_OK);
            ProcessAll(t, disk, [c] + rest) == ProcessAll(o.t, o.disk, rest)
  {
    assert ([c] + rest)[1..] == rest;
  }

  /** It is what processing each chunk gives when nothing fails. */
  lemma {:induction false} AllIsEach(t: Inbound, disk: Disk, cs: seq<Chunk>, ios: seq<Io>)
    requires |t.files| == |t.names| && |ios| == |cs| && forall io :: io in ios ==> io == ALL_OK
    ensures ProcessAll(t, disk, cs) == ProcessEach(t, disk, cs, ios)
    decreases |cs|
  {
    if cs != [] {
      assert ios[0] in ios && forall io :: io in ios[1..] ==> io in ios;
      var o := Process(t, disk, cs[0], ALL_OK);
      AllIsEach(o.t, o.disk, cs[1..], ios[1..]);
    }
  }

  /** What the transfer needs: the file read is as long as declared, and not empty. */
  predicate Matches(s: Source) { |s.content| == s.declared && |s.content| > 0 }

  predicate AllMatch(sources: seq<Source>) { forall s :: s in sources ==> Matches(s) }

  /** Every declared size leaves room for one more chunk in int64. */
  ghost predicate SmallFiles(files: seq<Meta>) {
    forall i :: 0 <= i < |files| ==> 0 <= files[i].size < TWO63 - CHUNK_SIZE
  }

  lemma SaneFilesSmall(t: Inbound)
    requires Sane(t)
    ensures SmallFiles(t.files)
  {
    forall i | 0 <= i < |t.files| ensures 0 <= t.files[i].size < TWO63 - CHUNK_SIZE {
      SumMonotone(t.files, i);
      SumMonotone(t.files, i + 1);
      SumPrefix(t.files, i);
      assert t.files[i] in t.files;
    }
  }

  /** Where a receiver stands: its state, current file, and bytes of that file. */
  datatype Standing = Standing(state: State, file: nat, off: int)

  function StandingOf(t: Inbound): Standing { Standing(t.state, t.curIdx, t.curDone) }

  /** How a chunk moves it on when no call fails. */
  function Follow(files: seq<Meta>, s: Standing, c: Chunk): Standing {
    if !s.state.Receiving? then s
    else if |c.data| > CHUNK_SIZE || c.idx < s.file || c.idx > |files| then s.(state := Failed)
    else if c.fin then s.(state := if c.idx == |files| == s.file then Done else Failed)
    else if c.idx == |files| || c.idx != s.file || c.off != s.off then s.(state := Failed)
    else if s.off + |c.data| > files[c.idx].size then s.(state := Failed)
    else if s.off + |c.data| == files[c.idx].size then Standing(Receiving, s.file + 1, 0)
    else s.(off := s.off + |c.data|)
  }

  function FollowAll(files: seq<Meta>, s: Standing, cs: seq<Chunk>): Standing
    decreases |cs|
  {
    if cs == [] then s else FollowAll(files, Follow(files, s, cs[0]), cs[1..])
  }

  /** Sizes and progress leave room for one more chunk in int64. */
  ghost predicate Tame(t: Inbound) {
    |t.files| == |t.names| && SmallFiles(t.files) && 0 <= t.curDone < TWO63 - CHUNK_SIZE
  }

  lemma FollowsStore(t: Inbound, disk: Disk, c: Chunk)
    requires Tame(t) && t.state.Receiving? && |c.data| <= CHUNK_SIZE && t.curIdx <= c.idx <= |t.files| && !c.fin
    ensures var o := Process(t, disk, c, ALL_OK).t;
            Tame(o) && o.files == t.files && StandingOf(o) == Follow(t.files, StandingOf(t), c)
  {
  }

  lemma FollowsOne(t: Inbound, disk: Disk, c: Chunk)
    requires Tame(t)
    ensures var o := Process(t, disk, c, ALL_OK).t;
            Tame(o) && o.files == t.files && StandingOf(o) == Follow(t.files, StandingOf(t), c)
  {
    if t.state.Receiving? && |c.data| <= CHUNK_SIZE && t.curIdx <= c.idx <= |t.files| && !c.fin {
      FollowsStore(t, disk, c);
    }
  }

  lemma {:induction false} FollowsAll(t: Inbound, disk: Disk, cs: seq<Chunk>)
    requires Tame(t)
    ensures StandingOf(ProcessAll(t, disk, cs).t) == FollowAll(t.files, StandingOf(t), cs)
    decreases |cs|
  {
    if cs != [] {
      var o := Process(t, disk, cs[0], ALL_OK);
      FollowsOne(t, disk, cs[0]);
      FollowsAll(o.t, o.disk, cs[1..]);
    }
  }

  lemma {:induction false} FollowAppend(files: seq<Meta>, s: Standing, p: seq<Chunk>, q: seq<Chunk>)
    ensures FollowAll(files, s, p + q) == FollowAll(files, FollowAll(files, s, p), q)
    decreases |p|
  {
    if p == [] {
      assert p + q == q;
    } else {
      FollowAppend(files, Follow(files, s, p[0]), p[1..], q);
      assert (p + q)[0] == p[0] && (p + q)[1..] == p[1..] + q;
    }
  }

  lemma {:induction false} EndedStays(files: seq<Meta>, s: Standing, cs: seq<Chunk>)
    requires !s.state.Receiving?
    ensures FollowAll(files, s, cs) == s
    decreases |cs|
  {
    if cs != [] { EndedStays(files, s, cs[1..]); }
  }

  /** A data chunk of another file ends the transfer, whatever follows. */
  lemma WrongFileFails(files: seq<Meta>, s: Standing, cs: seq<Chunk>)
    requires cs != [] && !cs[0].fin && cs[0].idx != s.file
    ensures s.state.Receiving? ==> FollowAll(files, s, cs).state.Failed?
  {
    EndedStays(files, Follow(files, s, cs[0]), cs[1..]);
  }

  /** The next block of file i. */
  function Block(i: nat, data: seq<byte>, off: nat): Chunk
    requires off <= |data|
  {
    Chunk(i, off, data[off..off + CutSize(|data| - off)], false)
  }

  lemma TakeBlock(files: seq<Meta>, i: nat, data: seq<byte>, off: nat)
    requires off < |data|
    ensures var s := Standing(Receiving, i, off); var next := off + CutSize(|data| - off);
            FollowAll(files, s, ChunksFrom(i, data, off)) ==
            FollowAll(files, Follow(files, s, Block(i, data, off)), ChunksFrom(i, data, next))
  {
    var next := off + CutSize(|data| - off);
    var cs := ChunksFrom(i, data, off);
    assert cs == [Block(i, data, off)] + ChunksFrom(i, data, next);
    assert cs[1..] == ChunksFrom(i, data, next);
  }

  /** How the chunks of one file leave the receiver. */
  ghost predicate FileResult(s: Standing, i: nat, length: nat, size: int) {
    if length == size then s == Standing(Receiving, i + 1, 0)
    else s.state.Failed? || s == Standing(Receiving, i, length)
  }

  /** From inside file i, its remaining chunks complete it exactly when the file is as long as declared. */
  lemma {:induction false} FileChunks(files: seq<Meta>, i: nat, data: seq<byte>, off: nat)
    requires i < |files| && off < |data| && (off == 0 || off < files[i].size)
    ensures var s := FollowAll(files, Standing(Receiving, i, off), ChunksFrom(i, data, off));
            FileResult(s, i, |data|, files[i].size)
    decreases |data| - off
  {
    var next := off + CutSize(|data| - off);
    var rest := ChunksFrom(i, data, next);
    var s := Follow(files, Standing(Receiving, i, off), Block(i, data, off));
    TakeBlock(files, i, data, off);
    if next > files[i].size {
      EndedStays(files, s, rest);
    } else if rest == [] {
    } else if next == files[i].size {
      assert rest[0] in rest;
      WrongFileFails(files, s, rest);
    } else {
      FileChunks(files, i, data, next);
    }
  }

  /** The receiver after the chunks of the first n files. */
  ghost predicate FilesResult(s: Standing, sources: seq<Source>, n: nat)
    requires n <= |sources|
  {
    if AllMatch(sources[..n]) then s == Standing(Receiving, n, 0)
    else s.state.Failed? || (s.state.Receiving? && s.file < n)
  }

  lemma PrefixMatch(sources: seq<Source>, n: nat)
    requires 0 < n <= |sources|
    ensures AllMatch(sources[..n]) <==> AllMatch(sources[..n - 1]) && Matches(sources[n - 1])
  {
    assert sources[..n] == sources[..n - 1] + [sources[n - 1]];
    assert forall s :: s in sources[..n] <==> s in sources[..n - 1] || s == sources[n - 1];
  }

  /** The sizes offered are the declared ones. */
  predicate OfferedAs(files: seq<Meta>, sources: seq<Source>) {
    |files| == |sources| && forall i :: 0 <= i < |sources| ==> files[i].size == sources[i].declared
  }

  lemma NextFile(files: seq<Meta>, s: Standing, sources: seq<Source>, n: nat)
    requires OfferedAs(files, sources) && 0 < n <= |sources| && FilesResult(s, sources, n - 1)
    ensures FilesResult(FollowAll(files, s, ChunksFrom(n - 1, sources[n - 1].content, 0)), sources, n)
  {
    var data := sources[n - 1].content;
    var cs := ChunksFrom(n - 1, data, 0);
    PrefixMatch(sources, n);
    if AllMatch(sources[..n - 1]) {
      if data != [] { FileChunks(files, n - 1, data, 0); }
    } else if s.state.Failed? {
      EndedStays(files, s, cs);
    } else if cs != [] {
      assert cs[0] in cs;
      WrongFileFails(files, s, cs);
    }
  }

  lemma {:induction false} AllFiles(files: seq<Meta>, sources: seq<Source>, n: nat)
    requires OfferedAs(files, sources) && n <= |sources|
    ensures FilesResult(FollowAll(files, Standing(Receiving, 0, 0), DataChunks(sources, n)), sources, n)
  {
    if n > 0 {
      AllFiles(files, sources, n - 1);
      var s := Standing(Receiving, 0, 0);
      FollowAppend(files, s, DataChunks(sources, n - 1), ChunksFrom(n - 1, sources[n - 1].content, 0));
      NextFile(files, FollowAll(files, s, DataChunks(sources, n - 1)), sources, n);
    } else {
      assert sources[..0] == [];
    }
  }

  /** The terminating chunk settles it: Done exactly when all sources match, otherwise Failed. */
  lemma StreamSettles(files: seq<Meta>, sources: seq<Source>)
    requires OfferedAs(files, sources)
    ensures var s := FollowAll(files, Standing(Receiving, 0, 0), FullStream(sources)).state;
            (s.Done? <==> AllMatch(sources)) && (!s.Done? ==> s.Failed?)
  {
    var n := |sources|;
    var s := FollowAll(files, Standing(Receiving, 0, 0), DataChunks(sources, n));
    AllFiles(files, sources, n);
    assert sources[..n] == sources;
    FollowAppend(files, Standing(Receiving, 0, 0), DataChunks(sources, n), [FinChunk(n)]);
    assert FollowAll(files, s, [FinChunk(n)]) == Follow(files, s, FinChunk(n)) by {
      assert [FinChunk(n)][1..] == [];
    }
  }

  /**
   Exact end-to-end transfer. On an accepted offer, with every disk and
   clipboard call succeeding and no cancel, processing the sender's full
   stream ends Done if and only if every file read is non-empty and as long as
   declared; otherwise it ends Failed. When it ends Done, every staged file
   equals its source byte for byte.
   */
  lemma TransferIsExact(t: Inbound, disk: Disk, sources: seq<Source>)
    requires Accepted(t, sources) && OnDisk(t, disk)
    ensures var o := ProcessAll(t, disk, FullStream(sources));
            && (o.t.state.Done? <==> AllMatch(sources))
            && (!o.t.state.Done? ==> o.t.state.Failed?)
            && (o.t.state.Done? ==>
                  forall i :: 0 <= i < |sources| ==>
                    var p := Path(t.dir, t.names[i]); p in o.disk && o.disk[p] == sources[i].content)
  {
    SaneFilesSmall(t);
    FollowsAll(t, disk, FullStream(sources));
    StreamSettles(t.files, sources);
    if ProcessAll(t, disk, FullStream(sources)).t.state.Done? {
      StreamInPlace(t, disk, sources);
      var o := ProcessAll(t, disk, FullStream(sources));
      forall i | 0 <= i < |sources|
        ensures Path(t.dir, t.names[i]) in o.disk && o.disk[Path(t.dir, t.names[i])] == sources[i].content
      {
        assert Matches(sources[i]) && InPlace(o.t, o.disk, sources, i);
      }
    }
  }

  /** When the stream ends Done every file is in place. */
  lemma StreamInPlace(t: Inbound, disk: Disk, sources: seq<Source>)
    requires Accepted(t, sources) && OnDisk(t, disk)
    ensures var o := ProcessAll(t, disk, FullStream(sources));
            && o.t.dir == t.dir && o.t.names == t.names
            && (o.t.state.Done? ==> forall i :: 0 <= i < |sources| ==> InPlace(o.t, o.disk, sources, i))
  {
    var full := FullStream(sources);
    var ios := seq(|full|, _ => ALL_OK);
    AllIsEach(t, disk, full, ios);
    AllKept(t, disk, full);
    var o := ProcessAll(t, disk, full);
    if o.t.state.Done? {
      PrefixIsHonest(sources, |full|);
      assert full[..|full|] == full;
      forall i | 0 <= i < |sources| ensures InPlace(o.t, o.disk, sources, i) {
        CompleteAreInPlace(t, disk, sources, full, ios, i);
      }
    }
  }

  /**
   The pipeline in the middle of a transfer: sent chunks travel on the
   connection, wait in the receive queue and are processed, all in order.
   */
  datatype Pipe = Pipe(sent: nat, wire: seq<Chunk>, queue: seq<Chunk>, t: Inbound, disk: Disk)

  datatype Move = Emit | Arrive | Handle

  /** One atomic step; a step that is not enabled leaves the pipeline unchanged. */
  function PipeStep(full: seq<Chunk>, p: Pipe, m: Move): Pipe
    requires |p.t.files| == |p.t.names|
  {
    match m
    case Emit => if p.sent < |full| then p.(sent := p.sent + 1, wire := p.wire + [full[p.sent]]) else p
    case Arrive =>
      if p.wire != [] && |p.queue| < QUEUE_CAP then p.(wire := p.wire[1..], queue := p.queue + [p.wire[0]]) else p
    case Handle =>
      if p.queue == [] then p
      else var o := Process(p.t, p.disk, p.queue[0], ALL_OK); p.(queue := p.queue[1..], t := o.t, disk := o.disk)
  }

  function PipeRun(full: seq<Chunk>, p: Pipe, ms: seq<Move>): (r: Pipe)
    requires |p.t.files| == |p.t.names|
    ensures |r.t.files| == |r.t.names|
    decreases |ms|
  {
    if ms == [] then p else PipeRun(full, PipeStep(full, p, ms[0]), ms[1..])
  }

  /** Nothing is lost, duplicated or reordered: processed, queued, in flight and unsent make up the stream. */
  ghost predicate InOrder(full: seq<Chunk>, t0: Inbound, disk0: Disk, p: Pipe, processed: nat)
    requires |t0.files| == |t0.names|
  {
    && processed <= p.sent <= |full|
    && full[processed..p.sent] == p.queue + p.wire
    && ProcessAll(t0, disk0, full[..processed]).t == p.t
    && ProcessAll(t0, disk0, full[..processed]).disk == p.disk
  }

  lemma EmitInOrder(full: seq<Chunk>, t0: Inbound, disk0: Disk, p: Pipe, processed: nat)
    requires |t0.files| == |t0.names| && |p.t.files| == |p.t.names| && InOrder(full, t0, disk0, p, processed)
    ensures InOrder(full, t0, disk0, PipeStep(full, p, Emit), processed)
    ensures InOrder(full, t0, disk0, PipeStep(full, p, Arrive), processed)
  {
    if p.sent < |full| {
      assert full[processed..p.sent + 1] == full[processed..p.sent] + [full[p.sent]];
    }
    if p.wire != [] { assert p.wire == [p.wire[0]] + p.wire[1..]; }
  }

  lemma WorkInOrder(full: seq<Chunk>, t0: Inbound, disk0: Disk, p: Pipe, processed: nat)
    requires |t0.files| == |t0.names| && |p.t.files| == |p.t.names| && InOrder(full, t0, disk0, p, processed)
    requires p.queue != []
    ensures InOrder(full, t0, disk0, PipeStep(full, p, Handle), processed + 1)
  {
    var c := p.queue[0];
    assert full[processed] == full[processed..p.sent][0] == c;
    assert full[..processed + 1] == full[..processed] + [c];
    assert full[processed + 1..p.sent] == full[processed..p.sent][1..];
    var o := ProcessAll(t0, disk0, full[..processed]);
    ProcessAppend(t0, disk0, full[..processed], [c]);
    assert [c] + [] == [c];
    ProcessCons(o.t, o.disk, c, []);
  }

  lemma StepInOrder(full: seq<Chunk>, t0: Inbound, disk0: Disk, p: Pipe, processed: nat, m: Move) returns (next: nat)
    requires |t0.files| == |t0.names| && |p.t.files| == |p.t.names| && InOrder(full, t0, disk0, p, processed)
    ensures InOrder(full, t0, disk0, PipeStep(full, p, m), next)
  {
    next := processed;
    if m.Handle? && p.queue != [] {
      WorkInOrder(full, t0, disk0, p, processed);
      next := processed + 1;
    } else if !m.Handle? {
      EmitInOrder(full, t0, disk0, p, processed);
    }
  }

  lemma {:induction false} RunInOrder(full: seq<Chunk>, t0: Inbound, disk0: Disk, p: Pipe, processed: nat,
      ms: seq<Move>)
    returns (last: nat)
    requires |t0.files| == |t0.names| && |p.t.files| == |p.t.names| && InOrder(full, t0, disk0, p, processed)
    ensures InOrder(full, t0, disk0, PipeRun(full, p, ms), last)
    decreases |ms|
  {
    last := processed;
    if ms != [] {
      var next := StepInOrder(full, t0, disk0, p, processed, ms[0]);
      last := RunInOrder(full, t0, disk0, PipeStep(full, p, ms[0]), next, ms[1..]);
    }
  }

  /**
   Over every interleaving of sending, arriving and processing: the receiver is
   Done only once the whole stream was sent and processed, and when everything
   was sent and drained it is Done exactly when all sources match, with every
   file in place.
   */
  lemma EveryScheduleIsExact(t: Inbound, disk: Disk, sources: seq<Source>, ms: seq<Move>)
    requires Accepted(t, sources) && OnDisk(t, disk)
    ensures var full := FullStream(sources);
            var p := PipeRun(full, Pipe(0, [], [], t, disk), ms);
            && (p.t.state.Done? ==> p.sent == |full| && p.queue == [] && p.wire == [])
            && (p.sent == |full| && p.queue == [] && p.wire == [] ==>
                  && (p.t.state.Done? <==> AllMatch(sources))
                  && (!p.t.state.Done? ==> p.t.state.Failed?)
                  && (p.t.state.Done? ==>
                        forall i :: 0 <= i < |sources| ==>
                          var q := Path(t.dir, t.names[i]); q in p.disk && p.disk[q] == sources[i].content))
  {
    var full := FullStream(sources);
    var p0 := Pipe(0, [], [], t, disk);
    var p := PipeRun(full, p0, ms);
    assert full[0..0] == [] + [] && full[..0] == [];
    var k := RunInOrder(full, t, disk, p0, 0, ms);
    if k < |full| {
      forall c | c in full[..k] ensures !c.fin {
        var j :| 0 <= j < k && full[j] == c;
        assert c == DataChunks(sources, |sources|)[j];
        assert c in DataChunks(sources, |sources|);
      }
      var ios := seq(k, _ => ALL_OK);
      AllIsEach(t, disk, full[..k], ios);
      NoFinNoDone(t, disk, full[..k], ios);
    } else {
      assert full[..k] == full;
      assert |p.queue + p.wire| == 0;
    }
    TransferIsExact(t, disk, sources);
    if p.sent == |full| && p.queue == [] && p.wire == [] {
      assert |full[k..p.sent]| == 0;
    }
  }
}
