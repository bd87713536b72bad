/**
 What a receiver makes of the chunks of one sender when anything may fail on
 either side: accepted chunks are the first ones sent, so a complete file is
 what the sender read.
 */
module Deliveries {
  import opened Common
  import opened Transfers
  import opened Streams

  /** The receiver after processing chunks in order, each with its own outcomes of the outside calls. */
  function ProcessEach(t: Inbound, disk: Disk, cs: seq<Chunk>, ios: seq<Io>): (r: Outcome)
    requires |t.files| == |t.names| && |ios| == |cs|
    ensures r.t.files == t.files && r.t.names == t.names
    decreases |cs|
  {
    if cs == [] then Outcome(t, disk, NoReply)
    else
      var o := Process(t, disk, cs[0], ios[0]);
      ProcessEach(o.t, o.disk, cs[1..], ios[1..])
  }

  lemma {:induction false} EachKept(t: Inbound, disk: Disk, cs: seq<Chunk>, ios: seq<Io>)
    requires Sane(t) && OnDisk(t, disk) && |ios| == |cs|
    ensures var o := ProcessEach(t, disk, cs, ios); Sane(o.t) && OnDisk(o.t, o.disk) && Extends(t, o.t)
    decreases |cs|
  {
    if cs != [] {
      var o := Process(t, disk, cs[0], ios[0]);
      ProcessKeeps(t, disk, cs[0], ios[0]);
      EachKept(o.t, o.disk, cs[1..], ios[1..]);
    }
  }

  /** A chunk is added to the history, or - the terminating one apart - it ends the transfer. */
  lemma AcceptedOrEnded(t: Inbound, disk: Disk, c: Chunk, io: Io)
    requires |t.files| == |t.names|
    ensures var o := Process(t, disk, c, io).t;
            o.accepted == t.accepted + [c] || (o.accepted == t.accepted && !o.state.Receiving?)
  {
    if Process(t, disk, c, io).t.accepted == t.accepted { assert |t.accepted + [c]| != |t.accepted|; }
  }

  lemma {:induction false} EndedIgnores(t: Inbound, disk: Disk, cs: seq<Chunk>, ios: seq<Io>)
    requires |t.files| == |t.names| && |ios| == |cs| && !t.state.Receiving?
    ensures ProcessEach(t, disk, cs, ios).t == t
    decreases |cs|
  {
    if cs != [] { EndedIgnores(t, disk, cs[1..], ios[1..]); }
  }

  /** Processing the first chunk, and how the rest goes on. */
  lemma EachStep(t: Inbound, disk: Disk, cs: seq<Chunk>, ios: seq<Io>) returns (o: Inbound, disk': Disk)
    requires |t.files| == |t.names| && |ios| == |cs| > 0
    ensures |o.files| == |o.names| && ProcessEach(t, disk, cs, ios) == ProcessEach(o, disk', cs[1..], ios[1..])
    ensures o.accepted == t.accepted + [cs[0]] || (o.accepted == t.accepted && !o.state.Receiving?)
  {
    var r := Process(t, disk, cs[0], ios[0]);
    AcceptedOrEnded(t, disk, cs[0], ios[0]);
    o, disk' := r.t, r.disk;
  }

  /** Whatever fails, the accepted chunks are the first k of those that came. */
  lemma {:induction false} AcceptedAreFirst(t: Inbound, disk: Disk, cs: seq<Chunk>, ios: seq<Io>) returns (k: nat)
    requires |t.files| == |t.names| && |ios| == |cs|
    ensures k <= |cs| && ProcessEach(t, disk, cs, ios).t.accepted == t.accepted + cs[..k]
    decreases |cs|
  {
    k := 0;
    if cs != [] {
      var o, disk' := EachStep(t, disk, cs, ios);
      if o.accepted == t.accepted + [cs[0]] {
        var j := AcceptedAreFirst(o, disk', cs[1..], ios[1..]);
        k := j + 1;
        assert cs[..k] == [cs[0]] + cs[1..][..j];
      } else {
        EndedIgnores(o, disk', cs[1..], ios[1..]);
      }
    }
  }

  lemma {:induction false} BytesConcat(a: seq<Chunk>, b: seq<Chunk>, i: nat)
    ensures FileBytes(a + b, i) == FileBytes(a, i) + FileBytes(b, i)
  {
    if b == [] {
      assert a + b == a;
    } else {
      assert (a + b)[..|a + b| - 1] == a + b[..|b| - 1];
      BytesConcat(a, b[..|b| - 1], i);
    }
  }

  lemma BytesPrefix(cs: seq<Chunk>, k: nat, i: nat)
    requires k <= |cs|
    ensures FileBytes(cs[..k], i) <= FileBytes(cs, i)
  {
    BytesConcat(cs[..k], cs[k..], i);
    assert cs[..k] + cs[k..] == cs;
  }

  lemma BytesOne(c: Chunk, i: nat)
    ensures FileBytes([c], i) == if c.idx == i then c.data else []
  {
    assert [c][..0] == [];
  }

  lemma CarriedFirst(c: Chunk, rest: seq<Chunk>, i: nat, x: seq<byte>)
    requires FileBytes(rest, i) == x
    ensures FileBytes([c] + rest, i) == if c.idx == i then c.data + x else x
  {
    BytesConcat([c], rest, i);
    BytesOne(c, i);
    assert [] + x == x;
  }

  lemma SliceJoins(data: seq<byte>, off: nat, n: nat)
    requires off + n <= |data|
    ensures data[off..off + n] + data[off + n..] == data[off..]
  {
  }

  lemma {:induction false} ChunksCarry(j: nat, data: seq<byte>, off: nat, i: nat)
    requires off <= |data|
    ensures FileBytes(ChunksFrom(j, data, off), i) == if i == j then data[off..] else []
    decreases |data| - off
  {
    if off < |data| {
      var n := CutSize(|data| - off);
      ChunksCarry(j, data, off + n, i);
      FirstBlock(j, data, off);
      CarriedFirst(Chunk(j, off, data[off..off + n], false), ChunksFrom(j, data, off + n), i,
                   if i == j then data[off + n..] else []);
      SliceJoins(data, off, n);
    }
  }

  lemma ConcatCarries(a: seq<Chunk>, b: seq<Chunk>, i: nat, x: seq<byte>, y: seq<byte>)
    requires FileBytes(a, i) == x && FileBytes(b, i) == y
    ensures FileBytes(a + b, i) == x + y
  {
    BytesConcat(a, b, i);
  }

  lemma {:induction false} DataCarries(sources: seq<Source>, n: nat, i: nat, cs: seq<Chunk>)
    requires n <= |sources| && cs == DataChunks(sources, n)
    ensures FileBytes(cs, i) == if i < n then sources[i].content else []
  {
    if n > 0 {
      var data := sources[n - 1].content;
      var front := DataChunks(sources, n - 1);
      DataCarries(sources, n - 1, i, front);
      ChunksCarry(n - 1, data, 0, i);
      BytesConcat(front, ChunksFrom(n - 1, data, 0), i);
    }
  }

  /** The full stream carries every source whole. */
  lemma StreamCarries(sources: seq<Source>, i: nat)
    requires i < |sources|
    ensures FileBytes(FullStream(sources), i) == sources[i].content
  {
    var n := |sources|;
    DataCarries(sources, n, i, DataChunks(sources, n));
    BytesOne(FinChunk(n), i);
    ConcatCarries(DataChunks(sources, n), [FinChunk(n)], i, sources[i].content, []);
  }

  /** Nothing sent for a file goes beyond what the sender read of it. */
  ghost predicate Honest(sent: seq<Chunk>, sources: seq<Source>) {
    forall i :: 0 <= i < |sources| ==> FileBytes(sent, i) <= sources[i].content
  }

  lemma CutChunkCarries(full: seq<Chunk>, k: nat, n: nat, i: nat)
    requires k < |full| && n <= |full[k].data|
    ensures FileBytes(full[..k] + [full[k].(data := full[k].data[..n])], i) <= FileBytes(full[..k + 1], i)
  {
    var cut := full[k].(data := full[k].data[..n]);
    BytesConcat(full[..k], [cut], i);
    BytesConcat(full[..k], [full[k]], i);
    BytesOne(cut, i);
    BytesOne(full[k], i);
    assert full[..k + 1] == full[..k] + [full[k]];
  }

  lemma PrefixIsHonest(sources: seq<Source>, k: nat)
    requires k <= |FullStream(sources)|
    ensures Honest(FullStream(sources)[..k], sources)
  {
    forall i | 0 <= i < |sources| ensures FileBytes(FullStream(sources)[..k], i) <= sources[i].content {
      StreamCarries(sources, i);
      BytesPrefix(FullStream(sources), k, i);
    }
  }

  lemma CutChunkIsHonest(full: seq<Chunk>, sources: seq<Source>, k: nat, n: nat)
    requires k < |full| && n <= |full[k].data| && Honest(full[..k + 1], sources)
    ensures Honest(full[..k] + [full[k].(data := full[k].data[..n])], sources)
  {
    var sent := full[..k] + [full[k].(data := full[k].data[..n])];
    forall i | 0 <= i < |sources| ensures FileBytes(sent, i) <= sources[i].content {
      CutChunkCarries(full, k, n, i);
    }
  }

  /** A stream cut short anywhere is honest. */
  lemma CutIsHonest(sources: seq<Source>, sent: seq<Chunk>, end: End)
    requires CutShort(sent, FullStream(sources), end)
    ensures Honest(sent, sources)
  {
    var k, n := CutPlace(sent, FullStream(sources), end);
    PrefixIsHonest(sources, k);
    PrefixIsHonest(sources, k + 1);
    CutChunkIsHonest(FullStream(sources), sources, k, n);
  }

  /** A transfer just accepted, offered with the declared sizes of these sources. */
  ghost predicate Accepted(t: Inbound, sources: seq<Source>) {
    && Sane(t) && t.state.Receiving? && t.curIdx == 0 && t.handle.None? && t.accepted == []
    && |t.files| == |sources|
    && (forall i :: 0 <= i < |sources| ==> t.files[i].size == sources[i].declared)
  }

  /** File i is on disk: the first declared bytes of its source, so the source itself if that is as long as declared. */
  ghost predicate InPlace(t: Inbound, disk: Disk, sources: seq<Source>, i: nat)
    requires i < |sources| == |t.names|
  {
    var p := Path(t.dir, t.names[i]);
    && p in disk && disk[p] <= sources[i].content && |disk[p]| == sources[i].declared
    && (disk[p] == sources[i].content <==> |sources[i].content| == sources[i].declared)
  }

  /** Whatever was sent honestly and whatever failed, every complete file is in place. */
  lemma CompleteAreInPlace(t: Inbound, disk: Disk, sources: seq<Source>, sent: seq<Chunk>, ios: seq<Io>, i: nat)
    requires Accepted(t, sources) && OnDisk(t, disk) && Honest(sent, sources) && |ios| == |sent|
    requires i < ProcessEach(t, disk, sent, ios).t.curIdx && i < |sources|
    ensures var o := ProcessEach(t, disk, sent, ios); InPlace(o.t, o.disk, sources, i)
  {
    var o := ProcessEach(t, disk, sent, ios);
    EachKept(t, disk, sent, ios);
    var k := AcceptedAreFirst(t, disk, sent, ios);
    assert t.accepted + sent[..k] == sent[..k];
    BytesPrefix(sent, k, i);
    assert |FileBytes(o.t.accepted, i)| == Received(o.t, i);
  }

  lemma OnlyFinFinishes(t: Inbound, disk: Disk, c: Chunk, io: Io)
    requires |t.files| == |t.names| && !t.state.Done? && !c.fin
    ensures !Process(t, disk, c, io).t.state.Done?
  {
  }

  /** Without the terminating chunk the receiver never finishes, whatever else arrives and whatever fails. */
  lemma {:induction false} NoFinNoDone(t: Inbound, disk: Disk, cs: seq<Chunk>, ios: seq<Io>)
    requires |t.files| == |t.names| && |ios| == |cs| && !t.state.Done? && forall c :: c in cs ==> !c.fin
    ensures !ProcessEach(t, disk, cs, ios).t.state.Done?
    decreases |cs|
  {
    if cs != [] {
      assert cs[0] in cs && forall c :: c in cs[1..] ==> c in cs;
      var o := Process(t, disk, cs[0], ios[0]);
      OnlyFinFinishes(t, disk, cs[0], ios[0]);
      NoFinNoDone(o.t, o.disk, cs[1..], ios[1..]);
    }
  }

  /**
   An interrupted transfer: the sender stopped early for whatever reason, and any
   of the receiver's calls may fail. The receiver is never Done, and each file
   it completed is in place.
   */
  lemma InterruptedTransfer(t: Inbound, disk: Disk, sources: seq<Source>, sent: seq<Chunk>, end: End, ios: seq<Io>)
    requires Accepted(t, sources) && OnDisk(t, disk) && |ios| == |sent|
    requires CutShort(sent, FullStream(sources), end)
    ensures var o := ProcessEach(t, disk, sent, ios);
            && !o.t.state.Done? && o.t.curIdx <= |sources|
            && forall i :: 0 <= i < o.t.curIdx ==> InPlace(o.t, o.disk, sources, i)
  {
    var o := ProcessEach(t, disk, sent, ios);
    EachKept(t, disk, sent, ios);
    CutHasNoFin(sent, sources, end);
    NoFinNoDone(t, disk, sent, ios);
    CutIsHonest(sources, sent, end);
    forall i | 0 <= i < o.t.curIdx ensures InPlace(o.t, o.disk, sources, i) {
      CompleteAreInPlace(t, disk, sources, sent, ios, i);
    }
  }
}
