/**
 The sending side: stream cuts every source file into chunks, in order, and
 ends with an empty terminating chunk.
 */
module Streams {
  import opened Common
  import opened Transfers

  /** A source file: the size declared in the offer and the bytes read when it is opened. */
  datatype Source = Source(declared: i64, content: seq<byte>)

  function CutSize(n: nat): nat { if n < CHUNK_SIZE then n else CHUNK_SIZE }

  /** The chunks of file i from offset off on. */
  function ChunksFrom(i: nat, data: seq<byte>, off: nat): (cs: seq<Chunk>)
    ensures forall c :: c in cs ==> c.idx == i && !c.fin && 0 < |c.data| <= CHUNK_SIZE
    decreases |data| - off
  {
    if off >= |data| then []
    else
      var n := CutSize(|data| - off);
      [Chunk(i, off, data[off..off + n], false)] + ChunksFrom(i, data, off + n)
  }

  /** The blocks of 256 KiB of a file, one after another, and what is left over. */
  lemma {:induction false} BlocksInOrder(i: nat, data: seq<byte>, off: nat, k: nat)
    requires k < |ChunksFrom(i, data, off)|
    ensures var cs := ChunksFrom(i, data, off); var at := off + k * 262144;
            && at < |data| && cs[k] == Chunk(i, at, cs[k].data, false)
            && (k < |cs| - 1 ==> |cs[k].data| == 262144)
            && (k == |cs| - 1 ==> 0 < |cs[k].data| == |data| - at <= 262144)
            && at + |cs[k].data| <= |data| && cs[k].data == data[at..at + |cs[k].data|]
    decreases |data| - off
  {
    var n := CutSize(|data| - off);
    var rest := ChunksFrom(i, data, off + n);
    FirstBlock(i, data, off);
    if k > 0 {
      BlocksInOrder(i, data, off + n, k - 1);
      assert ChunksFrom(i, data, off)[k] == rest[k - 1];
    }
  }

  lemma FirstBlock(i: nat, data: seq<byte>, off: nat)
    requires off < |data|
    ensures var n := CutSize(|data| - off); var rest := ChunksFrom(i, data, off + n);
            && ChunksFrom(i, data, off) == [Chunk(i, off, data[off..off + n], false)] + rest
            && (rest == [] <==> off + n == |data|) && (rest != [] ==> n == 262144)
  {
  }

  /** The chunks of the first n files. */
  function DataChunks(sources: seq<Source>, n: nat): (cs: seq<Chunk>)
    requires n <= |sources|
    ensures forall c :: c in cs ==> 0 <= c.idx < n && !c.fin
  {
    if n == 0 then [] else DataChunks(sources, n - 1) + ChunksFrom(n - 1, sources[n - 1].content, 0)
  }

  function FinChunk(n: nat): Chunk { Chunk(n, 0, [], true) }

  function FullStream(sources: seq<Source>): seq<Chunk> {
    DataChunks(sources, |sources|) + [FinChunk(|sources|)]
  }

  function TotalBytes(cs: seq<Chunk>): nat {
    if cs == [] then 0 else TotalBytes(cs[..|cs| - 1]) + |cs[|cs| - 1].data|
  }

  lemma TotalAppend(cs: seq<Chunk>, c: Chunk)
    ensures TotalBytes(cs + [c]) == TotalBytes(cs) + |c.data|
  {
    assert (cs + [c])[..|cs|] == cs;
  }

  /** Reassembling the chunks of a file gives the file back. */
  lemma {:induction false} ChunksRejoin(i: nat, data: seq<byte>, off: nat)
    requires off <= |data|
    ensures Joined(ChunksFrom(i, data, off)) == data[off..]
    decreases |data| - off
  {
    if off < |data| {
      var n := CutSize(|data| - off);
      var rest := ChunksFrom(i, data, off + n);
      ChunksRejoin(i, data, off + n);
      assert ChunksFrom(i, data, off)[1..] == rest;
      assert data[off..] == data[off..off + n] + data[off + n..];
    }
  }

  function Joined(cs: seq<Chunk>): seq<byte> {
    if cs == [] then [] else cs[0].data + Joined(cs[1..])
  }

  datatype End = Finished | Cancelled | OpenFailed | ReadFailed | SendFailed

  /**
   The sender's surroundings: which opens succeed, where a read fails and after
   how many bytes, which sends succeed, and whether the k-th look at the cancel
   channel finds it closed.
   */
  datatype Net = Net(open: nat -> bool, read: (nat, nat) -> Option<nat>, send: nat -> bool, cancelled: nat -> bool)

  ghost predicate Undisturbed(net: Net) {
    && (forall i :: net.open(i)) && (forall i, off :: net.read(i, off).None?)
    && (forall k :: net.send(k)) && (forall k :: !net.cancelled(k))
  }

  /** What was sent before an early end: whole chunks, then possibly one cut short by a read error. */
  ghost predicate CutShort(sent: seq<Chunk>, full: seq<Chunk>, end: End) {
    exists k :: 0 <= k < |full| &&
      (|| sent == full[..k]
       || (end.ReadFailed? &&
           exists n :: 0 < n < |full[k].data| && sent == full[..k] + [full[k].(data := full[k].data[..n])]))
  }

  lemma CutAt(sent: seq<Chunk>, rest: seq<Chunk>, full: seq<Chunk>, end: End)
    requires sent + rest == full && rest != []
    ensures CutShort(sent, full, end)
  {
    assert full[..|sent|] == sent;
  }

  lemma CutInside(sent: seq<Chunk>, c: Chunk, rest: seq<Chunk>, full: seq<Chunk>, n: nat)
    requires sent + rest == full && rest != [] && rest[0] == c && 0 < n < |c.data|
    ensures CutShort(sent + [c.(data := c.data[..n])], full, ReadFailed)
  {
    var k := |sent|;
    assert full[..k] == sent && full[k] == c;
  }

  /** What is still to be sent once file i has been sent up to off. */
  ghost function Remaining(sources: seq<Source>, i: nat, off: nat): (rest: seq<Chunk>)
    requires i < |sources|
    ensures rest != []
    decreases |sources| - i, 0
  {
    ChunksFrom(i, sources[i].content, off) + RemainingFiles(sources, i + 1)
  }

  ghost function RemainingFiles(sources: seq<Source>, i: nat): (rest: seq<Chunk>)
    requires i <= |sources|
    ensures rest != []
    decreases |sources| - i, 1
  {
    if i < |sources| then Remaining(sources, i, 0) else [FinChunk(|sources|)]
  }

  lemma Assoc(p: seq<Chunk>, q: seq<Chunk>, r: seq<Chunk>)
    ensures p + q + r == p + (q + r)
  {
  }

  /** sent is the stream up to offset off of file i. */
  ghost predicate OnTrack(sources: seq<Source>, i: nat, off: nat, sent: seq<Chunk>)
    requires i < |sources|
  {
    sent + Remaining(sources, i, off) == FullStream(sources)
  }

  lemma {:induction false} RemainingIsStream(sources: seq<Source>, i: nat)
    requires i <= |sources|
    ensures DataChunks(sources, i) + RemainingFiles(sources, i) == FullStream(sources)
    decreases |sources| - i
  {
    if i < |sources| {
      RemainingIsStream(sources, i + 1);
      Assoc(DataChunks(sources, i), ChunksFrom(i, sources[i].content, 0), RemainingFiles(sources, i + 1));
    }
  }

  lemma RemainingStep(sources: seq<Source>, i: nat, off: nat)
    requires i < |sources| && off <= |sources[i].content|
    ensures var data := sources[i].content;
            var n := CutSize(|data| - off);
            if n == 0 then Remaining(sources, i, off) == RemainingFiles(sources, i + 1)
            else
              Remaining(sources, i, off) ==
              [Chunk(i, off, data[off..off + n], false)] + Remaining(sources, i, off + n)
  {
  }

  /** Moving the first remaining chunk over to the sent ones. */
  lemma SentOne(sent: seq<Chunk>, c: Chunk, rest: seq<Chunk>)
    ensures sent + ([c] + rest) == (sent + [c]) + rest
    ensures TotalBytes(sent + [c]) == TotalBytes(sent) + |c.data|
  {
    TotalAppend(sent, c);
  }

  /** One chunk: look at the cancel channel, then send. */
  method SendChunk(net: Net, sent0: seq<Chunk>, tick: nat, c: Chunk) returns (sent: seq<Chunk>, end: End)
    ensures end in {Finished, Cancelled, SendFailed}
    ensures sent == if end.Finished? then sent0 + [c] else sent0
    ensures Undisturbed(net) ==> end.Finished?
  {
    if net.cancelled(tick) { return sent0, Cancelled; }
    if !net.send(|sent0|) { return sent0, SendFailed; }
    return sent0 + [c], Finished;
  }

  /** One block read: how many bytes arrive, and whether the read broke off with an error. */
  method ReadBlock(net: Net, i: nat, off: nat, left: nat) returns (n: nat, broken: bool)
    ensures n <= CutSize(left) && (!broken ==> n == CutSize(left))
    ensures net.read(i, off).None? ==> !broken
  {
    var bad := net.read(i, off);
    n := if bad.Some? && bad.value < CutSize(left) then bad.value else CutSize(left);
    broken := bad.Some? && n < CHUNK_SIZE;
  }

  /** sent with the n bytes at off of file i, if any. */
  function WithBlock(sources: seq<Source>, i: nat, off: nat, n: nat, sent: seq<Chunk>): seq<Chunk>
    requires i < |sources| && off + n <= |sources[i].content|
  {
    if n == 0 then sent else sent + [Chunk(i, off, sources[i].content[off..off + n], false)]
  }

  lemma SliceOfSlice(data: seq<byte>, off: nat, end: nat, n: nat)
    requires off <= end <= |data| && n <= end - off
    ensures data[off..end][..n] == data[off..off + n]
  {
  }

  /** The next chunk of the stream, when the file is not at its end. */
  lemma NextChunk(sources: seq<Source>, i: nat, off: nat)
    requires i < |sources| && off < |sources[i].content|
    ensures var data := sources[i].content;
            Remaining(sources, i, off)[0] == Chunk(i, off, data[off..off + CutSize(|data| - off)], false)
  {
    RemainingStep(sources, i, off);
  }

  lemma PartIsCut(sources: seq<Source>, i: nat, off: nat, n: nat, sent: seq<Chunk>, rest: seq<Chunk>, full: seq<Chunk>)
    requires i < |sources| && off <= |sources[i].content| && 0 < n < CutSize(|sources[i].content| - off)
    requires rest == Remaining(sources, i, off) && sent + rest == full
    ensures CutShort(WithBlock(sources, i, off, n, sent), full, ReadFailed)
  {
    var data := sources[i].content;
    NextChunk(sources, i, off);
    CutInside(sent, rest[0], rest, full, n);
    SliceOfSlice(data, off, off + CutSize(|data| - off), n);
  }

  lemma BlockIsCut(sources: seq<Source>, i: nat, off: nat, n: nat, sent: seq<Chunk>)
    requires i < |sources| && off <= |sources[i].content| && n < CutSize(|sources[i].content| - off)
    requires OnTrack(sources, i, off, sent)
    ensures CutShort(WithBlock(sources, i, off, n, sent), FullStream(sources), ReadFailed)
  {
    var rest := Remaining(sources, i, off);
    if n == 0 {
      CutAt(sent, rest, FullStream(sources), ReadFailed);
    } else {
      PartIsCut(sources, i, off, n, sent, rest, FullStream(sources));
    }
  }

  lemma WholeBlock(sources: seq<Source>, i: nat, off: nat, sent: seq<Chunk>)
    requires i < |sources| && off <= |sources[i].content|
    requires OnTrack(sources, i, off, sent)
    ensures var n := CutSize(|sources[i].content| - off);
            OnTrack(sources, i, off + n, WithBlock(sources, i, off, n, sent))
  {
    var n := CutSize(|sources[i].content| - off);
    RemainingStep(sources, i, off);
    if n > 0 {
      SentOne(sent, Chunk(i, off, sources[i].content[off..off + n], false), Remaining(sources, i, off + n));
    }
  }

  /** What one round leaves behind, by how it ended. */
  lemma AfterBlock(sources: seq<Source>, i: nat, off: nat, n: nat, sent0: seq<Chunk>, end: End)
    requires i < |sources| && off <= |sources[i].content| && n <= CutSize(|sources[i].content| - off)
    requires OnTrack(sources, i, off, sent0)
    requires end.Finished? ==> n == CutSize(|sources[i].content| - off)
    requires end.Cancelled? || end.SendFailed? || end.OpenFailed? ==> n == 0
    ensures var sent := WithBlock(sources, i, off, n, sent0);
            if end.Finished? then OnTrack(sources, i, off + n, sent) else CutShort(sent, FullStream(sources), end)
  {
    if n < CutSize(|sources[i].content| - off) && end.ReadFailed? {
      BlockIsCut(sources, i, off, n, sent0);
    } else if n == CutSize(|sources[i].content| - off) {
      WholeBlock(sources, i, off, sent0);
      CutAt(WithBlock(sources, i, off, n, sent0), Remaining(sources, i, off + n), FullStream(sources), end);
    } else {
      CutAt(sent0, Remaining(sources, i, off), FullStream(sources), end);
    }
  }

  /** One round of the inner loop of stream: read a block, send it, note the end of the file. */
  method SendBlock(sources: seq<Source>, i: nat, off: nat, net: Net, sent0: seq<Chunk>, tick0: nat)
    returns (sent: seq<Chunk>, tick: nat, n: nat, eof: bool, end: End)
    requires i < |sources| && off <= |sources[i].content|
    ensures n <= CutSize(|sources[i].content| - off) && sent == WithBlock(sources, i, off, n, sent0)
    ensures end.Finished? ==> n == CutSize(|sources[i].content| - off) && eof == (n < CHUNK_SIZE)
    ensures end.Cancelled? || end.SendFailed? || end.OpenFailed? ==> n == 0
    ensures Undisturbed(net) ==> end.Finished?
  {
    sent, tick, end := sent0, tick0, Finished;
    var data := sources[i].content;
    var got, broken := ReadBlock(net, i, off, |data| - off);
    n := got;
    eof := n < CHUNK_SIZE;
    if n > 0 {
      sent, end := SendChunk(net, sent0, tick, Chunk(i, off, data[off..off + n], false));
      tick := tick + 1;
      if !end.Finished? {
        n := 0;
        return;
      }
    }
    if broken { end := ReadFailed; }
  }

  lemma TotalWithBlock(sources: seq<Source>, i: nat, off: nat, n: nat, sent: seq<Chunk>)
    requires i < |sources| && off + n <= |sources[i].content|
    ensures TotalBytes(WithBlock(sources, i, off, n, sent)) == TotalBytes(sent) + n
  {
    if n > 0 { TotalAppend(sent, Chunk(i, off, sources[i].content[off..off + n], false)); }
  }

  /** The inner loop of stream over one open file; tick counts the looks at the cancel channel. */
  method SendFile(sources: seq<Source>, i: nat, net: Net, sent0: seq<Chunk>, tick0: nat, done0: nat)
    returns (sent: seq<Chunk>, tick: nat, done: nat, end: End)
    requires i < |sources| && OnTrack(sources, i, 0, sent0) && done0 == TotalBytes(sent0)
    ensures done == TotalBytes(sent)
    ensures end.Finished? ==> OnTrack(sources, i, |sources[i].content|, sent)
    ensures !end.Finished? ==> CutShort(sent, FullStream(sources), end)
    ensures Undisturbed(net) ==> end.Finished?
  {
    sent, tick, done, end := sent0, tick0, done0, Finished;
    var off: nat, eof := 0, false;
    while !eof
      invariant off <= |sources[i].content| && done == TotalBytes(sent)
      invariant OnTrack(sources, i, off, sent)
      invariant eof ==> off == |sources[i].content|
      invariant end.Finished?
      decreases !eof, |sources[i].content| - off
    {
      ghost var before := sent;
      var n;
      sent, tick, n, eof, end := SendBlock(sources, i, off, net, sent, tick);
      AfterBlock(sources, i, off, n, before, end);
      TotalWithBlock(sources, i, off, n, before);
      off, done := off + n, done + n;
      if !end.Finished? { return; }
    }
  }

  /** With file i sent to its end, the remaining files are next. */
  lemma FileSent(sources: seq<Source>, i: nat, sent: seq<Chunk>)
    requires i < |sources| && OnTrack(sources, i, |sources[i].content|, sent)
    ensures sent + RemainingFiles(sources, i + 1) == FullStream(sources)
  {
    RemainingStep(sources, i, |sources[i].content|);
  }

  /**
   stream: undisturbed it sends exactly the full stream; it finishes exactly
   when the terminating chunk went out; otherwise what it sent is a proper
   prefix, at worst with a last chunk cut short by a read error. The progress
   it reports is the number of bytes sent.
   */
  method Stream(sources: seq<Source>, net: Net) returns (sent: seq<Chunk>, end: End, done: nat)
    ensures end.Finished? ==> sent == FullStream(sources)
    ensures !end.Finished? ==> CutShort(sent, FullStream(sources), end) && FinChunk(|sources|) !in sent
    ensures Undisturbed(net) ==> end.Finished?
    ensures done == TotalBytes(sent)
  {
    sent, done, end := [], 0, Finished;
    var tick := 0;
    var i := 0;
    RemainingIsStream(sources, 0);
    while i < |sources|
      invariant 0 <= i <= |sources| && done == TotalBytes(sent) && end.Finished?
      invariant sent + RemainingFiles(sources, i) == FullStream(sources)
    {
      CutAt(sent, RemainingFiles(sources, i), FullStream(sources), Cancelled);
      CutAt(sent, RemainingFiles(sources, i), FullStream(sources), OpenFailed);
      var cancelled := net.cancelled(tick);
      tick := tick + 1;
      if cancelled || !net.open(i) {
        end := if cancelled then Cancelled else OpenFailed;
        CutHasNoFin(sent, sources, end);
        return;
      }
      sent, tick, done, end := SendFile(sources, i, net, sent, tick, done);
      if !end.Finished? {
        CutHasNoFin(sent, sources, end);
        return;
      }
      FileSent(sources, i, sent);
      i := i + 1;
    }
    if !net.send(|sent|) {
      CutAt(sent, [FinChunk(|sources|)], FullStream(sources), SendFailed);
      end := SendFailed;
      CutHasNoFin(sent, sources, end);
      return;
    }
    SentOne(sent, FinChunk(|sources|), []);
    sent := sent + [FinChunk(|sources|)];
  }

  /** Where a stream was cut: after k chunks, or n bytes into the next one. */
  lemma CutPlace(sent: seq<Chunk>, full: seq<Chunk>, end: End) returns (k: nat, n: nat)
    requires CutShort(sent, full, end)
    ensures k < |full| && n <= |full[k].data|
    ensures sent == full[..k] || (n > 0 && sent == full[..k] + [full[k].(data := full[k].data[..n])])
  {
    k :| 0 <= k < |full| &&
      (|| sent == full[..k]
       || (end.ReadFailed? &&
           exists n :: 0 < n < |full[k].data| && sent == full[..k] + [full[k].(data := full[k].data[..n])]));
    n := 0;
    if sent != full[..k] {
      n :| 0 < n < |full[k].data| && sent == full[..k] + [full[k].(data := full[k].data[..n])];
    }
  }

  /** Nothing cut short contains the terminating chunk. */
  lemma CutHasNoFin(sent: seq<Chunk>, sources: seq<Source>, end: End)
    requires CutShort(sent, FullStream(sources), end)
    ensures forall c :: c in sent ==> !c.fin
  {
    var full := FullStream(sources);
    var k, n := CutPlace(sent, full, end);
    forall j | 0 <= j < |full| - 1 ensures !full[j].fin { assert full[j] in DataChunks(sources, |sources|); }
    if sent != full[..k] { assert full[k].data != [] && k < |full| - 1; }
  }
}
