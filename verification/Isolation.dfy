/**
 One transfer among many: whatever other offers, answers, chunks and
 cancellations a manager handles in between, and whatever fails for them, a
 transfer ends as its own chunks say.
 */
module Isolation {
  import opened Common
  import opened Names
  import opened Paths
  import opened Transfers
  import opened Streams
  import opened Deliveries
  import opened Inboxes
  import opened EndToEnd
  import opened Directories

  /** The queued chunks of transfer r, in order. */
  function Queued(queue: seq<(nat, Chunk)>, r: nat): seq<Chunk> {
    if queue == [] then []
    else (if queue[0].0 == r then [queue[0].1] else []) + Queued(queue[1..], r)
  }

  /** The chunk a step puts in the queue for transfer r, if it does. */
  function Entering(m: Inbox, a: Action, r: nat): seq<Chunk>
    requires Typed(m)
  {
    match a
    case ChunkIn(tid, from, to, c) =>
      var mine := to == m.self && tid in m.live && m.live[tid] == r && from == m.arena[r].from;
      if mine && |m.queue| != QUEUE_CAP then [c] else []
    case _ => []
  }

  /** The chunks that enter the queue for transfer r over a run. */
  ghost function Entered(m: Inbox, steps: seq<Action>, r: nat): seq<Chunk>
    requires Typed(m)
    decreases |steps|
  {
    if steps == [] then []
    else
      TypedKept(m, steps[0]);
      Entering(m, steps[0], r) + Entered(Step(m, steps[0]), steps[1..], r)
  }

  /** The step neither detaches nor cancels transfer r, and no call fails for its chunks; others may fail. */
  predicate Gentle(m: Inbox, a: Action, r: nat)
    requires r < |m.arena|
  {
    match a
    case Detach => false
    case CancelIn(tid, from, to, _) => tid != m.arena[r].tid || to != m.self || from != m.arena[r].from
    case Work(io) => m.queue != [] && m.queue[0].0 == r ==> io == ALL_OK
    case _ => true
  }

  ghost predicate AllGentle(m: Inbox, steps: seq<Action>, r: nat)
    requires Typed(m) && r < |m.arena|
    decreases |steps|
  {
    steps == [] || (
      TypedKept(m, steps[0]);
      && Gentle(m, steps[0], r) && |m.arena| <= |Step(m, steps[0]).arena|
      && AllGentle(Step(m, steps[0]), steps[1..], r))
  }

  /** What a chunk does to a transfer does not depend on the disk. */
  lemma ProcessIgnoresDisk(t: Inbound, d: Disk, e: Disk, c: Chunk, io: Io)
    requires |t.files| == |t.names|
    ensures Process(t, d, c, io).t == Process(t, e, c, io).t
  {
  }

  lemma {:induction false} ProcessAllIgnoresDisk(t: Inbound, d: Disk, e: Disk, cs: seq<Chunk>)
    requires |t.files| == |t.names|
    ensures ProcessAll(t, d, cs).t == ProcessAll(t, e, cs).t
    decreases |cs|
  {
    if cs != [] {
      ProcessIgnoresDisk(t, d, e, cs[0], ALL_OK);
      var x, y := Process(t, d, cs[0], ALL_OK), Process(t, e, cs[0], ALL_OK);
      ProcessAllIgnoresDisk(x.t, x.disk, y.disk, cs[1..]);
    }
  }

  lemma {:induction false} QueuedAppend(queue: seq<(nat, Chunk)>, e: (nat, Chunk), r: nat)
    ensures Queued(queue + [e], r) == Queued(queue, r) + if e.0 == r then [e.1] else []
  {
    if queue == [] {
      assert queue + [e] == [e] && [e][1..] == [];
    } else {
      assert (queue + [e])[1..] == queue[1..] + [e];
      QueuedAppend(queue[1..], e, r);
    }
  }

  /** Transfer r is registered and not waiting for an answer. */
  ghost predicate Underway(m: Inbox, r: nat) {
    Typed(m) && r < |m.arena| && IsLive(m, r) && !m.arena[r].state.Pending?
  }

  /** A step other than the write loop's leaves transfer r and its chunks alone, except for adding one. */
  lemma OtherStep(m: Inbox, a: Action, r: nat)
    requires Underway(m, r) && Gentle(m, a, r) && !a.Work? && !a.ChunkIn?
    ensures var m1 := Step(m, a); r < |m1.arena| && m1.arena[r] == m.arena[r] && IsLive(m1, r) && m1.queue == m.queue
  {
    if a.Offer? {
      OfferAdds(m, a.man, a.up);
    } else {
      OthersKeepRegistry(m, a);
      LeavesAlone(m, a, r);
    }
  }

  /** Answers and cancels for other transfers, or refused ones, leave transfer r alone. */
  lemma LeavesAlone(m: Inbox, a: Action, r: nat)
    requires Underway(m, r) && Gentle(m, a, r) && (a.Answer? || a.CancelIn? || a.Attach?)
    ensures var m1 := Step(m, a); |m1.arena| == |m.arena| && m1.arena[r] == m.arena[r] && m1.queue == m.queue
  {
  }

  lemma ChunkStep(m: Inbox, a: Action, r: nat)
    requires Underway(m, r) && a.ChunkIn?
    ensures var m1 := Step(m, a);
            && m1.arena == m.arena && m1.live == m.live
            && Queued(m1.queue, r) == Queued(m.queue, r) + Entering(m, a, r)
  {
    if a.tid in m.live {
      QueuedAppend(m.queue, (m.live[a.tid], a.chunk), r);
      assert m.live[a.tid] != r ==> Entering(m, a, r) == [];
    }
  }

  lemma NeverPendingAgain(t: Inbound, disk: Disk, c: Chunk, io: Io)
    requires |t.files| == |t.names| && !t.state.Pending?
    ensures !Process(t, disk, c, io).t.state.Pending?
  {
  }

  lemma ProcessOne(t: Inbound, disk: Disk, c: Chunk)
    requires |t.files| == |t.names|
    ensures ProcessAll(t, map[], [c]).t == Process(t, disk, c, ALL_OK).t
  {
    ProcessIgnoresDisk(t, disk, map[], c, ALL_OK);
    ProcessCons(t, map[], c, []);
    assert [c] + [] == [c];
  }

  /** The write loop takes the next chunk of r or leaves r alone. */
  lemma WorkStep(m: Inbox, io: Io, r: nat) returns (taken: seq<Chunk>)
    requires Underway(m, r) && Gentle(m, Action.Work(io), r)
    ensures var m1 := HandleWork(m, io);
            && r < |m1.arena| && IsLive(m1, r) && !m1.arena[r].state.Pending?
            && Queued(m.queue, r) == taken + Queued(m1.queue, r)
            && m1.arena[r] == ProcessAll(m.arena[r], map[], taken).t
  {
    taken := [];
    if m.queue != [] {
      var (q, c) := m.queue[0];
      ProcessSame(m.arena[q], m.disk, c, io);
      if q == r {
        taken := [c];
        NeverPendingAgain(m.arena[r], m.disk, c, io);
        ProcessOne(m.arena[r], m.disk, c);
      }
    }
  }

  /** One gentle step: at most one chunk of r is processed, and at most one enters. */
  lemma GentleStep(m: Inbox, a: Action, r: nat) returns (taken: seq<Chunk>)
    requires Underway(m, r) && Gentle(m, a, r) && Typed(Step(m, a))
    ensures var m1 := Step(m, a);
            && Underway(m1, r) && taken + Queued(m1.queue, r) == Queued(m.queue, r) + Entering(m, a, r)
            && m1.arena[r] == ProcessAll(m.arena[r], map[], taken).t
  {
    taken := [];
    if a.Work? {
      taken := WorkStep(m, a.io, r);
    } else if a.ChunkIn? {
      ChunkStep(m, a, r);
    } else {
      OtherStep(m, a, r);
    }
  }

  lemma ProcessBoth(t: Inbound, p: seq<Chunk>, q: seq<Chunk>)
    requires |t.files| == |t.names|
    ensures ProcessAll(t, map[], p + q).t == ProcessAll(ProcessAll(t, map[], p).t, map[], q).t
  {
    ProcessAppend(t, map[], p, q);
    var o := ProcessAll(t, map[], p);
    ProcessAllIgnoresDisk(o.t, o.disk, map[], q);
  }

  lemma Shuffle(taken: seq<Chunk>, rest: seq<Chunk>, last: seq<Chunk>, mid: seq<Chunk>, first: seq<Chunk>,
      e: seq<Chunk>, es: seq<Chunk>)
    requires taken + mid == first + e && rest + last == mid + es
    ensures (taken + rest) + last == first + (e + es)
  {
    assert (taken + rest) + last == taken + (rest + last);
    assert taken + (mid + es) == (taken + mid) + es;
    assert (first + e) + es == first + (e + es);
  }

  /**
   Over any gentle run transfer r processes its own chunks in the order they
   entered, and nothing else: processed, then still queued, make up all that
   was queued or entered.
   */
  lemma {:induction false} OwnChunksOnly(m: Inbox, steps: seq<Action>, r: nat) returns (done: seq<Chunk>)
    requires Underway(m, r) && AllGentle(m, steps, r)
    ensures var m' := Run(m, steps);
            && Underway(m', r)
            && done + Queued(m'.queue, r) == Queued(m.queue, r) + Entered(m, steps, r)
            && m'.arena[r] == ProcessAll(m.arena[r], map[], done).t
    decreases |steps|
  {
    done := [];
    if steps != [] {
      TypedKept(m, steps[0]);
      var taken := GentleStep(m, steps[0], r);
      var m1 := Step(m, steps[0]);
      var rest := OwnChunksOnly(m1, steps[1..], r);
      done := taken + rest;
      ProcessBoth(m.arena[r], taken, rest);
      Shuffle(taken, rest, Queued(Run(m1, steps[1..]).queue, r), Queued(m1.queue, r), Queued(m.queue, r),
              Entering(m, steps[0], r), Entered(m1, steps[1..], r));
    }
  }

  /** What the full stream makes of a transfer, in terms of the bytes it accepted. */
  lemma OutcomeOfStream(t: Inbound, sources: seq<Source>)
    requires Accepted(t, sources)
    ensures var o := ProcessAll(t, map[], FullStream(sources)).t; Outcomes(o, t, sources)
  {
    TransferIsExact(t, map[], sources);
    AllKept(t, map[], FullStream(sources));
    var o := ProcessAll(t, map[], FullStream(sources));
    if o.t.state.Done? {
      forall i | 0 <= i < |sources| ensures FileBytes(o.t.accepted, i) == sources[i].content {
        DoneIsComplete(o.t, o.disk, i);
      }
    }
  }

  /** o is t after its stream: Done exactly when all sources match, otherwise Failed, and if Done with their bytes. */
  ghost predicate Outcomes(o: Inbound, t: Inbound, sources: seq<Source>) {
    && o.tid == t.tid && o.dir == t.dir && o.names == t.names && o.files == t.files && |t.files| == |sources|
    && (o.state.Done? <==> AllMatch(sources)) && (!o.state.Done? ==> o.state.Failed?)
    && (o.state.Done? ==> forall i :: 0 <= i < |sources| ==> FileBytes(o.accepted, i) == sources[i].content)
  }

  /** Everything of the sender's stream entered the queue and was drained. */
  ghost predicate Streamed(m: Inbox, steps: seq<Action>, r: nat, sources: seq<Source>)
    requires Typed(m)
  {
    Queued(m.queue, r) == [] && Entered(m, steps, r) == FullStream(sources) && Queued(Run(m, steps).queue, r) == []
  }

  lemma StreamedOutcome(m: Inbox, steps: seq<Action>, r: nat, sources: seq<Source>)
    requires Underway(m, r) && Accepted(m.arena[r], sources) && AllGentle(m, steps, r) && Streamed(m, steps, r, sources)
    ensures Underway(Run(m, steps), r) && Outcomes(Run(m, steps).arena[r], m.arena[r], sources)
  {
    var done := OwnChunksOnly(m, steps, r);
    assert done == done + Queued(Run(m, steps).queue, r) == Queued(m.queue, r) + FullStream(sources);
    assert Queued(m.queue, r) + FullStream(sources) == FullStream(sources);
    OutcomeOfStream(m.arena[r], sources);
  }

  /** The staged files of transfer r are the sources, byte for byte. */
  ghost predicate FilesInPlace(m: Inbox, r: nat, sources: seq<Source>)
    requires r < |m.arena| && |m.arena[r].names| == |sources|
  {
    forall i :: 0 <= i < |sources| ==>
                  var p := Path(m.arena[r].dir, m.arena[r].names[i]); p in m.disk && m.disk[p] == sources[i].content
  }

  lemma DoneInPlace(m: Inbox, r: nat, t: Inbound, sources: seq<Source>)
    requires Inv(m) && Underway(m, r) && Held(m, r) && Outcomes(m.arena[r], t, sources) && m.arena[r].state.Done?
    ensures FilesInPlace(m, r, sources)
  {
    forall i | 0 <= i < |sources|
      ensures var p := Path(m.arena[r].dir, m.arena[r].names[i]); p in m.disk && m.disk[p] == sources[i].content
    {
      assert Good(m, r);
      DoneIsComplete(m.arena[r], m.disk, i);
    }
  }

  /**
   Exactness for one transfer among any others. It was accepted from these
   sources, nothing of it is queued yet, the run is gentle to it, and the
   sender's full stream entered the queue and was drained. Then it is Done if
   and only if every source matches, otherwise Failed. When it is Done, and was
   alone in its directory all along, every staged file equals its source byte
   for byte.
   */
  lemma TransferAmongOthersIsExact(m: Inbox, steps: seq<Action>, r: nat, sources: seq<Source>)
    requires Inv(m) && AllFit(steps) && r < |m.arena| && IsLive(m, r)
    requires Accepted(m.arena[r], sources) && AllGentle(m, steps, r) && Streamed(m, steps, r, sources)
    ensures var m' := Run(m, steps);
            && r < |m'.arena| && IsLive(m', r) && |m'.arena[r].names| == |sources|
            && (m'.arena[r].state.Done? <==> AllMatch(sources))
            && (!m'.arena[r].state.Done? ==> m'.arena[r].state.Failed?)
            && (m'.arena[r].state.Done? && Alone(m, r) && NoneEnters(m, steps, m.arena[r].dir) ==>
                  FilesInPlace(m', r, sources))
  {
    StreamedOutcome(m, steps, r, sources);
    RunKeeps(m, steps);
    var m' := Run(m, steps);
    if m'.arena[r].state.Done? && Alone(m, r) && NoneEnters(m, steps, m.arena[r].dir) {
      RunKeepsHeld(m, steps, r);
      DoneInPlace(m', r, m.arena[r], sources);
    }
  }
}
