/**
 What the sender of a file transfer is told, in terms of how the receiver's
 transfer ends.
 */
module Replies {
  import opened Common
  import opened Transfers
  import opened Streams
  import opened Deliveries
  import opened Inboxes
  import opened EndToEnd
  import opened Directories
  import opened Isolation
  import Notices

  /** The message that says a transfer has just ended, if it has. */
  function Told(t: Inbound, t': Inbound): seq<Control> {
    if t.state.Receiving? && t'.state.Done? then [FileDone(t.tid, t.from)]
    else if t.state.Receiving? && t'.state.Failed? then [FileCancel(t.tid, t.from, "receive failed")]
    else []
  }

  lemma ProcessTells(t: Inbound, disk: Disk, c: Chunk, io: Io)
    requires |t.files| == |t.names|
    ensures var o := Process(t, disk, c, io); ControlFor(o.t, o.reply) == Told(t, o.t)
  {
    Notices.ProcessNews(t, disk, c, io);
  }

  /**
   What one turn of the write loop tells anyone: that the transfer of the oldest
   queued chunk is done, if it went from Receiving to Done; that it failed, if it
   went from Receiving to Failed; otherwise nothing.
   */
  lemma WorkTells(m: Inbox, io: Io)
    requires Typed(m)
    ensures var m' := HandleWork(m, io);
            if m.queue == [] || !m.attached || !io.told then m'.sent == m.sent
            else
              var r := m.queue[0].0;
              && r < |m'.arena| && m'.sent == m.sent + Told(m.arena[r], m'.arena[r])
  {
    if m.queue != [] {
      var (r, c) := m.queue[0];
      ProcessTells(m.arena[r], m.disk, c, io);
    }
  }

  /** The messages by which the sender of tid learns that it is done or has failed, in order. */
  function Endings(sent: seq<Control>, tid: TID, to: string): seq<Control> {
    if sent == [] then []
    else
      var c := sent[|sent| - 1];
      Endings(sent[..|sent| - 1], tid, to) +
      if c == FileDone(tid, to) || c == FileCancel(tid, to, "receive failed") then [c] else []
  }

  lemma EndingsOne(sent: seq<Control>, c: Control, tid: TID, to: string)
    ensures Endings(sent + [c], tid, to) ==
            Endings(sent, tid, to) +
            if c == FileDone(tid, to) || c == FileCancel(tid, to, "receive failed") then [c] else []
  {
    assert (sent + [c])[..|sent|] == sent;
  }

  lemma SendEndings(m: Inbox, c: Control, up: bool, tid: TID, to: string)
    requires c != FileDone(tid, to) && c != FileCancel(tid, to, "receive failed")
    ensures Endings(Send(m, c, up).sent, tid, to) == Endings(m.sent, tid, to)
  {
    EndingsOne(m.sent, c, tid, to);
  }

  /** A step other than the write loop's tells nobody that a transfer ended. */
  lemma OtherStepTells(m: Inbox, a: Action, tid: TID, to: string)
    requires Typed(m) && !a.Work?
    ensures Endings(Step(m, a).sent, tid, to) == Endings(m.sent, tid, to)
  {
    match a
    case Offer(man, up) =>
      if Draft(m, man).Some? {
        var t := Draft(m, man).value;
        SendEndings(Register(m, t), FileAccept(t.tid, t.from), up, tid, to);
      }
    case Answer(id, accept, mkdir, up) =>
      if id in m.live {
        var t := m.arena[m.live[id]];
        SendEndings(m, FileAccept(id, t.from), up, tid, to);
        SendEndings(m, FileCancel(id, t.from, "declined"), up, tid, to);
      }
    case _ =>
  }

  lemma QueuedIsLive(m: Inbox, t': Inbound)
    requires Inv(m) && m.queue != [] && Told(m.arena[m.queue[0].0], t') != []
    ensures IsLive(m, m.queue[0].0)
  {
    assert Good(m, m.queue[0].0);
  }

  /** What is told of transfer q reaches r's sender only if it is r. */
  lemma ToldOfOwn(m: Inbox, m': Inbox, q: nat, r: nat)
    requires q < |m.arena| == |m'.arena| && r < |m.arena| && IsLive(m, r)
    requires m'.arena[q].tid == m.arena[q].tid && (q != r ==> m'.arena[r] == m.arena[r])
    requires var told := Told(m.arena[q], m'.arena[q]); m'.sent == m.sent + told && (told != [] ==> IsLive(m, q))
    ensures var t := m.arena[r];
            Endings(m'.sent, t.tid, t.from) == Endings(m.sent, t.tid, t.from) + Told(t, m'.arena[r])
  {
    var t, told := m.arena[r], Told(m.arena[q], m'.arena[q]);
    if told == [] {
      assert m.sent + told == m.sent;
    } else {
      EndingsOne(m.sent, told[0], t.tid, t.from);
      assert m.sent + told == m.sent + [told[0]];
    }
    assert Endings(m.sent, t.tid, t.from) + [] == Endings(m.sent, t.tid, t.from);
  }

  /** A turn of the write loop tells r's sender of r's own ending only. */
  lemma WorkStepTells(m: Inbox, io: Io, r: nat)
    requires Inv(m) && Underway(m, r) && Gentle(m, Action.Work(io), r) && m.attached
    ensures var m' := HandleWork(m, io); var t := m.arena[r];
            && r < |m'.arena| && m'.attached
            && Endings(m'.sent, t.tid, t.from) == Endings(m.sent, t.tid, t.from) + Told(t, m'.arena[r])
  {
    var m' := HandleWork(m, io);
    WorkTells(m, io);
    var t := m.arena[r];
    assert Endings(m.sent, t.tid, t.from) + [] == Endings(m.sent, t.tid, t.from);
    if m.queue != [] {
      var q := m.queue[0].0;
      WorkKeeps(m, io);
      assert Extends(m.arena[q], m'.arena[q]);
      if io.told {
        if Told(m.arena[q], m'.arena[q]) != [] { QueuedIsLive(m, m'.arena[q]); }
        ToldOfOwn(m, m', q, r);
      }
    }
  }

  /** One gentle step: transfer r's sender hears exactly of r's own ending. */
  lemma StepTells(m: Inbox, a: Action, r: nat)
    requires Inv(m) && Underway(m, r) && Gentle(m, a, r) && m.attached
    ensures var m' := Step(m, a); var t := m.arena[r];
            && r < |m'.arena| && m'.attached
            && Endings(m'.sent, t.tid, t.from) == Endings(m.sent, t.tid, t.from) + Told(t, m'.arena[r])
  {
    if a.Work? {
      WorkStepTells(m, a.io, r);
    } else {
      OtherStepTells(m, a, m.arena[r].tid, m.arena[r].from);
      OthersEndNothing(m, a, r);
      StaysAttached(m, a);
    }
  }

  lemma StaysAttached(m: Inbox, a: Action)
    requires Typed(m) && m.attached && a != Detach
    ensures Step(m, a).attached
  {
  }

  lemma OthersEndNothing(m: Inbox, a: Action, r: nat)
    requires Underway(m, r) && Gentle(m, a, r) && !a.Work?
    ensures r < |Step(m, a).arena| && Step(m, a).arena[r] == m.arena[r]
  {
    if a.ChunkIn? { ChunkStep(m, a, r); } else { OtherStep(m, a, r); }
  }

  /** What the sender has heard of a transfer that may have ended. */
  function EndOf(t: Inbound): seq<Control> {
    if t.state.Done? then [FileDone(t.tid, t.from)]
    else if t.state.Failed? then [FileCancel(t.tid, t.from, "receive failed")]
    else []
  }

  /** What it hears between t and t', if t was still receiving. */
  function EndSince(t: Inbound, t': Inbound): seq<Control> { if t.state.Receiving? then EndOf(t') else [] }

  /** Under way, and either receiving or ended. */
  ghost predicate Started(m: Inbox, r: nat) {
    Inv(m) && Underway(m, r) && m.attached && (m.arena[r].state.Receiving? || m.arena[r].state.Terminal())
  }

  /** From m to m' the sender of transfer r hears of its ending, if that falls in between, and of nothing else. */
  ghost predicate Hears(m: Inbox, m': Inbox, r: nat) {
    && r < |m.arena| && r < |m'.arena|
    && var t, t' := m.arena[r], m'.arena[r];
       && t'.tid == t.tid && t'.from == t.from && (t.state.Terminal() ==> t'.state == t.state)
       && Endings(m'.sent, t.tid, t.from) == Endings(m.sent, t.tid, t.from) + EndSince(t, t')
  }

  lemma StepStarted(m: Inbox, a: Action, r: nat)
    requires Started(m, r) && Fits(a) && Gentle(m, a, r)
    ensures Started(Step(m, a), r) && Hears(m, Step(m, a), r)
  {
    StepKeeps(m, a);
    assert Extends(m.arena[r], Step(m, a).arena[r]);
    var taken := GentleStep(m, a, r);
    StaysOrEnds(m.arena[r], taken);
    StepTells(m, a, r);
  }

  lemma HearsThen(m: Inbox, m1: Inbox, m2: Inbox, r: nat)
    requires Hears(m, m1, r) && Hears(m1, m2, r)
    requires Started(m, r) && Started(m1, r)
    ensures Hears(m, m2, r)
  {
    var t, t1, t2 := m.arena[r], m1.arena[r], m2.arena[r];
    assert EndSince(t, t1) + EndSince(t1, t2) == EndSince(t, t2);
    var heard := Endings(m.sent, t.tid, t.from);
    assert (heard + EndSince(t, t1)) + EndSince(t1, t2) == heard + (EndSince(t, t1) + EndSince(t1, t2));
  }

  /** A transfer under way ends at most once, and its sender is told as it does. */
  lemma {:induction false} RunTells(m: Inbox, steps: seq<Action>, r: nat)
    requires Started(m, r) && AllFit(steps) && AllGentle(m, steps, r)
    ensures Hears(m, Run(m, steps), r)
    decreases |steps|
  {
    if steps != [] {
      AllFitSplit(steps);
      StepStarted(m, steps[0], r);
      RunTells(Step(m, steps[0]), steps[1..], r);
      HearsThen(m, Step(m, steps[0]), Run(Step(m, steps[0]), steps[1..]), r);
    }
  }

  /** Processing chunks leaves a transfer under way, or ends it for good. */
  lemma {:induction false} StaysOrEnds(t: Inbound, cs: seq<Chunk>)
    requires |t.files| == |t.names| && (t.state.Receiving? || t.state.Terminal())
    ensures var o := ProcessAll(t, map[], cs).t; o.state.Receiving? || o.state.Terminal()
  {
    StaysOrEndsFrom(t, map[], cs);
  }

  lemma {:induction false} StaysOrEndsFrom(t: Inbound, disk: Disk, cs: seq<Chunk>)
    requires |t.files| == |t.names| && (t.state.Receiving? || t.state.Terminal())
    ensures var o := ProcessAll(t, disk, cs).t; o.state.Receiving? || o.state.Terminal()
    decreases |cs|
  {
    if cs != [] {
      var o := Process(t, disk, cs[0], ALL_OK);
      StaysOrEndsFrom(o.t, o.disk, cs[1..]);
    }
  }

  /**
   The sender's view of a transfer among any others: when its stream entered the
   queue and drained, it is told exactly once, that all is done if and only if
   every source matched, and otherwise that receiving failed.
   */
  lemma SenderIsToldExactly(m: Inbox, steps: seq<Action>, r: nat, sources: seq<Source>)
    requires Inv(m) && AllFit(steps) && r < |m.arena| && IsLive(m, r) && m.attached
    requires Accepted(m.arena[r], sources) && AllGentle(m, steps, r) && Streamed(m, steps, r, sources)
    ensures var t := m.arena[r];
            Endings(Run(m, steps).sent, t.tid, t.from) ==
            Endings(m.sent, t.tid, t.from) +
            if AllMatch(sources) then [FileDone(t.tid, t.from)] else [FileCancel(t.tid, t.from, "receive failed")]
  {
    TransferAmongOthersIsExact(m, steps, r, sources);
    RunTells(m, steps, r);
  }
}
