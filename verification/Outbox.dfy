/**
 The sending side's registry (platform/filexfer/filexfer.go): which peer a
 stream is started for, and the cancel channels that end it.
 */
module Outboxes {
  import Transfers

  type TID = Transfers.TID

  datatype OutState = Sending | Done | Declined | Failed | Canceled

  /** outPeer; closed says whether its cancel channel has been closed. */
  datatype OutPeer = OutPeer(state: OutState, started: bool, closed: bool)

  datatype Out = Out(order: seq<string>, peers: map<string, OutPeer>)

  /**
   The outbound half of Manager. made lists the ids ever offered, which keeps new
   ones fresh as newTransferID does by clock and chance; launched lists
   the streams ever started; unknown lists the cancels sent for ids not
   offered; crashed is a close of a closed channel.
   */
  datatype Outbox = Outbox(out: map<TID, Out>, made: set<TID>, launched: seq<(TID, string)>,
                           unknown: seq<(TID, string)>, crashed: bool)

  datatype Act =
    | Prepare(tid: TID)
    | Accept(tid: TID, from: string)
    | Cancel(tid: TID, from: string, reason: string)
    | Mark(tid: TID, peer: string, state: OutState)
    | Detach

  const EMPTY := Outbox(map[], {}, [], [], false)

  function SetPeer(o: Outbox, tid: TID, from: string, p: OutPeer): Outbox
    requires tid in o.out
  {
    var t := o.out[tid];
    o.(out := o.out[tid := Out(if from in t.peers then t.order else t.order + [from], t.peers[from := p])])
  }

  /** onAccept. */
  function OnAccept(o: Outbox, tid: TID, from: string): Outbox {
    if tid !in o.out then o.(unknown := o.unknown + [(tid, from)])
    else
      var p := if from in o.out[tid].peers then o.out[tid].peers[from] else OutPeer(Sending, false, false);
      if p.started then o
      else SetPeer(o, tid, from, p.(started := true)).(launched := o.launched + [(tid, from)])
  }

  /** The outbound half of onCanceled. */
  function OnCanceled(o: Outbox, tid: TID, from: string, reason: string): Outbox {
    if tid !in o.out then o
    else if from !in o.out[tid].peers then
      SetPeer(o, tid, from, OutPeer(if reason == "declined" then Declined else Canceled, false, false))
    else
      var p := o.out[tid].peers[from];
      SetPeer(o, tid, from, p.(closed := true, state := if p.state.Sending? then Canceled else p.state))
  }

  function OnMark(o: Outbox, tid: TID, peer: string, st: OutState): Outbox {
    if tid in o.out && peer in o.out[tid].peers then SetPeer(o, tid, peer, o.out[tid].peers[peer].(state := st)) else o
  }

  ghost predicate AnyClosed(o: Outbox) {
    exists tid, from :: tid in o.out && from in o.out[tid].peers && o.out[tid].peers[from].closed
  }

  ghost function Step(o: Outbox, a: Act): Outbox {
    if o.crashed then o
    else
      match a
      case Prepare(tid) => if tid in o.made then o else o.(out := o.out[tid := Out([], map[])], made := o.made + {tid})
      case Accept(tid, from) => OnAccept(o, tid, from)
      case Cancel(tid, from, reason) => OnCanceled(o, tid, from, reason)
      case Mark(tid, peer, st) => OnMark(o, tid, peer, st)
      case Detach => if AnyClosed(o) then o.(crashed := true) else o.(out := map[])
  }

  ghost function Run(acts: seq<Act>): Outbox {
    if acts == [] then EMPTY else Step(Run(acts[..|acts| - 1]), acts[|acts| - 1])
  }

  /** The registry's fields; the channels of a transfer's peers are closed one by one. */
  class Sender {
    var out: map<TID, Out>
    var made: set<TID>
    var launched: seq<(TID, string)>
    var unknown: seq<(TID, string)>
    var crashed: bool

    function View(): Outbox
      reads this
    {
      Outbox(out, made, launched, unknown, crashed)
    }

    constructor ()
      ensures View() == EMPTY
    {
      out, made, launched, unknown, crashed := map[], {}, [], [], false;
    }

    method OnAccept(tid: TID, from: string)
      modifies this
      ensures View() == Outboxed(old(View()), Accept(tid, from))
    {
      if tid !in out {
        unknown := unknown + [(tid, from)];
        return;
      }
      var t := out[tid];
      if from !in t.peers {
        t := Out(t.order + [from], t.peers[from := OutPeer(Sending, false, false)]);
      }
      var p := t.peers[from];
      if p.started {
        return;
      }
      assert t.peers[from := p.(started := true)] == old(out)[tid].peers[from := p.(started := true)];
      out := out[tid := t.(peers := t.peers[from := p.(started := true)])];
      launched := launched + [(tid, from)];
    }

    method OnCanceled(tid: TID, from: string, reason: string)
      modifies this
      ensures View() == Outboxed(old(View()), Cancel(tid, from, reason))
    {
      if tid !in out {
        return;
      }
      var t := out[tid];
      if from !in t.peers {
        var st := Canceled;
        if reason == "declined" {
          st := Declined;
        }
        t := Out(t.order + [from], t.peers[from := OutPeer(st, false, false)]);
      } else {
        var p := t.peers[from];
        if !p.closed {
          p := p.(closed := true);
        }
        if p.state.Sending? {
          p := p.(state := Canceled);
        }
        t := t.(peers := t.peers[from := p]);
      }
      out := out[tid := t];
    }

    /** markOutPeer: how a stream, or the receiver, ended. */
    method MarkPeer(tid: TID, peer: string, st: OutState)
      modifies this`out
      ensures View() == OnMark(old(View()), tid, peer, st)
    {
      if tid !in out || peer !in out[tid].peers {
        return;
      }
      var t := out[tid];
      out := out[tid := t.(peers := t.peers[peer := t.peers[peer].(state := st)])];
    }

    /** The cancel channel of one peer is closed, its stream stopped; ok is false if it was closed already. */
    method CloseOne(tid: TID, from: string) returns (ok: bool)
      requires tid in out && from in out[tid].peers
      modifies this`out
      ensures ok == !old(out)[tid].peers[from].closed
      ensures out.Keys == old(out).Keys && forall t :: t in out ==> out[t].peers.Keys == old(out)[t].peers.Keys
      ensures forall t :: t in out && t != tid ==> out[t] == old(out)[t]
      ensures forall f :: f in out[tid].peers && f != from ==> out[tid].peers[f] == old(out)[tid].peers[f]
    {
      var p := out[tid].peers[from];
      ok := !p.closed;
      p := p.(closed := true, state := if p.state.Sending? then Canceled else p.state);
      out := out[tid := out[tid].(peers := out[tid].peers[from := p])];
    }

    /** Every peer of one transfer, in whatever order the map yields them. */
    method CloseTransfer(tid: TID) returns (ok: bool)
      requires tid in out
      modifies this`out
      ensures ok == forall f :: f in old(out)[tid].peers ==> !old(out)[tid].peers[f].closed
      ensures out.Keys == old(out).Keys && forall t :: t in out && t != tid ==> out[t] == old(out)[t]
    {
      var peers := out[tid].peers.Keys;
      while peers != {}
        invariant out.Keys == old(out).Keys && peers <= out[tid].peers.Keys == old(out)[tid].peers.Keys
        invariant forall t :: t in out && t != tid ==> out[t] == old(out)[t]
        invariant forall f :: f in peers ==> out[tid].peers[f] == old(out)[tid].peers[f]
        invariant forall f :: f in out[tid].peers && f !in peers ==> !old(out)[tid].peers[f].closed
        decreases peers
      {
        var from :| from in peers;
        peers := peers - {from};
        ok := CloseOne(tid, from);
        if !ok {
          return;
        }
      }
      ok := true;
    }

    /** Closes every channel; closing a closed one ends the program. */
    method Detach()
      requires !crashed
      modifies this`out, this`crashed
      ensures crashed == AnyClosed(old(View()))
      ensures !crashed ==> View() == Step(old(View()), Act.Detach)
    {
      var tids := out.Keys;
      while tids != {}
        invariant tids <= out.Keys == old(out).Keys && !crashed
        invariant forall t :: t in tids ==> out[t] == old(out)[t]
        invariant forall t, f :: t in out && t !in tids && f in old(out)[t].peers ==> !old(out)[t].peers[f].closed
        decreases tids
      {
        var tid :| tid in tids;
        tids := tids - {tid};
        var ok := CloseTransfer(tid);
        if !ok {
          crashed := true;
          return;
        }
      }
      out := map[];
    }
  }

  function Outboxed(o: Outbox, a: Act): Outbox
    requires a.Accept? || a.Cancel?
  {
    match a
    case Accept(tid, from) => OnAccept(o, tid, from)
    case Cancel(tid, from, reason) => OnCanceled(o, tid, from, reason)
  }

  /** A stream was started for a registered peer exactly when its record says so, and for nothing never offered. */
  ghost predicate Tracked(o: Outbox) {
    && o.out.Keys <= o.made
    && (forall l :: l in o.launched ==> l.0 in o.made)
    && (forall i, j :: 0 <= i < j < |o.launched| ==> o.launched[i] != o.launched[j])
    && (forall tid, from :: tid in o.out ==>
          ((tid, from) in o.launched <==> from in o.out[tid].peers && o.out[tid].peers[from].started))
  }

  lemma StepTracked(o: Outbox, a: Act)
    requires Tracked(o)
    ensures Tracked(Step(o, a))
  {
    match a
    case Accept(tid, from) => AcceptTracked(o, tid, from);
    case _ =>
  }

  lemma AcceptTracked(o: Outbox, tid: TID, from: string)
    requires Tracked(o)
    ensures Tracked(OnAccept(o, tid, from))
  {
  }

  /** Whatever accepts, cancels and detaches come in whatever order, each peer is streamed an offer at most once. */
  lemma {:induction false} StreamedOnce(acts: seq<Act>)
    ensures Tracked(Run(acts))
  {
    if acts != [] {
      StreamedOnce(acts[..|acts| - 1]);
      StepTracked(Run(acts[..|acts| - 1]), acts[|acts| - 1]);
    }
  }

  /** The offer stands: it was made, for the first time, since the last Detach. */
  ghost predicate Offered(acts: seq<Act>, tid: TID) {
    acts != [] && (
      var front, a := acts[..|acts| - 1], acts[|acts| - 1];
      a != Detach && (Offered(front, tid) || (a == Prepare(tid) && Prepare(tid) !in front)))
  }

  /** The peer was heard from, by accept or cancel, while the offer stood, and there was no Detach since. */
  ghost predicate Heard(acts: seq<Act>, tid: TID, from: string) {
    acts != [] && (
      var front, a := acts[..|acts| - 1], acts[|acts| - 1];
      a != Detach && (
        || Heard(front, tid, from)
        || (Offered(front, tid) && (a.Accept? || a.Cancel?) && a.tid == tid && a.from == from)))
  }

  /** It canceled after it had been heard from, and there was no Detach since. */
  ghost predicate Hung(acts: seq<Act>, tid: TID, from: string) {
    acts != [] && (
      var front, a := acts[..|acts| - 1], acts[|acts| - 1];
      a != Detach && (Hung(front, tid, from) || (Heard(front, tid, from) && a.Cancel? && a.tid == tid &&
        a.from == from)))
  }

  lemma {:induction false} HungWasHeard(acts: seq<Act>, tid: TID, from: string)
    requires Hung(acts, tid, from)
    ensures Heard(acts, tid, from)
  {
    var front := acts[..|acts| - 1];
    if Hung(front, tid, from) { HungWasHeard(front, tid, from); }
  }

  /** The records for one offer and peer are what the messages say. */
  ghost predicate Records(o: Outbox, acts: seq<Act>, tid: TID, from: string) {
    && (tid in o.made <==> Prepare(tid) in acts)
    && (tid in o.out <==> Offered(acts, tid))
    && (tid in o.out && from in o.out[tid].peers <==> Heard(acts, tid, from))
    && (tid in o.out && from in o.out[tid].peers && o.out[tid].peers[from].closed <==> Hung(acts, tid, from))
  }

  /** Only Detach can fail. */
  lemma {:induction false} OnlyDetachFails(acts: seq<Act>)
    requires Detach !in acts
    ensures !Run(acts).crashed
  {
    if acts != [] {
      assert acts[|acts| - 1] in acts;
      OnlyDetachFails(acts[..|acts| - 1]);
    }
  }

  /** Through any number of attaches and detaches, as long as the program runs. */
  lemma {:induction false} RunRecords(acts: seq<Act>, tid: TID, from: string)
    ensures !Run(acts).crashed ==> Records(Run(acts), acts, tid, from)
  {
    if acts != [] {
      var front, a := acts[..|acts| - 1], acts[|acts| - 1];
      assert acts == front + [a];
      RunRecords(front, tid, from);
      StreamedOnce(front);
    }
  }

  /**
   Detach closes every channel without asking whether onCanceled already did:
   in a program that still runs, it fails exactly when some peer canceled, since
   the last Detach, after it had been heard from on a standing offer.
   */
  lemma DetachFailsIff(acts: seq<Act>)
    requires !Run(acts).crashed
    ensures Run(acts + [Detach]).crashed <==> exists tid, from :: Hung(acts, tid, from)
  {
    assert (acts + [Detach])[..|acts|] == acts;
    forall tid, from ensures Records(Run(acts), acts, tid, from) {
      RunRecords(acts, tid, from);
    }
    var o := Run(acts);
    assert Run(acts + [Detach]) == Step(o, Detach);
    if AnyClosed(o) {
      var tid, from :| tid in o.out && from in o.out[tid].peers && o.out[tid].peers[from].closed;
      assert Records(o, acts, tid, from);
    }
    if tid, from :| Hung(acts, tid, from) {
      assert Records(o, acts, tid, from);
      HungWasHeard(acts, tid, from);
      assert o.out[tid].peers[from].closed;
      assert Step(o, Detach).crashed;
      assert exists tid, from :: Hung(acts, tid, from);
    }
  }

  /** The shortest such run: offer, accept, cancel, detach. */
  lemma DetachAfterCancelFails(tid: TID, from: string)
    ensures Run([Prepare(tid), Accept(tid, from), Cancel(tid, from, "canceled"), Detach]).crashed
  {
    var acts := [Prepare(tid), Accept(tid, from), Cancel(tid, from, "canceled")];
    assert acts[..2] == [Prepare(tid), Accept(tid, from)] && acts[..2][..1] == [Prepare(tid)] &&
           acts[..2][..1][..0] == [];
    assert Offered(acts[..2][..1], tid);
    assert Heard(acts[..2], tid, from);
    assert Hung(acts, tid, from);
    OnlyDetachFails(acts);
    DetachFailsIff(acts);
    assert exists t, f :: Hung(acts, t, f);
    assert acts + [Detach] == [Prepare(tid), Accept(tid, from), Cancel(tid, from, "canceled"), Detach];
  }

  /** The peer accepted while the offer stood. */
  ghost predicate AcceptedIt(acts: seq<Act>, tid: TID, from: string) {
    acts != [] && (
      var front, a := acts[..|acts| - 1], acts[|acts| - 1];
      AcceptedIt(front, tid, from) || (Offered(front, tid) && a == Accept(tid, from)))
  }

  /**
   Exactly which streams are started: one for each peer that accepted a standing
   offer - whether or not it had declined or canceled that offer before.
   */
  lemma {:induction false} StreamedIff(acts: seq<Act>, tid: TID, from: string)
    requires !Run(acts).crashed
    ensures (tid, from) in Run(acts).launched <==> AcceptedIt(acts, tid, from)
  {
    if acts != [] {
      var front, a := acts[..|acts| - 1], acts[|acts| - 1];
      StreamedIff(front, tid, from);
      RunRecords(front, tid, from);
      StreamedOnce(front);
    }
  }

  /** A peer that declined first and accepts later is streamed to, while its record still says declined. */
  lemma DeclinedThenStreamed(tid: TID, from: string)
    ensures var o := Run([Prepare(tid), Cancel(tid, from, "declined"), Accept(tid, from)]);
            && (tid, from) in o.launched && tid in o.out && from in o.out[tid].peers
            && o.out[tid].peers[from] == OutPeer(Declined, true, false)
  {
    var acts := [Prepare(tid), Cancel(tid, from, "declined"), Accept(tid, from)];
    assert acts[..2] == [Prepare(tid), Cancel(tid, from, "declined")];
    assert acts[..2][..1] == [Prepare(tid)] && acts[..2][..1][..0] == [];
    assert Run(acts[..2][..1]).out == map[tid := Out([], map[])];
  }
}
