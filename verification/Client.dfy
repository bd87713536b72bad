/**
 The receiving end (core/session/client.go and the adapter's client): a device
 consumes its connection's log in order, installing arrangements and injecting
 moves in its own display space.
 */
module Clients {
  import opened Common
  import opened Layout
  import opened Routing
  import opened Sessions
  import opened Coordinates
  import opened Adapter
  import opened Fleets

  /** session.Client.layout, core.authoritative and what was injected. */
  datatype Receiver = Receiver(own: Desk, layout: Option<Desk>, desk: Option<Desk>, injected: seq<Injection>) {

    function Dispatch(m: Msg): Receiver {
      match m
      case HelloAck => this
      case DeskMsg(l) => this.(layout := Some(l), desk := Some(l))
      case MoveMsg(x, y, _) =>
        (match ToGlobal(own, desk, x, y)
         case None => this
         case Some(p) => this.(injected := injected + [Warp(p)]))
      case InputMsg(ev, _) => this.(injected := injected + [Typed(ev)])
    }

    function DispatchAll(log: seq<Msg>): Receiver {
      if log == [] then this else DispatchAll(log[..|log| - 1]).Dispatch(log[|log| - 1])
    }
  }

  class Client {
    const own: Desk
    var layout: Option<Desk>
    var authoritative: Option<Desk>
    var injected: seq<Injection>

    function View(): Receiver
      reads this
    {
      Receiver(own, layout, authoritative, injected)
    }

    constructor (own: Desk)
      ensures View() == Receiver(own, None, None, [])
    {
      this.own := own;
      layout, authoritative, injected := None, None, [];
    }

    /** The layout hook registered by the adapter. */
    method SetLayout(l: Desk)
      modifies this`authoritative
      ensures authoritative == Some(l)
    {
      authoritative := Some(l);
    }

    method Dispatch(m: Msg)
      modifies this
      ensures View() == old(View()).Dispatch(m)
    {
      match m
      case HelloAck =>
      case DeskMsg(l) =>
        layout := Some(l);
        SetLayout(l);
      case MoveMsg(x, y, _) =>
        var g := ToGlobal(own, authoritative, x, y);
        if g.Some? { injected := injected + [Warp(g.value)]; }
      case InputMsg(ev, _) => injected := injected + [Typed(ev)];
    }
  }

  /** A device that has consumed a prefix of its log holds the last arrangement in it. */
  lemma {:induction false} HoldsLastDesk(own: Desk, log: seq<Msg>)
    ensures var r := Receiver(own, None, None, []).DispatchAll(log);
            r.own == own && r.desk == LastDesk(log) && r.layout == LastDesk(log)
  {
    if log != [] {
      HoldsLastDesk(own, log[..|log| - 1]);
    }
  }

  /** Before any arrangement has come, a move is injected where it says. */
  lemma {:induction false} BeforeAnyDesk(own: Desk, log: seq<Msg>, x: i32, y: i32, o: Origin)
    requires forall m :: m in log ==> !m.DeskMsg?
    ensures var r := Receiver(own, None, None, []).DispatchAll(log);
            r.desk.None? && r.Dispatch(MoveMsg(x, y, o)).injected == r.injected + [Warp(Pos(x, y))]
  {
    if log != [] {
      assert log[|log| - 1] in log && forall m :: m in log[..|log| - 1] ==> m in log;
      BeforeAnyDesk(own, log[..|log| - 1], x, y, o);
    }
  }

  /** p lies on one of the device's own screens, at the offset (x, y) has on that screen's placed copy. */
  ghost predicate SameSpot(own: Desk, l: Desk, x: i32, y: i32, p: Pos) {
    exists s, ps ::
      && s in l && ps in own && CopyOf(s, ps)
      && s.Contains(x, y) && ps.Contains(p.x, p.y)
      && p.x - ps.x == x - s.x && p.y - ps.y == y - s.y
  }

  /** The first screen under the point, if there is one, is a copy of one of the device's own. */
  ghost predicate FirstIsOwn(d: Device, l: Desk, x: i32, y: i32) {
    ScreenAt(l, x, y).Some? ==> OwnedBy(ScreenAt(l, x, y).value, d)
  }

  lemma OwnedMoveConverts(d: Device, l: Desk, x: i32, y: i32)
    requires UniqueIds(d.own) && (forall s :: s in d.own ==> s.Fits())
    requires ScreenAt(l, x, y).Some? && FirstIsOwn(d, l, x, y)
    ensures var g := ToGlobal(d.own, Some(l), x, y); g.Some? && SameSpot(d.own, l, x, y, g.value)
  {
    var s := ScreenAt(l, x, y).value;
    var ps :| ps in d.own && CopyOf(s, ps);
    FindById(d.own, ps);
    RebaseKeepsOffset(ps, s, x, y);
  }

  /** No other device's screen in the arrangement has the id of one of this device's. */
  ghost predicate OwnIds(d: Device, l: Desk) {
    forall s, ps :: s in l && ps in d.own && s.id == ps.id ==> OwnedBy(s, d)
  }

  /** What dispatching a good move does to a device that has consumed everything before it. */
  ghost predicate LandsRight(d: Device, log: seq<Msg>, i: nat)
    requires i < |log| && log[i].MoveMsg?
  {
    var m := log[i];
    var before := Receiver(d.own, None, None, []).DispatchAll(log[..i]);
    var after := before.Dispatch(m);
    && before.desk == Some(m.origin.under)
    && (m.origin.ByServer? || ScreenAt(m.origin.under, m.x, m.y).Some? ==>
          exists p :: after == before.(injected := before.injected + [Warp(p)])
                      && SameSpot(d.own, m.origin.under, m.x, m.y, p))
    && (m.origin.Relayed? && ScreenAt(m.origin.under, m.x, m.y).None? ==> after == before)
  }

  /** Dispatching a good move that some screen is under warps to where it converts. */
  lemma DispatchWarps(d: Device, log: seq<Msg>, i: nat, l: Desk, p: Pos)
    requires i < |log| && log[i].MoveMsg? && GoodMove(d, log, i) && l == log[i].origin.under
    requires ToGlobal(d.own, Some(l), log[i].x, log[i].y) == Some(p) && ScreenAt(l, log[i].x, log[i].y).Some?
    ensures LandsRight(d, log, i) <==> SameSpot(d.own, l, log[i].x, log[i].y, p)
  {
    HoldsLastDesk(d.own, log[..i]);
    var before := Receiver(d.own, None, None, []).DispatchAll(log[..i]);
    var after := before.Dispatch(log[i]);
    assert after == before.(injected := before.injected + [Warp(p)]);
    forall q | after == before.(injected := before.injected + [Warp(q)]) ensures q == p {
      assert after.injected[|before.injected|] == Warp(p);
    }
  }

  lemma GoodMoveLandsRight(d: Device, log: seq<Msg>, i: nat)
    requires i < |log| && log[i].MoveMsg? && GoodMove(d, log, i)
    requires FirstIsOwn(d, log[i].origin.under, log[i].x, log[i].y)
    requires UniqueIds(d.own) && (forall s :: s in d.own ==> s.Fits())
    ensures LandsRight(d, log, i)
  {
    var m := log[i];
    var l := m.origin.under;
    if ScreenAt(l, m.x, m.y).Some? {
      OwnedMoveConverts(d, l, m.x, m.y);
      DispatchWarps(d, log, i, l, ToGlobal(d.own, Some(l), m.x, m.y).value);
    } else {
      HoldsLastDesk(d.own, log[..i]);
    }
  }

  /** If another device's screen comes first, the move is injected as it came: right only by coincidence. */
  lemma CoveredMoveLands(d: Device, log: seq<Msg>, i: nat)
    requires i < |log| && log[i].MoveMsg? && GoodMove(d, log, i)
    requires var m := log[i]; OwnIds(d, m.origin.under) && !FirstIsOwn(d, m.origin.under, m.x, m.y)
    ensures var m := log[i]; LandsRight(d, log, i) <==> SameSpot(d.own, m.origin.under, m.x, m.y, Pos(m.x, m.y))
  {
    var m := log[i];
    var s := ScreenAt(m.origin.under, m.x, m.y).value;
    assert FindScreen(d.own, s.id).None?;
    DispatchWarps(d, log, i, m.origin.under, Pos(m.x, m.y));
  }

  lemma DisjointFirstIsOwn(d: Device, log: seq<Msg>, i: nat)
    requires i < |log| && log[i].MoveMsg? && GoodMove(d, log, i) && Disjoint(log[i].origin.under)
    ensures FirstIsOwn(d, log[i].origin.under, log[i].x, log[i].y)
  {
    var m := log[i];
    if OnScreenOf(m.origin.under, m.x, m.y, d) {
      var s :| s in m.origin.under && s.Contains(m.x, m.y) && OwnedBy(s, d);
      OnlyScreenAt(m.origin.under, s, m.x, m.y);
    }
  }

  /**
   The end-to-end statement. In every reachable system state, take any move in
   any device's log whose first screen, in the arrangement it was sent under, is
   the device's own - as on every disjoint arrangement. The device, having
   consumed exactly what precedes it, holds the server's arrangement; and
   dispatching it injects one pointer warp inside one of the device's own
   physical screens, at the same offset - except that a relayed move on no
   screen is dropped. When another device's screen comes first the warp is right
   only if the device's screen physically lies where it was placed.
   */
  lemma MovesLandWhereTheServerMeant(f: Fleet, n: Node, a: Addr, i: nat)
    requires Reachable(f, n) && a in f && a in n.sess.wire
    requires i < |n.sess.wire[a]| && n.sess.wire[a][i].MoveMsg?
    requires UniqueIds(f[a].own) && (forall s :: s in f[a].own ==> s.Fits())
    ensures var m := n.sess.wire[a][i]; var l := m.origin.under;
            && (FirstIsOwn(f[a], l, m.x, m.y) ==> LandsRight(f[a], n.sess.wire[a], i))
            && (Disjoint(l) ==> FirstIsOwn(f[a], l, m.x, m.y))
            && (OwnIds(f[a], l) ==>
                  (LandsRight(f[a], n.sess.wire[a], i) <==>
                   FirstIsOwn(f[a], l, m.x, m.y) || SameSpot(f[a].own, l, m.x, m.y, Pos(m.x, m.y))))
  {
    EveryMoveUnderItsLayout(f, n, a, i);
    var log := n.sess.wire[a];
    var m := log[i];
    if Disjoint(m.origin.under) { DisjointFirstIsOwn(f[a], log, i); }
    if FirstIsOwn(f[a], m.origin.under, m.x, m.y) {
      GoodMoveLandsRight(f[a], log, i);
    } else if OwnIds(f[a], m.origin.under) {
      CoveredMoveLands(f[a], log, i);
    }
  }

  /**
   Without the write hypothesis the arrangement reaches exactly the ready peers
   enumerated before the first failed write; every other log is unchanged.
   */
  lemma {:induction false} PushReaches(peers: map<Addr, Peer>, w: Wire, order: seq<Addr>, l: Desk, fail: set<Addr>,
      k: nat)
    requires k < |order|
    requires forall i, j :: 0 <= i < j < |order| ==> order[i] != order[j]
    ensures var a := order[k];
            var reached := a in peers && peers[a].ready &&
                           forall i :: 0 <= i <= k && order[i] in peers && peers[order[i]].ready ==> order[i] !in fail;
            Log(PushDesk(peers, w, order, l, fail).wire, a) == if reached then Log(w, a) + [DeskMsg(l)] else Log(w, a)
    decreases |order|
  {
    var b, rest := order[0], order[1..];
    var ready := b in peers && peers[b].ready;
    if !(ready && b in fail) {
      var w1 := if ready then Append(w, b, DeskMsg(l)) else w;
      if k == 0 {
        PushLeaves(peers, w1, rest, l, fail, b);
      } else {
        PushReaches(peers, w1, rest, l, fail, k - 1);
        assert forall i :: 0 <= i <= k ==> i == 0 || order[i] == rest[i - 1];
        assert forall i :: 0 <= i <= k - 1 ==> rest[i] == order[i + 1];
        assert order[k] != b;
      }
    } else {
      assert order[0] == b;
    }
  }

  /** The push reports success exactly when no write to a ready peer fails. */
  lemma {:induction false} PushSucceedsIff(peers: map<Addr, Peer>, w: Wire, order: seq<Addr>, l: Desk, fail: set<Addr>)
    ensures PushDesk(peers, w, order, l, fail).ok <==>
            forall a :: a in order && a in peers && peers[a].ready ==> a !in fail
    decreases |order|
  {
    if order != [] {
      assert order[0] in order && forall a :: a in order <==> a == order[0] || a in order[1..];
      PushSucceedsIff(peers, w, order[1..], l, fail);
      PushSucceedsIff(peers, Append(w, order[0], DeskMsg(l)), order[1..], l, fail);
    }
  }

  lemma {:induction false} PushLeaves(peers: map<Addr, Peer>, w: Wire, order: seq<Addr>, l: Desk, fail: set<Addr>,
      a: Addr)
    requires a !in order
    ensures Log(PushDesk(peers, w, order, l, fail).wire, a) == Log(w, a)
    decreases |order|
  {
    if order != [] {
      assert order[0] in order && forall b :: b in order[1..] ==> b in order;
      PushLeaves(peers, w, order[1..], l, fail, a);
      PushLeaves(peers, Append(w, order[0], DeskMsg(l)), order[1..], l, fail, a);
    }
  }
}
