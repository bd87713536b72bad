/**
 Runs in which every arrangement is disjoint: no hand-placed screen covers
 another, and the row of automatic ones fits. Then every move the server sends
 lands where it meant.
 */
module Orderly {
  import opened Common
  import opened Layout
  import opened Routing
  import opened Sessions
  import opened Coordinates
  import opened Placement
  import opened Adapter
  import opened Fleets
  import opened Clients

  /**
   What is asked of an arrangement built from these: the row fits, and screens
   placed by hand are apart from all others.
   */
  ghost predicate Tidy(own: Desk, peers: map<Addr, Peer>, byHand: Placements, order: seq<Addr>) {
    var rs := Reported(peers, order);
    var l := BuildDesk(own, peers, byHand, order);
    && RowFits(rs, byHand, RightOf(own), RowY(own))
    && forall i, j ::
         0 <= i < j < |l| && (ByHand(own, rs, byHand, i) || ByHand(own, rs, byHand, j)) ==> Apart(l[i], l[j])
  }

  /** A step that rebuilds, rebuilds a tidy arrangement. */
  ghost predicate TidyStep(f: Fleet, n: Node, e: Event) {
    var r := Step(f, n, e);
    e.act.Rebuilds() ==> Tidy(r.own, r.sess.peers, r.byHand, e.env.scan)
  }

  ghost predicate TidyRun(f: Fleet, n: Node, es: seq<Event>)
    decreases |es|
  {
    es == [] || (TidyStep(f, n, es[0]) && TidyRun(f, Step(f, n, es[0]), es[1..]))
  }

  /** Every arrangement on its way to a device is disjoint. */
  ghost predicate DisjointDesks(w: Wire) {
    forall a, i :: a in w && 0 <= i < |w[a]| && w[a][i].DeskMsg? ==> Disjoint(w[a][i].desk)
  }

  ghost predicate InOrder(n: Node) {
    Disjoint(n.own) && Disjoint(n.sess.cursor.desk) && DisjointDesks(n.sess.wire)
  }

  lemma AppendInOrder(w: Wire, a: Addr, m: Msg)
    requires DisjointDesks(w) && (m.DeskMsg? ==> Disjoint(m.desk))
    ensures DisjointDesks(Append(w, a, m))
  {
    var w': Wire := Append(w, a, m);
    forall b: Addr, i | b in w' && 0 <= i < |w'[b]| && w'[b][i].DeskMsg? ensures Disjoint(w'[b][i].desk) {
      if b != a {
        assert w'[b] == w[b];
      } else if i < |Log(w, a)| {
        assert w[a][i] == w'[a][i];
      }
    }
  }

  lemma {:induction false} PushInOrder(peers: map<Addr, Peer>, w: Wire, order: seq<Addr>, l: Desk, fail: set<Addr>)
    requires DisjointDesks(w) && Disjoint(l)
    ensures DisjointDesks(PushDesk(peers, w, order, l, fail).wire)
    decreases |order|
  {
    if order != [] {
      AppendInOrder(w, order[0], DeskMsg(l));
      PushInOrder(peers, w, order[1..], l, fail);
      PushInOrder(peers, Append(w, order[0], DeskMsg(l)), order[1..], l, fail);
    }
  }

  lemma RebuildInOrder(n: Node, env: Env)
    requires Disjoint(n.own) && DisjointDesks(n.sess.wire) && Tidy(n.own, n.sess.peers, n.byHand, env.scan)
    ensures InOrder(n.Rebuild(env))
  {
    var l := BuildDesk(n.own, n.sess.peers, n.byHand, env.scan);
    DeskDisjointIff(n.own, n.sess.peers, n.byHand, env.scan);
    ReleaseFrame(n.(desk := Some(l)), l);
    PushInOrder(n.sess.peers, n.sess.wire, env.push, l, env.fail);
  }

  /** Rebuilding changes neither the registry nor what the rebuild is made from. */
  lemma RebuildFrame(n: Node, env: Env)
    ensures var r := n.Rebuild(env); r.own == n.own && r.byHand == n.byHand && r.sess.peers == n.sess.peers
  {
    ReleaseFrame(n.(desk := Some(BuildDesk(n.own, n.sess.peers, n.byHand, env.scan))),
                 BuildDesk(n.own, n.sess.peers, n.byHand, env.scan));
  }

  lemma SendInOrder(s: Session, a: Addr, m: Msg, fail: set<Addr>)
    requires DisjointDesks(s.wire) && !m.DeskMsg?
    ensures var r := s.Send(a, m, fail).s; DisjointDesks(r.wire) && r.cursor == s.cursor
  {
    AppendInOrder(s.wire, a, m);
  }

  lemma ForwardInOrder(s: Session, m: Msg, env: Env)
    requires DisjointDesks(s.wire) && !m.DeskMsg?
    ensures var r := s.Forward(m, env).s; DisjointDesks(r.wire) && r.cursor == s.cursor
  {
    if s.cursor.OffDevice(s.local) {
      match PeerFor(s.peers, env.push, s.cursor.cur.value.device)
      case Some(a) => SendInOrder(s, a, m, env.fail);
      case None =>
    }
  }

  lemma RelayInOrder(s: Session, origin: Addr, m: Msg, env: Env)
    requires DisjointDesks(s.wire) && !m.DeskMsg?
    ensures var r := s.Relay(origin, m, env).s; DisjointDesks(r.wire) && r.cursor == s.cursor
  {
    if s.cursor.OffDevice(s.local) {
      match PeerFor(s.peers, env.push, s.cursor.cur.value.device)
      case Some(a) => SendInOrder(s, a, m, env.fail);
      case None =>
    }
  }

  lemma RelativeInOrder(n: Node, dx: i32, dy: i32, env: Env)
    requires InOrder(n)
    ensures InOrder(n.OnRelativeMove(dx, dy, env))
  {
    var s1 := n.sess.(cursor := n.sess.cursor.MoveByDelta(dx, dy));
    ForwardInOrder(s1, MoveMsg(s1.cursor.vx, s1.cursor.vy, ByServer(s1.cursor.desk)), env);
    ReleaseFrame(n.(sess := n.sess.LocalDeltaMove(dx, dy, env).s), []);
  }

  lemma CoupledInOrder(n: Node, x: i32, y: i32, dx: i32, dy: i32, env: Env)
    requires InOrder(n)
    ensures InOrder(n.OnCoupledMove(x, y, dx, dy, env))
  {
    if ScreenAt(n.own, x, y).Some? {
      var s := ScreenAt(n.own, x, y).value;
      var t := Target(s, x, y, dx, dy);
      var s1 := n.sess.(cursor := n.sess.cursor.OnLocalMove(s, t.x, t.y));
      ForwardInOrder(s1, MoveMsg(s1.cursor.vx, s1.cursor.vy, ByServer(s1.cursor.desk)), env);
    }
  }

  lemma PressInOrder(n: Node, ev: InputEvent, env: Env)
    requires InOrder(n)
    ensures InOrder(n.OnInput(ev, env))
  {
    if n.sess.cursor.OffDevice(n.sess.local) {
      ForwardInOrder(n.sess, InputMsg(ev, n.sess.cursor.cur.value), env);
    }
    ReleaseFrame(n.(sess := n.sess.RouteLocalEvent(ev, env).s), []);
  }

  lemma PeerInOrder(n: Node, origin: Addr, x: i32, y: i32, ev: InputEvent, env: Env)
    requires InOrder(n)
    ensures InOrder(n.OnPeerMove(origin, x, y, env)) && InOrder(n.OnPeerInput(origin, ev, env))
  {
    var s1 := n.sess.(cursor := n.sess.cursor.MoveTo(x, y));
    RelayInOrder(s1, origin, MoveMsg(x, y, Relayed(n.sess.cursor.desk)), env);
    if n.sess.cursor.cur.Some? { RelayInOrder(n.sess, origin, InputMsg(ev, n.sess.cursor.cur.value), env); }
  }

  lemma InputStepInOrder(f: Fleet, n: Node, e: Event)
    requires InOrder(n) && !e.act.Rebuilds()
    ensures InOrder(Step(f, n, e))
  {
    match e.act
    case Mouse(x, y, dx, dy) =>
      if n.relative { RelativeInOrder(n, dx, dy, e.env); } else { CoupledInOrder(n, x, y, dx, dy, e.env); }
    case Press(ev) => PressInOrder(n, ev, e.env);
    case MoveFrom(a, x, y) => PeerInOrder(n, a, x, y, Key(0, false), e.env);
    case PressFrom(a, ev) => PeerInOrder(n, a, 0, 0, ev, e.env);
  }

  lemma HelloInOrder(n: Node, a: Addr, host: DeviceID, env: Env)
    requires InOrder(n)
    requires var r := n.OnHello(a, host, env); Tidy(r.own, r.sess.peers, r.byHand, env.scan)
    ensures InOrder(n.OnHello(a, host, env))
  {
    var s := n.sess.(peers := n.sess.peers[a := Peer(host, true, [])]);
    SendInOrder(s, a, HelloAck, env.fail);
    var n1 := n.(sess := n.sess.Hello(a, host, env.fail).s);
    RebuildFrame(n1, env);
    if a !in env.fail { RebuildInOrder(n1, env); }
  }

  lemma RebuiltInOrder(n: Node, env: Env)
    requires InOrder(n)
    requires var r := n.Rebuild(env); Tidy(r.own, r.sess.peers, r.byHand, env.scan)
    ensures InOrder(n.Rebuild(env))
  {
    RebuildFrame(n, env);
    RebuildInOrder(n, env);
  }

  lemma JoinStepInOrder(f: Fleet, n: Node, e: Event)
    requires InOrder(n) && (e.act.HelloFrom? || e.act.ReportFrom?) && TidyStep(f, n, e)
    ensures InOrder(Step(f, n, e))
  {
    var a := e.act.a;
    if a in f {
      if e.act.HelloFrom? {
        HelloInOrder(n, a, f[a].host, e.env);
      } else if a in n.sess.peers {
        RebuiltInOrder(n.(sess := n.sess.Report(a, f[a].own)), e.env);
      }
    }
  }

  lemma GoneInOrder(n: Node, a: Addr, env: Env)
    requires InOrder(n)
    requires var r := n.OnGone(a, env); Tidy(r.own, r.sess.peers, r.byHand, env.scan)
    ensures InOrder(n.OnGone(a, env))
  {
    var n1 := n.(sess := n.sess.Drop(a));
    assert n.OnGone(a, env) == n1.Rebuild(env);
    RebuiltInOrder(n1, env);
  }

  lemma GoneStepInOrder(f: Fleet, n: Node, e: Event)
    requires InOrder(n) && e.act.Gone? && TidyStep(f, n, e)
    ensures InOrder(Step(f, n, e))
  {
    var r := n.OnGone(e.act.a, e.env);
    assert Step(f, n, e) == r;
    GoneInOrder(n, e.act.a, e.env);
  }

  lemma PlaceStepInOrder(f: Fleet, n: Node, e: Event)
    requires InOrder(n) && e.act.PlaceAt? && TidyStep(f, n, e)
    ensures InOrder(Step(f, n, e))
  {
    RebuiltInOrder(n.(byHand := n.byHand[e.act.id := e.act.p]), e.env);
  }

  lemma UnplaceStepInOrder(f: Fleet, n: Node, e: Event)
    requires InOrder(n) && e.act.Unplace? && TidyStep(f, n, e)
    ensures InOrder(Step(f, n, e))
  {
    RebuiltInOrder(n.(byHand := n.byHand - {e.act.id}), e.env);
  }

  lemma RebuildStepInOrder(f: Fleet, n: Node, e: Event)
    requires InOrder(n) && e.act.Rebuilds() && TidyStep(f, n, e)
    ensures InOrder(Step(f, n, e))
  {
    match e.act
    case Gone(_) => GoneStepInOrder(f, n, e);
    case PlaceAt(_, _) => PlaceStepInOrder(f, n, e);
    case Unplace(_) => UnplaceStepInOrder(f, n, e);
    case _ => JoinStepInOrder(f, n, e);
  }

  lemma {:induction false} RunInOrder(f: Fleet, n: Node, es: seq<Event>)
    requires InOrder(n) && TidyRun(f, n, es)
    ensures InOrder(Run(f, n, es))
    decreases |es|
  {
    if es != [] {
      if es[0].act.Rebuilds() { RebuildStepInOrder(f, n, es[0]); } else { InputStepInOrder(f, n, es[0]); }
      RunInOrder(f, Step(f, n, es[0]), es[1..]);
    }
  }

  lemma BootInOrder(local: DeviceID, own: Desk, cap: Option<Capture>, seed: Option<Pos>)
    requires Disjoint(own)
    ensures InOrder(Boot(local, own, cap, seed))
  {
    var n := Node(Session(local, Start([]), map[], map[]), own, map[], false, None, None, []);
    assert BuildDesk(own, map[], map[], []) == own;
    ReleaseFrame(n.(desk := Some(own)), own);
    PushInOrder(map[], map[], [], own, {});
  }

  lemma {:induction false} LastDeskDisjoint(log: seq<Msg>)
    requires forall i :: 0 <= i < |log| && log[i].DeskMsg? ==> Disjoint(log[i].desk)
    ensures LastDesk(log).Some? ==> Disjoint(LastDesk(log).value)
  {
    if log != [] && !log[|log| - 1].DeskMsg? {
      LastDeskDisjoint(log[..|log| - 1]);
    }
  }

  /**
   In every legal run from disjoint local screens whose rebuilds are tidy - any
   joins, leaves, hand placements and failing writes of moves - the server's
   arrangement is disjoint, and every move in every device's log lands on the
   device's own physical screen where the server meant.
   */
  lemma TidyRunsLandRight(f: Fleet, local: DeviceID, own: Desk, cap: Option<Capture>, seed: Option<Pos>,
                          es: seq<Event>, a: Addr, i: nat)
    requires Disjoint(own) && forall s :: s in own ==> s.device == local
    requires LegalRun(f, Boot(local, own, cap, seed), es) && TidyRun(f, Boot(local, own, cap, seed), es)
    requires a in f && UniqueIds(f[a].own) && forall s :: s in f[a].own ==> s.Fits()
    ensures var n := Run(f, Boot(local, own, cap, seed), es);
            && Disjoint(n.sess.cursor.desk)
            && (a in n.sess.wire && i < |n.sess.wire[a]| && n.sess.wire[a][i].MoveMsg? ==>
                  LandsRight(f[a], n.sess.wire[a], i))
  {
    var n := Run(f, Boot(local, own, cap, seed), es);
    BootInOrder(local, own, cap, seed);
    RunInOrder(f, Boot(local, own, cap, seed), es);
    if a in n.sess.wire && i < |n.sess.wire[a]| && n.sess.wire[a][i].MoveMsg? {
      EveryMoveUnderItsLayout(f, n, a, i);
      LastDeskDisjoint(n.sess.wire[a][..i]);
      MovesLandWhereTheServerMeant(f, n, a, i);
    }
  }
}
