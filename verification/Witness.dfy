/**
 Runs of the whole system from start-up, with a capture driver and one peer, in
 which the shared cursor does what a user would not expect.
 */
module Witnesses {
  import opened Common
  import opened Layout
  import opened Routing
  import opened Sessions
  import opened Coordinates
  import opened Placement
  import opened Adapter
  import opened Fleets
  import opened Clients
  import opened Suppression

  /** The peer's screen as it reports it, and as it is placed to the right of the local one. */
  const REPORTED := Screen("p", "peer", 0, 0, 100, 100, true)

  function PlacedRightOf(o: Screen): Screen { REPORTED.(x := o.Right(), y := o.y) }

  const FLEET: Fleet := map["a" := Device("peer", [REPORTED])]

  const SMOOTH := Env(["a"], ["a"], {})

  function Ready(screens: seq<Screen>): map<Addr, Peer> { map["a" := Peer("peer", true, screens)] }

  /** A node in coupled mode with the cursor on its own screen o. */
  function Coupled(o: Screen, x: i32, y: i32, peers: map<Addr, Peer>, l: Desk, wire: Wire): Node {
    Node(Session("me", Cursor(l, x, y, Some(o)), peers, wire), [o], map[], false, Some(l),
         Some(Capture(false, None)), [])
  }

  function Started(o: Screen, x: i32, y: i32): Node { Boot("me", [o], Some(Capture(false, None)), Some(Pos(x, y))) }

  predicate Usual(o: Screen, x: i32, y: i32) { o.device == "me" && o.Right() > 0 && o.Contains(x, y) }

  lemma OneScreen(o: Screen)
    requires o.Right() > 0
    ensures RightOf([o]) == o.Right() && RowY([o]) == o.y
  {
    assert [o][..0] == [];
  }

  lemma StartedAt(o: Screen, x: i32, y: i32)
    requires Usual(o, x, y)
    ensures Started(o, x, y) == Coupled(o, x, y, map[], [o], map[])
  {
    assert BuildDesk([o], map[], map[], []) == [o];
  }

  lemma DeskBefore(o: Screen)
    requires o.Right() > 0
    ensures BuildDesk([o], Ready([]), map[], ["a"]) == [o]
  {
    assert Reported(Ready([]), ["a"]) == [];
  }

  lemma DeskAfter(o: Screen, byHand: Placements)
    requires o.Right() > 0
    ensures BuildDesk([o], Ready([REPORTED]), byHand, ["a"]) ==
            [o, if "p" in byHand then REPORTED.(x := byHand["p"].x, y := byHand["p"].y) else PlacedRightOf(o)]
  {
    OneScreen(o);
    assert Relabel([REPORTED], "peer") == [REPORTED];
    assert Reported(Ready([REPORTED]), ["a"]) == [REPORTED];
    PlaceStep(REPORTED, [], byHand, o.Right(), o.y);
    assert [REPORTED] + [] == [REPORTED];
  }

  /** The first rebuild after a step, with the cursor staying on o, adds the arrangement to the peer's log. */
  lemma QuietRebuild(n: Node, o: Screen, l: Desk, log: seq<Msg>)
    requires n.own == [o] && o in l && l[0] == o && n.sess.local == "me" && o.device == "me" && "a" in n.sess.peers
    requires n.sess.peers["a"].ready && n.sess.peers.Keys == {"a"} && n.sess.wire == map["a" := log]
    requires l == BuildDesk(n.own, n.sess.peers, n.byHand, ["a"])
    requires n.sess.cursor.cur == Some(o) && o.Contains(n.sess.cursor.vx, n.sess.cursor.vy)
    ensures n.Rebuild(SMOOTH) == n.(desk := Some(l),
              sess := n.sess.(cursor := n.sess.cursor.(desk := l), wire := map["a" := log + [DeskMsg(l)]]))
  {
    assert n.(desk := Some(l)).ReleaseIfActiveGone(l) == n.(desk := Some(l));
    assert ["a"][1..] == [];
    assert PushDesk(n.sess.peers, n.sess.wire, ["a"], l, {}) == Pushed(map["a" := log + [DeskMsg(l)]], true);
    assert ScreenAt(l, n.sess.cursor.vx, n.sess.cursor.vy) == Some(o);
  }

  const HELLO := Event(HelloFrom("a"), SMOOTH)
  const REPORT := Event(ReportFrom("a"), SMOOTH)

  /** The log of the peer's connection once it has said hello. */
  function Greeted(o: Screen): seq<Msg> { [HelloAck] + [DeskMsg([o])] }

  lemma SaysHello(o: Screen, x: i32, y: i32)
    requires Usual(o, x, y)
    ensures var n := Coupled(o, x, y, map[], [o], map[]);
            && Legal(FLEET, n, HELLO)
            && Step(FLEET, n, HELLO) == Coupled(o, x, y, Ready([]), [o], map["a" := Greeted(o)])
  {
    var n0 := Coupled(o, x, y, map[], [o], map[]);
    var n := Coupled(o, x, y, Ready([]), [o], map["a" := [HelloAck]]);
    assert n0.sess.Hello("a", "peer", {}).s == n.sess by {
      assert [] + [HelloAck] == [HelloAck];
    }
    DeskBefore(o);
    QuietRebuild(n, o, [o], [HelloAck]);
    assert Step(FLEET, n0, HELLO) == n.Rebuild(SMOOTH);
  }

  lemma Reports(o: Screen, x: i32, y: i32, log: seq<Msg>)
    requires Usual(o, x, y)
    ensures var n := Coupled(o, x, y, Ready([]), [o], map["a" := log]); var l := [o, PlacedRightOf(o)];
            && Legal(FLEET, n, REPORT)
            && Step(FLEET, n, REPORT) == Coupled(o, x, y, Ready([REPORTED]), l, map["a" := log + [DeskMsg(l)]])
  {
    var n0 := Coupled(o, x, y, Ready([]), [o], map["a" := log]);
    var n := Coupled(o, x, y, Ready([REPORTED]), [o], map["a" := log]);
    assert n0.sess.Report("a", [REPORTED]) == n.sess;
    DeskAfter(o, map[]);
    QuietRebuild(n, o, [o, PlacedRightOf(o)], log);
    assert Step(FLEET, n0, REPORT) == n.Rebuild(SMOOTH);
  }

  const JOINING := [HELLO, REPORT]

  /** The node once the peer has joined and reported, as a run from start-up. */
  lemma JoinedAt(o: Screen, x: i32, y: i32) returns (log: seq<Msg>)
    requires Usual(o, x, y)
    ensures LegalRun(FLEET, Started(o, x, y), JOINING)
    ensures Run(FLEET, Started(o, x, y), JOINING) ==
            Coupled(o, x, y, Ready([REPORTED]), [o, PlacedRightOf(o)], map["a" := log])
  {
    StartedAt(o, x, y);
    SaysHello(o, x, y);
    Reports(o, x, y, Greeted(o));
    log := Greeted(o) + [DeskMsg([o, PlacedRightOf(o)])];
    RunAppend(FLEET, Started(o, x, y), [], HELLO);
    RunAppend(FLEET, Started(o, x, y), [] + [HELLO], REPORT);
    assert [] + [HELLO] + [REPORT] == JOINING;
  }

  lemma {:induction false} RunAppend(f: Fleet, n: Node, es: seq<Event>, e: Event)
    ensures Run(f, n, es + [e]) == Step(f, Run(f, n, es), e)
    ensures LegalRun(f, n, es + [e]) <==> LegalRun(f, n, es) && Legal(f, Run(f, n, es), e)
    decreases |es|
  {
    if es == [] {
      assert [] + [e] == [e] && [e][1..] == [];
    } else {
      assert (es + [e])[1..] == es[1..] + [e];
      RunAppend(f, Step(f, n, es[0]), es[1..], e);
    }
  }

  lemma RunReachable(o: Screen, x: i32, y: i32, es: seq<Event>)
    requires o.device == "me" && LegalRun(FLEET, Started(o, x, y), es)
    ensures Reachable(FLEET, Run(FLEET, Started(o, x, y), es))
  {
    assert forall s :: s in [o] ==> s.device == "me";
  }

  lemma CursorCrosses(o: Screen, p: Screen, x: i32, y: i32, tx: i32, ty: i32)
    requires Usual(o, x, y) && !o.Contains(tx, ty) && p.Contains(tx, ty)
    ensures Cursor([o, p], x, y, Some(o)).MoveTo(tx, ty) == Cursor([o, p], tx, ty, Some(p))
  {
    var l := [o, p];
    assert ScreenAt(l, x, y) == Some(o);
    MoveExactOrNearest(l, x, y, tx, ty);
    assert l[1] in l;
  }

  /** A coupled move that lands on the peer's screen turns relative mode on. */
  lemma CrossesOver(o: Screen, x: i32, y: i32, log: seq<Msg>, mx: i32, my: i32, dx: i32, dy: i32)
    requires Usual(o, x, y) && o.Contains(mx, my)
    requires var t := Target(o, mx, my, dx, dy); var tx, ty := Add32(o.x, t.x), Add32(o.y, t.y);
             !o.Contains(tx, ty) && PlacedRightOf(o).Contains(tx, ty)
    ensures var p := PlacedRightOf(o); var t := Target(o, mx, my, dx, dy);
            var n := Coupled(o, x, y, Ready([REPORTED]), [o, p], map["a" := log]);
            var r := Step(FLEET, n, Event(Mouse(mx, my, dx, dy), SMOOTH));
            && r.relative && r.cap == Some(Capture(true, Some(Pin(o, mx, my, dx, dy))))
            && r.sess.cursor == Cursor([o, p], Add32(o.x, t.x), Add32(o.y, t.y), Some(p))
            && r.sess.peers == Ready([REPORTED]) && r.own == [o] && r.byHand == map[] && r.sess.local == "me"
  {
    var t := Target(o, mx, my, dx, dy);
    assert ScreenAt([o], mx, my) == Some(o);
    CursorCrosses(o, PlacedRightOf(o), x, y, Add32(o.x, t.x), Add32(o.y, t.y));
  }

  /** The peer joins, and the next mouse move crosses over to it. */
  function Crossing(mx: i32, my: i32, dx: i32, dy: i32): seq<Event> { JOINING + [Event(Mouse(mx, my, dx, dy), SMOOTH)] }

  lemma CrossedAt(o: Screen, x: i32, y: i32, mx: i32, my: i32, dx: i32, dy: i32)
    requires Usual(o, x, y) && o.Contains(mx, my)
    requires var t := Target(o, mx, my, dx, dy); var tx, ty := Add32(o.x, t.x), Add32(o.y, t.y);
             !o.Contains(tx, ty) && PlacedRightOf(o).Contains(tx, ty)
    ensures var p := PlacedRightOf(o); var t := Target(o, mx, my, dx, dy);
            var r := Run(FLEET, Started(o, x, y), Crossing(mx, my, dx, dy));
            && LegalRun(FLEET, Started(o, x, y), Crossing(mx, my, dx, dy))
            && r.relative && r.cap == Some(Capture(true, Some(Pin(o, mx, my, dx, dy))))
            && r.sess.cursor == Cursor([o, p], Add32(o.x, t.x), Add32(o.y, t.y), Some(p))
            && r.sess.peers == Ready([REPORTED]) && r.own == [o] && r.byHand == map[] && r.sess.local == "me"
  {
    var log := JoinedAt(o, x, y);
    var n := Coupled(o, x, y, Ready([REPORTED]), [o, PlacedRightOf(o)], map["a" := log]);
    var e := Event(Mouse(mx, my, dx, dy), SMOOTH);
    assert Legal(FLEET, n, e);
    RunAppend(FLEET, Started(o, x, y), JOINING, e);
    CrossesOver(o, x, y, log, mx, my, dx, dy);
  }

  /** The local screen at the origin, and one 100 pixels to the right of it. */
  const HOME := Screen("o", "me", 0, 0, 100, 100, true)
  const AWAY := Screen("o", "me", 100, 0, 100, 100, true)

  const MOVE_AWAY := Event(PlaceAt("p", Pos(5000, 0)), SMOOTH)

  lemma PushedOverHome()
    ensures var n := Run(FLEET, Started(HOME, 50, 50), Crossing(95, 50, 10, 0));
            && LegalRun(FLEET, Started(HOME, 50, 50), Crossing(95, 50, 10, 0))
            && n.relative && n.cap == Some(Capture(true, Some(Pos(96, 50)))) && OnPeer(n)
  {
    CrossedAt(HOME, 50, 50, 95, 50, 10, 0);
  }

  predicate OnPeer(n: Node) {
    && n.own == [HOME] && n.sess.peers == Ready([REPORTED]) && n.byHand == map[] && n.sess.local == "me"
    && n.sess.cursor == Cursor([HOME, PlacedRightOf(HOME)], 109, 50, Some(PlacedRightOf(HOME)))
  }

  lemma StrandedBy(n: Node)
    requires n.relative && OnPeer(n)
    ensures Legal(FLEET, n, MOVE_AWAY)
    ensures var r := Step(FLEET, n, MOVE_AWAY); r.relative && r.sess.cursor.cur.None? && r.cap == n.cap
  {
    var byHand: Placements := map["p" := Pos(5000, 0)];
    var q := REPORTED.(x := 5000, y := 0);
    DeskAfter(HOME, byHand);
    assert n.byHand["p" := Pos(5000, 0)] == byHand;
    assert [HOME, q][1].device == "peer" && q in [HOME, q];
    assert ScreenAt([HOME, q], 109, 50).None?;
  }

  /**
   A peer joins, the user pushes the pointer over the right edge onto it, and
   the peer's screen is then placed elsewhere: the cursor is on no screen, and
   local input stays suppressed.
   */
  lemma RebuildCanStrand()
    ensures var n := Run(FLEET, Started(HOME, 50, 50), Crossing(95, 50, 10, 0));
            var r := Run(FLEET, Started(HOME, 50, 50), Crossing(95, 50, 10, 0) + [MOVE_AWAY]);
            && Reachable(FLEET, n) && Reachable(FLEET, r)
            && Guarded(n) && n.relative
            && r.relative && r.sess.cursor.cur.None? && r.cap == Some(Capture(true, Some(Pos(96, 50))))
  {
    var es := Crossing(95, 50, 10, 0);
    PushedOverHome();
    StrandedBy(Run(FLEET, Started(HOME, 50, 50), es));
    RunAppend(FLEET, Started(HOME, 50, 50), es, MOVE_AWAY);
    RunReachable(HOME, 50, 50, es);
    RunReachable(HOME, 50, 50, es + [MOVE_AWAY]);
  }

  /**
   Off the origin the offset is added twice: a pointer in the middle of the local
   screen, moved by one pixel and pushing no edge, is handed over to the peer.
   */
  lemma OffOriginHandsOverUnpushed()
    ensures var r := Run(FLEET, Started(AWAY, 150, 50), Crossing(150, 50, 1, 0));
            && Reachable(FLEET, r) && !PushedOutward(AWAY, 150, 50, 1, 0)
            && r.relative && r.cap == Some(Capture(true, Some(Pos(150, 50)))) && r.sess.cursor.OffDevice("me")
  {
    CrossedAt(AWAY, 150, 50, 150, 50, 1, 0);
    RunReachable(AWAY, 150, 50, Crossing(150, 50, 1, 0));
  }

  /** The peer's screen placed by hand half over the local one, which comes first. */
  const COVERED := REPORTED.(x := 50)
  const OVERLAP := [HOME, COVERED]
  const PLACE_OVER := Event(PlaceAt("p", Pos(50, 0)), SMOOTH)
  const PUSH_OVER := Event(Mouse(95, 50, 10, 0), SMOOTH)
  const PULL_BACK := Event(Mouse(0, 0, -49, 0), SMOOTH)

  /** The overlap is arranged, and the cursor is still on the local screen. */
  predicate Overlapping(n: Node) {
    && n.own == [HOME] && n.sess.local == "me" && n.sess.peers == Ready([REPORTED]) && !n.relative
    && n.sess.cursor == Cursor(OVERLAP, 50, 50, Some(HOME)) && "a" in n.sess.wire
  }

  lemma PlacesOver(log: seq<Msg>)
    ensures var n := Coupled(HOME, 50, 50, Ready([REPORTED]), [HOME, PlacedRightOf(HOME)], map["a" := log]);
            Legal(FLEET, n, PLACE_OVER) && Overlapping(Step(FLEET, n, PLACE_OVER))
  {
    var byHand: Placements := map["p" := Pos(50, 0)];
    var n := Coupled(HOME, 50, 50, Ready([REPORTED]), [HOME, PlacedRightOf(HOME)], map["a" := log]);
    DeskAfter(HOME, byHand);
    assert n.byHand["p" := Pos(50, 0)] == byHand;
    QuietRebuild(n.(byHand := byHand), HOME, OVERLAP, log);
  }

  /** The user pushed the pointer over the edge, onto the uncovered half of the peer's screen. */
  predicate PushedOver(n: Node) {
    && n.sess.local == "me" && n.sess.peers == Ready([REPORTED]) && n.relative && "a" in n.sess.wire
    && n.sess.cursor == Cursor(OVERLAP, 109, 50, Some(COVERED))
  }

  lemma PushesOver(n: Node)
    requires Overlapping(n)
    ensures Legal(FLEET, n, PUSH_OVER) && PushedOver(Step(FLEET, n, PUSH_OVER))
  {
    assert ScreenAt([HOME], 95, 50) == Some(HOME);
    assert Target(HOME, 95, 50, 10, 0) == Pos(109, 50);
    CursorCrosses(HOME, COVERED, 50, 50, 109, 50);
  }

  /** Moving back over the covered half, the cursor stays on the peer's screen, and the peer is told. */
  lemma PullsBack(n: Node)
    requires PushedOver(n)
    ensures Legal(FLEET, n, PULL_BACK)
    ensures var r := Step(FLEET, n, PULL_BACK);
            r.sess.wire == Append(n.sess.wire, "a", MoveMsg(60, 50, ByServer(OVERLAP)))
  {
    assert OVERLAP[1] in OVERLAP && !HOME.Contains(109, 50) && COVERED.Contains(109, 50);
    assert ScreenAt(OVERLAP, 109, 50) == Some(COVERED);
    assert n.sess.cursor.MoveByDelta(-49, 0) == Cursor(OVERLAP, 60, 50, Some(COVERED));
  }

  /** The peer resolves such a move on the local screen, and warps to the wrong spot. */
  lemma MissesOwnScreen()
    ensures var d := FLEET["a"];
            OwnIds(d, OVERLAP) && !FirstIsOwn(d, OVERLAP, 60, 50) && !SameSpot(d.own, OVERLAP, 60, 50, Pos(60, 50))
  {
    var d := FLEET["a"];
    assert ScreenAt(OVERLAP, 60, 50) == Some(HOME);
    assert CopyOf(COVERED, REPORTED) && OwnedBy(COVERED, d);
    forall s, ps | s in OVERLAP && ps in d.own && s.id == ps.id ensures OwnedBy(s, d) {
      assert s == COVERED;
    }
  }

  const COVERING := JOINING + [PLACE_OVER] + [PUSH_OVER] + [PULL_BACK]

  lemma CoveringRun() returns (n: Node)
    ensures LegalRun(FLEET, Started(HOME, 50, 50), COVERING) && PushedOver(n)
    ensures Run(FLEET, Started(HOME, 50, 50), COVERING) == Step(FLEET, n, PULL_BACK)
  {
    var s := Started(HOME, 50, 50);
    var log := JoinedAt(HOME, 50, 50);
    PlacesOver(log);
    RunAppend(FLEET, s, JOINING, PLACE_OVER);
    var n1 := Run(FLEET, s, JOINING + [PLACE_OVER]);
    PushesOver(n1);
    RunAppend(FLEET, s, JOINING + [PLACE_OVER], PUSH_OVER);
    n := Step(FLEET, n1, PUSH_OVER);
    PullsBack(n);
    RunAppend(FLEET, s, JOINING + [PLACE_OVER] + [PUSH_OVER], PULL_BACK);
  }

  lemma LastMoveMisses(r: Node, log: seq<Msg>)
    requires Reachable(FLEET, r)
    requires "a" in r.sess.wire && r.sess.wire["a"] == log + [MoveMsg(60, 50, ByServer(OVERLAP))]
    ensures !LandsRight(FLEET["a"], r.sess.wire["a"], |log|)
  {
    MissesOwnScreen();
    MovesLandWhereTheServerMeant(FLEET, r, "a", |log|);
  }

  /**
   With an overlapping placement a move the server sends for the peer's screen
   warps the peer's pointer to a spot that is not where the server meant.
   */
  lemma CoveredMoveMisses() returns (n: Node, log: seq<Msg>)
    ensures n == Run(FLEET, Started(HOME, 50, 50), COVERING) && Reachable(FLEET, n)
    ensures "a" in n.sess.wire && n.sess.wire["a"] == log + [MoveMsg(60, 50, ByServer(OVERLAP))]
    ensures !LandsRight(FLEET["a"], n.sess.wire["a"], |log|)
  {
    var before := CoveringRun();
    PullsBack(before);
    RunReachable(HOME, 50, 50, COVERING);
    n, log := Step(FLEET, before, PULL_BACK), Log(before.sess.wire, "a");
    LastMoveMisses(n, log);
  }
}
