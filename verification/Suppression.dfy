/**
 Relative mode suppresses local input while the shared cursor is on a peer.
 These results say when it turns on, that it can always be left, and what
 every run of the node keeps about it.
 */
module Suppression {
  import opened Common
  import opened Layout
  import opened Routing
  import opened Sessions
  import opened Coordinates
  import opened Placement
  import opened Adapter
  import opened Fleets

  /** Suppression is on only while the shared cursor is on another device. */
  predicate Guarded(n: Node) {
    n.relative ==> n.sess.cursor.OffDevice(n.sess.local)
  }

  /** The capture driver agrees with the flag, and the local screens come first in the arrangement. */
  ghost predicate Settled(n: Node) {
    && (n.cap.Some? ==> n.cap.value.suppress == n.relative && n.cap.value.anchor.Some? == n.relative)
    && n.desk == Some(n.sess.cursor.desk)
    && n.own <= n.sess.cursor.desk
  }

  /** The device's own screens are usable: at least one, all labelled local, none degenerate. */
  ghost predicate Usable(n: Node) {
    && n.own != []
    && (forall s :: s in n.own ==> s.device == n.sess.local && s.Fits())
  }

  lemma ForwardFrame(s: Session, m: Msg, env: Env)
    ensures var r := s.Forward(m, env).s; r.cursor == s.cursor && r.peers == s.peers && r.local == s.local
  {
  }

  lemma LocalEventFrame(s: Session, ev: InputEvent, env: Env)
    ensures var r := s.RouteLocalEvent(ev, env).s; r.cursor == s.cursor && r.peers == s.peers && r.local == s.local
  {
    if s.cursor.OffDevice(s.local) { ForwardFrame(s, InputMsg(ev, s.cursor.cur.value), env); }
  }

  lemma RelayFrame(s: Session, origin: Addr, m: Msg, env: Env)
    ensures var r := s.Relay(origin, m, env).s; r.cursor == s.cursor && r.peers == s.peers && r.local == s.local
  {
  }

  lemma RebuildSettles(n: Node, env: Env)
    requires n.cap.Some? ==> n.cap.value.suppress == n.relative && n.cap.value.anchor.Some? == n.relative
    ensures Settled(n.Rebuild(env)) && n.Rebuild(env).own == n.own && n.Rebuild(env).sess.local == n.sess.local
  {
    var l := BuildDesk(n.own, n.sess.peers, n.byHand, env.scan);
    assert n.own <= l;
  }

  lemma RelativeSettled(n: Node, dx: i32, dy: i32, env: Env)
    requires Settled(n)
    ensures Settled(n.OnRelativeMove(dx, dy, env))
  {
    var s1 := n.sess.(cursor := n.sess.cursor.MoveByDelta(dx, dy));
    ForwardFrame(s1, MoveMsg(s1.cursor.vx, s1.cursor.vy, ByServer(s1.cursor.desk)), env);
  }

  lemma CoupledSettled(n: Node, x: i32, y: i32, dx: i32, dy: i32, env: Env)
    requires Settled(n)
    ensures !n.relative ==> Settled(n.OnCoupledMove(x, y, dx, dy, env))
  {
    if ScreenAt(n.own, x, y).Some? {
      var s := ScreenAt(n.own, x, y).value;
      var t := Target(s, x, y, dx, dy);
      var s1 := n.sess.(cursor := n.sess.cursor.OnLocalMove(s, t.x, t.y));
      ForwardFrame(s1, MoveMsg(s1.cursor.vx, s1.cursor.vy, ByServer(s1.cursor.desk)), env);
    }
  }

  lemma PressSettled(n: Node, ev: InputEvent, env: Env)
    requires Settled(n)
    ensures Settled(n.OnInput(ev, env))
  {
    LocalEventFrame(n.sess, ev, env);
  }

  lemma PeerPressSettled(n: Node, origin: Addr, ev: InputEvent, env: Env)
    requires Settled(n)
    ensures Settled(n.OnPeerInput(origin, ev, env))
  {
    if n.sess.cursor.cur.Some? { RelayFrame(n.sess, origin, InputMsg(ev, n.sess.cursor.cur.value), env); }
  }

  lemma PeerMoveSettled(n: Node, origin: Addr, x: i32, y: i32, env: Env)
    requires Settled(n)
    ensures Settled(n.OnPeerMove(origin, x, y, env))
  {
    RelayFrame(n.sess.(cursor := n.sess.cursor.MoveTo(x, y)), origin, MoveMsg(x, y, Relayed(n.sess.cursor.desk)), env);
  }

  lemma HelloSettled(n: Node, a: Addr, host: DeviceID, env: Env)
    requires Settled(n)
    ensures Settled(n.OnHello(a, host, env))
  {
    RebuildSettles(n.(sess := n.sess.Hello(a, host, env.fail).s), env);
  }

  lemma ReportSettled(n: Node, a: Addr, screens: seq<Screen>, env: Env)
    requires Settled(n)
    ensures Settled(n.OnReport(a, screens, env))
  {
    RebuildSettles(n.(sess := n.sess.Report(a, screens)), env);
  }

  lemma GoneSettled(n: Node, a: Addr, env: Env)
    requires Settled(n)
    ensures Settled(n.OnGone(a, env))
  {
    RebuildSettles(n.(sess := n.sess.Drop(a)), env);
  }

  lemma SetPlacementSettled(n: Node, id: ScreenID, p: Pos, env: Env)
    requires Settled(n)
    ensures Settled(n.SetPlacement(id, p, env))
  {
    RebuildSettles(n.(byHand := n.byHand[id := p]), env);
  }

  lemma ClearPlacementSettled(n: Node, id: ScreenID, env: Env)
    requires Settled(n)
    ensures Settled(n.ClearPlacement(id, env))
  {
    RebuildSettles(n.(byHand := n.byHand - {id}), env);
  }

  lemma RegistryStepSettled(f: Fleet, n: Node, e: Event)
    requires Settled(n) && (e.act.HelloFrom? || e.act.ReportFrom? || e.act.Gone?)
    ensures Settled(Step(f, n, e))
  {
    match e.act
    case HelloFrom(a) => if a in f { HelloSettled(n, a, f[a].host, e.env); }
    case ReportFrom(a) => if a in f { ReportSettled(n, a, f[a].own, e.env); }
    case Gone(a) => GoneSettled(n, a, e.env);
  }

  lemma PlaceStepSettled(f: Fleet, n: Node, e: Event)
    requires Settled(n) && e.act.PlaceAt?
    ensures Settled(Step(f, n, e))
  {
    SetPlacementSettled(n, e.act.id, e.act.p, e.env);
  }

  lemma UnplaceStepSettled(f: Fleet, n: Node, e: Event)
    requires Settled(n) && e.act.Unplace?
    ensures Settled(Step(f, n, e))
  {
    ClearPlacementSettled(n, e.act.id, e.env);
  }

  lemma PeerStepSettled(f: Fleet, n: Node, e: Event)
    requires Settled(n) && (e.act.MoveFrom? || e.act.PressFrom?)
    ensures Settled(Step(f, n, e))
  {
    match e.act
    case MoveFrom(a, x, y) => PeerMoveSettled(n, a, x, y, e.env);
    case PressFrom(a, ev) => PeerPressSettled(n, a, ev, e.env);
  }

  lemma LocalStepSettled(f: Fleet, n: Node, e: Event)
    requires Settled(n) && e.act.LocalInput()
    ensures Settled(Step(f, n, e))
  {
    match e.act
    case Mouse(x, y, dx, dy) =>
      RelativeSettled(n, dx, dy, e.env);
      CoupledSettled(n, x, y, dx, dy, e.env);
    case Press(ev) => PressSettled(n, ev, e.env);
  }

  /** Every step keeps the node settled, whatever writes fail and however maps are enumerated. */
  lemma StepSettled(f: Fleet, n: Node, e: Event)
    requires Settled(n)
    ensures Settled(Step(f, n, e))
  {
    if e.act.LocalInput() {
      LocalStepSettled(f, n, e);
    } else if e.act.MoveFrom? || e.act.PressFrom? {
      PeerStepSettled(f, n, e);
    } else if e.act.PlaceAt? {
      PlaceStepSettled(f, n, e);
    } else if e.act.Unplace? {
      UnplaceStepSettled(f, n, e);
    } else {
      RegistryStepSettled(f, n, e);
    }
  }

  lemma {:induction false} RunSettled(f: Fleet, n: Node, es: seq<Event>)
    requires Settled(n)
    ensures Settled(Run(f, n, es))
    decreases |es|
  {
    if es != [] {
      StepSettled(f, n, es[0]);
      RunSettled(f, Step(f, n, es[0]), es[1..]);
    }
  }

  /**
   In every run from start-up - any steps, any failures - the capture driver
   suppresses and bounces exactly when the node is in relative mode, and the
   local screens lead the arrangement.
   */
  lemma EveryRunSettled(f: Fleet, local: DeviceID, own: Desk, cap: Option<Capture>, seed: Option<Pos>, es: seq<Event>)
    requires cap.Some? ==> cap.value == Capture(false, None)
    ensures Settled(Run(f, Boot(local, own, cap, seed), es))
  {
    RebuildSettles(Node(Session(local, Start([]), map[], map[]), own, map[], false, None, None, []), Env([], [], {}));
    RunSettled(f, Boot(local, own, cap, seed), es);
  }

  /**
   A mouse move that is coupled, or moves at all, leaves the node guarded -
   from any state whatsoever, also one that rebuilds or peer moves broke.
   */
  lemma NonZeroMoveRestores(n: Node, x: i32, y: i32, dx: i32, dy: i32, env: Env)
    requires !n.relative || dx != 0 || dy != 0
    ensures Guarded(n.OnMove(x, y, dx, dy, env))
  {
    var s1 := n.sess.(cursor := n.sess.cursor.MoveByDelta(dx, dy));
    ForwardFrame(s1, MoveMsg(s1.cursor.vx, s1.cursor.vy, ByServer(s1.cursor.desk)), env);
  }

  /** Local input on its own never breaks the guard. */
  lemma InputKeepsGuard(f: Fleet, n: Node, e: Event)
    requires Guarded(n) && e.act.LocalInput()
    ensures Guarded(Step(f, n, e))
  {
    match e.act
    case Mouse(x, y, dx, dy) =>
      if !n.relative || dx != 0 || dy != 0 { NonZeroMoveRestores(n, x, y, dx, dy, e.env); }
    case Press(ev) => LocalEventFrame(n.sess, ev, e.env);
  }

  lemma {:induction false} InputRunKeepsGuard(f: Fleet, n: Node, es: seq<Event>)
    requires Guarded(n) && forall e :: e in es ==> e.act.LocalInput()
    ensures Guarded(Run(f, n, es))
    decreases |es|
  {
    if es != [] {
      assert es[0] in es;
      InputKeepsGuard(f, n, es[0]);
      InputRunKeepsGuard(f, Step(f, n, es[0]), es[1..]);
    }
  }

  /**
   Exactly when a rebuild keeps the guard of a node in relative mode: the active
   device lost all its screens (then it is released), or the new arrangement has
   a peer's screen under the cursor.
   */
  lemma GuardAfterRebuild(n: Node, env: Env)
    requires n.relative && Guarded(n)
    ensures var l := BuildDesk(n.own, n.sess.peers, n.byHand, env.scan); var c := n.sess.cursor;
            Guarded(n.Rebuild(env)) <==>
            || (forall s :: s in l ==> s.device != c.cur.value.device)
            || (ScreenAt(l, c.vx, c.vy).Some? && ScreenAt(l, c.vx, c.vy).value.device != n.sess.local)
  {
    var l := BuildDesk(n.own, n.sess.peers, n.byHand, env.scan);
    if s :| s in l && s.device == n.sess.cursor.cur.value.device {
      assert n.(desk := Some(l)).ReleaseIfActiveGone(l) == n.(desk := Some(l));
    }
  }

  /** s is a screen of another device. */
  predicate IsPeers(n: Node, s: Option<Screen>) { s.Some? && s.value.device != n.sess.local }

  /**
   And a peer's move, on any arrangement: exactly when it ends on a peer's
   screen. On a disjoint one that is the screen under the target, if any.
   */
  lemma GuardAfterPeerMove(n: Node, origin: Addr, x: i32, y: i32, env: Env)
    requires n.relative
    ensures var c := n.sess.cursor;
            && (Guarded(n.OnPeerMove(origin, x, y, env)) <==> IsPeers(n, EndsOn(c.desk, c.vx, c.vy, x, y)))
            && (Disjoint(c.desk) ==>
                  (Guarded(n.OnPeerMove(origin, x, y, env)) <==>
                   IsPeers(n, if ScreenAt(c.desk, x, y).Some? then ScreenAt(c.desk, x, y)
                              else ScreenAt(c.desk, c.vx, c.vy))))
  {
    var c := n.sess.cursor;
    WhereMovesEnd(c.desk, c.vx, c.vy, x, y);
    RelayFrame(n.sess.(cursor := c.MoveTo(x, y)), origin, MoveMsg(x, y, Relayed(c.desk)), env);
  }

  /** With local screens first, any point of a local screen resolves to a local screen, overlaps or not. */
  lemma LocalFirstLookup(own: Desk, l: Desk, s: Screen, x: i32, y: i32)
    requires own <= l && s in own && s.Contains(x, y)
    ensures ScreenAt(l, x, y).Some? && ScreenAt(l, x, y).value in own
  {
    var i :| 0 <= i < |own| && own[i] == s;
    assert l[i] == own[i];
    var j := IndexAt(l, x, y);
    assert j <= i;
    assert l[j] == own[j];
  }

  lemma CenterInside(s: Screen)
    requires s.Fits()
    ensures s.Contains(Center(s).x, Center(s).y)
  {
  }

  /** (x, y) is the centre of the first primary local screen, or of the first one if none is primary. */
  ghost predicate IsHome(own: Desk, x: int, y: int) {
    exists k :: 0 <= k < |own| && x == own[k].x + own[k].w / 2 && y == own[k].y + own[k].h / 2 &&
      if own[k].primary then forall j :: 0 <= j < k ==> !own[j].primary
      else k == 0 && forall s :: s in own ==> !s.primary
  }

  lemma CenterIsHome(own: Desk)
    requires own != [] && forall s :: s in own ==> s.Fits()
    ensures var c := Center(PrimaryOf(own).value); IsHome(own, c.x, c.y)
  {
    var k := FirstPrimary(own);
    var s := if k < |own| then own[k] else own[0];
    assert s in own && Center(s).x == s.x + s.w / 2 && Center(s).y == s.y + s.h / 2;
  }

  /** The physical cursor was sent, once, to where the shared one now is. */
  predicate WarpedTogether(n: Node, r: Node) {
    r.injected == n.injected + [Warp(Pos(r.sess.cursor.vx, r.sess.cursor.vy))]
  }

  /** The shared cursor is at the centre of the local primary screen. */
  ghost predicate AtHome(n: Node) { IsHome(n.own, n.sess.cursor.vx, n.sess.cursor.vy) }

  lemma SnapIsLocal(n: Node)
    requires Usable(n) && n.own <= n.sess.cursor.desk
    ensures var r := n.SnapToPrimary(); r.sess.cursor.On(n.sess.local) && WarpedTogether(n, r) && AtHome(r)
  {
    CenterIsHome(n.own);
    var p := PrimaryOf(n.own).value;
    CenterInside(p);
    LocalFirstLookup(n.own, n.sess.cursor.desk, p, Center(p).x, Center(p).y);
  }

  /**
   A rebuild that removes every screen of the active device ends with relative
   mode off and both cursors at one point of a local screen, whether or not peers overlap and
   whichever writes fail.
   */
  lemma RemovalReleases(n: Node, env: Env)
    requires Usable(n) && n.sess.cursor.cur.Some?
    requires forall s :: s in BuildDesk(n.own, n.sess.peers, n.byHand, env.scan) ==>
             s.device != n.sess.cursor.cur.value.device
    ensures var r := n.Rebuild(env); !r.relative && r.sess.cursor.On(r.sess.local) && WarpedTogether(n, r) && AtHome(r)
  {
    var l := BuildDesk(n.own, n.sess.peers, n.byHand, env.scan);
    var p := PrimaryOf(n.own).value;
    var c := Center(p);
    CenterInside(p);
    LocalFirstLookup(n.own, l, p, c.x, c.y);
    CenterIsHome(n.own);
    RemovedIs(n, env, l, c);
  }

  lemma RemovedIs(n: Node, env: Env, l: Desk, c: Pos)
    requires n.own != [] && n.sess.cursor.cur.Some? && c == Center(PrimaryOf(n.own).value)
    requires l == BuildDesk(n.own, n.sess.peers, n.byHand, env.scan)
    requires forall s :: s in l ==> s.device != n.sess.cursor.cur.value.device
    ensures var r := n.Rebuild(env);
            && !r.relative && r.own == n.own && r.sess.local == n.sess.local
            && r.sess.cursor == Cursor(l, c.x, c.y, ScreenAt(l, c.x, c.y)) && r.injected == n.injected + [Warp(c)]
  {
  }

  lemma ReleaseIsLocal(n: Node)
    requires Usable(n) && n.own <= n.sess.cursor.desk && n.relative
    ensures var r := n.ForceRelease();
            !r.relative && r.sess.cursor.On(r.sess.local) && WarpedTogether(n, r) && AtHome(r)
  {
    SnapIsLocal(n.SetRelative(false));
  }

  /**
   A forward that fails while relative - a move, a button, a scroll or a key -
   ends relative mode with both cursors on a local screen.
   */
  lemma FailedForwardReleases(n: Node, dx: i32, dy: i32, ev: InputEvent, env: Env)
    requires Usable(n) && Settled(n) && n.relative
    ensures (dx != 0 || dy != 0) && !n.sess.LocalDeltaMove(dx, dy, env).ok ==>
              var r := n.OnRelativeMove(dx, dy, env);
              !r.relative && r.sess.cursor.On(r.sess.local) && WarpedTogether(n, r) && AtHome(r)
    ensures !n.sess.RouteLocalEvent(ev, env).ok ==>
              var r := n.OnInput(ev, env);
              !r.relative && r.sess.cursor.On(r.sess.local) && WarpedTogether(n, r) && AtHome(r)
  {
    var s1 := n.sess.(cursor := n.sess.cursor.MoveByDelta(dx, dy));
    ForwardFrame(s1, MoveMsg(s1.cursor.vx, s1.cursor.vy, ByServer(s1.cursor.desk)), env);
    LocalEventFrame(n.sess, ev, env);
    ReleaseIsLocal(n.(sess := n.sess.LocalDeltaMove(dx, dy, env).s));
    ReleaseIsLocal(n.(sess := n.sess.RouteLocalEvent(ev, env).s));
  }

  /** The pointer is within the 12-pixel band of an edge and the delta points out of that edge. */
  predicate PushedOutward(s: Screen, x: i32, y: i32, dx: i32, dy: i32) {
    || (s.Right() - 1 - x < EDGE_BAND && dx > 0)
    || (x - s.x < EDGE_BAND && dx < 0)
    || (s.Bottom() - 1 - y < EDGE_BAND && dy > 0)
    || (y - s.y < EDGE_BAND && dy < 0)
  }

  /**
   The four-way switch detects exactly an outward push, from a band that does
   not reach over an end of int32: there the band arithmetic wraps.
   */
  lemma PushIsOutward(s: Screen, x: i32, y: i32, dx: i32, dy: i32)
    requires s.Contains(x, y)
    ensures EdgePush(s, x, y, dx, dy) != Stay <==>
            || (s.Right() - 1 - x < EDGE_BAND && dx > 0 && s.Right() - EDGE_BAND >= -TWO31)
            || (x - s.x < EDGE_BAND && dx < 0 && s.x + EDGE_BAND <= TWO31)
            || (s.Bottom() - 1 - y < EDGE_BAND && dy > 0 && s.Bottom() - EDGE_BAND >= -TWO31)
            || (y - s.y < EDGE_BAND && dy < 0 && s.y + EDGE_BAND <= TWO31)
    ensures EdgePush(s, x, y, dx, dy) != Stay ==> PushedOutward(s, x, y, dx, dy)
  {
  }

  /** The write of a message to a device succeeds, or there is no connection to write it to. */
  predicate Delivers(n: Node, d: DeviceID, env: Env) {
    match PeerFor(n.sess.peers, env.push, d)
    case Some(a) => a !in env.fail
    case None => true
  }

  /**
   Exactly when a coupled move hands control over, on any arrangement: the
   projected target, offset by the screen's own origin as the router does, takes
   the cursor to a peer's screen, and that peer's connection takes the write. On
   a disjoint arrangement that is the screen under the target, or the current
   one if there is none.
   */
  lemma HandOverExactly(n: Node, x: i32, y: i32, dx: i32, dy: i32, env: Env)
    requires !n.relative && ScreenAt(n.own, x, y).Some?
    ensures var s := ScreenAt(n.own, x, y).value;
            var t := Target(s, x, y, dx, dy);
            var tx, ty := Add32(s.x, t.x), Add32(s.y, t.y);
            var c := n.sess.cursor;
            var end := EndsOn(c.desk, c.vx, c.vy, tx, ty);
            && (n.OnMove(x, y, dx, dy, env).relative <==> IsPeers(n, end) && Delivers(n, end.value.device, env))
            && (Disjoint(c.desk) ==>
                  end == if ScreenAt(c.desk, tx, ty).Some? then ScreenAt(c.desk, tx, ty)
                         else ScreenAt(c.desk, c.vx, c.vy))
  {
    var s := ScreenAt(n.own, x, y).value;
    var t := Target(s, x, y, dx, dy);
    WhereMovesEnd(n.sess.cursor.desk, n.sess.cursor.vx, n.sess.cursor.vy, Add32(s.x, t.x), Add32(s.y, t.y));
    var s1 := n.sess.(cursor := n.sess.cursor.OnLocalMove(s, t.x, t.y));
    ForwardFrame(s1, MoveMsg(s1.cursor.vx, s1.cursor.vy, ByServer(s1.cursor.desk)), env);
  }

  /** Sending the cursor to a point of a local screen puts it exactly there. */
  lemma MoveOntoOwn(n: Node, s: Screen, x: i32, y: i32)
    requires Disjoint(n.sess.cursor.desk) && n.own <= n.sess.cursor.desk && s in n.own && s.Contains(x, y)
    ensures n.sess.cursor.MoveTo(x, y) == Cursor(n.sess.cursor.desk, x, y, Some(s))
  {
    var c := n.sess.cursor;
    var i :| 0 <= i < |n.own| && n.own[i] == s;
    assert c.desk[i] == s;
    OnlyScreenAt(c.desk, s, x, y);
    MoveAgreesWithLookup(c.desk, c.vx, c.vy, x, y);
    if ScreenAt(c.desk, c.vx, c.vy).Some? { MoveExactOrNearest(c.desk, c.vx, c.vy, x, y); }
  }

  /**
   For a local screen at the origin: without an outward push the shared cursor
   follows the physical one, nothing is sent and relative mode stays off. So
   relative mode turns on only by pushing outward.
   */
  lemma OnlyOutwardPushHandsOver(n: Node, x: i32, y: i32, dx: i32, dy: i32, env: Env)
    requires !n.relative && Settled(n) && Disjoint(n.sess.cursor.desk) && ScreenAt(n.own, x, y).Some?
    requires var s := ScreenAt(n.own, x, y).value; s.x == 0 && s.y == 0 && s.device == n.sess.local
    ensures var s := ScreenAt(n.own, x, y).value;
            var r := n.OnMove(x, y, dx, dy, env);
            && (EdgePush(s, x, y, dx, dy) == Stay ==>
                  && !r.relative && r.sess.cursor == Cursor(n.sess.cursor.desk, x, y, Some(s))
                  && r.sess.wire == n.sess.wire && r.injected == n.injected && r.cap == n.cap)
            && (r.relative ==> PushedOutward(s, x, y, dx, dy))
  {
    var s := ScreenAt(n.own, x, y).value;
    PushIsOutward(s, x, y, dx, dy);
    if EdgePush(s, x, y, dx, dy) == Stay {
      MoveOntoOwn(n, s, x, y);
      assert Target(s, x, y, dx, dy) == Pos(x, y);
    }
  }

  /** The pin lies on the local screen exactly when that screen has at least 4 pixels across the crossed edge. */
  lemma PinOnScreen(s: Screen, x: i32, y: i32, dx: i32, dy: i32)
    requires s.Fits() && s.Contains(x, y)
    ensures var dir := EdgePush(s, x, y, dx, dy);
            var p := Pin(s, x, y, dx, dy);
            s.Contains(p.x, p.y) <==>
            && ((dir.PushRight? || dir.PushLeft?) ==> s.w >= 4)
            && ((dir.PushDown? || dir.PushUp?) ==> s.h >= 4)
  {
  }

  /**
   Relative mode turns on with the physical cursor pinned: the driver suppresses
   and bounces at the pin, which lies on the local screen if that is at least
   4 pixels each way.
   */
  lemma HandOverPins(n: Node, x: i32, y: i32, dx: i32, dy: i32, env: Env)
    requires !n.relative && n.cap.Some? && ScreenAt(n.own, x, y).Some? && n.OnMove(x, y, dx, dy, env).relative
    ensures var s := ScreenAt(n.own, x, y).value; var p := Pin(s, x, y, dx, dy);
            && n.OnMove(x, y, dx, dy, env).cap == Some(Capture(true, Some(p)))
            && (s.Fits() && s.w >= 4 && s.h >= 4 ==> s.Contains(p.x, p.y))
  {
    var s := ScreenAt(n.own, x, y).value;
    if s.Fits() { PinOnScreen(s, x, y, dx, dy); }
  }

  /** And it turns off when the shared cursor comes back: the physical one joins it where it is. */
  lemma ComingHomeWarps(n: Node, x: i32, y: i32, dx: i32, dy: i32, env: Env)
    requires n.relative && n.sess.LocalDeltaMove(dx, dy, env).ok && (dx != 0 || dy != 0)
    ensures var r := n.OnMove(x, y, dx, dy, env);
            if r.sess.cursor.OffDevice(r.sess.local) then r.relative && r.injected == n.injected && r.cap == n.cap
            else !r.relative && WarpedTogether(n, r) && (n.cap.Some? ==> r.cap == Some(Capture(false, None)))
  {
    var s1 := n.sess.(cursor := n.sess.cursor.MoveByDelta(dx, dy));
    ForwardFrame(s1, MoveMsg(s1.cursor.vx, s1.cursor.vy, ByServer(s1.cursor.desk)), env);
  }
}
