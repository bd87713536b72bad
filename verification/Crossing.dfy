/**
 How the shared cursor crosses to a peer and moves on it: where it goes, what
 the peer is told, and where the physical pointer is held meanwhile.
 */
module Crossings {
  import opened Common
  import opened Layout
  import opened Routing
  import opened Sessions
  import opened Coordinates
  import opened Placement
  import opened Adapter
  import opened Fleets
  import opened Clients
  import opened Suppression

  /** a is the one connection of device d, it is ready, and it takes writes. */
  ghost predicate Reaches(n: Node, a: Addr, d: DeviceID, env: Env) {
    && a in n.sess.peers && n.sess.peers[a].ready && n.sess.peers[a].host == d
    && UniqueHosts(n.sess.peers) && a in env.push && a !in env.fail
  }

  lemma {:induction false} TheConnection(peers: map<Addr, Peer>, order: seq<Addr>, a: Addr)
    requires UniqueHosts(peers) && a in peers && peers[a].ready && a in order
    ensures PeerFor(peers, order, peers[a].host) == Some(a)
  {
    if order[0] != a { TheConnection(peers, order[1..], a); }
  }

  /** What went out between n and r: one message to a, and nothing to anyone else. */
  ghost predicate OnlySent(n: Node, r: Node, a: Addr, m: Msg) {
    forall b :: Log(r.sess.wire, b) == if b == a then Log(n.sess.wire, a) + [m] else Log(n.sess.wire, b)
  }

  lemma ForwardsTo(n: Node, s: Session, a: Addr, m: Msg, env: Env)
    requires s.peers == n.sess.peers && s.wire == n.sess.wire && s.cursor.OffDevice(s.local)
    requires Reaches(n, a, s.cursor.cur.value.device, env)
    ensures s.Forward(m, env) == Res(s.(wire := Append(n.sess.wire, a, m)), true)
  {
    TheConnection(n.sess.peers, env.push, a);
  }

  /**
   A move in relative mode that ends on a peer's screen: the cursor is at the
   position plus the delta if any screen is there, else at the nearest point of
   the screen it is on; the peer alone is told that position.
   */
  lemma RelativeMoveGoes(n: Node, x: i32, y: i32, dx: i32, dy: i32, a: Addr, env: Env)
    requires n.relative && (dx != 0 || dy != 0)
    requires var c := n.sess.cursor; ScreenAt(c.desk, c.vx, c.vy).Some?
    requires var c := n.sess.cursor; var end := EndsOn(c.desk, c.vx, c.vy, Add32(c.vx, dx), Add32(c.vy, dy));
             IsPeers(n, end) && Reaches(n, a, end.value.device, env)
    ensures var c := n.sess.cursor; var tx, ty := Add32(c.vx, dx), Add32(c.vy, dy);
            var r := n.OnMove(x, y, dx, dy, env); var c' := r.sess.cursor;
            && r.relative && r.cap == n.cap && r.injected == n.injected && c'.desk == c.desk
            && c'.cur == EndsOn(c.desk, c.vx, c.vy, tx, ty)
            && (if ScreenAt(c.desk, tx, ty).Some? then (c'.vx, c'.vy) == (tx, ty)
                else Nearest(c'.cur.value, c'.vx, c'.vy, tx, ty))
            && OnlySent(n, r, a, MoveMsg(c'.vx, c'.vy, ByServer(c.desk)))
  {
    var c := n.sess.cursor;
    MovesGoWhereHeaded(c, MoveByDeltaOp(dx, dy));
    var s1 := n.sess.(cursor := Apply(c, MoveByDeltaOp(dx, dy)));
    ForwardsTo(n, s1, a, MoveMsg(s1.cursor.vx, s1.cursor.vy, ByServer(s1.cursor.desk)), env);
  }

  datatype Side = Right | Left | Bottom | Top

  /** The pointer is within 12 pixels of this side of s and moves out of it. */
  predicate Pushes(s: Screen, side: Side, x: i32, y: i32, dx: i32, dy: i32) {
    match side
    case Right => s.Right() - x <= 12 && dx > 0
    case Left => x - s.x < 12 && dx < 0
    case Bottom => s.Bottom() - y <= 12 && dy > 0
    case Top => y - s.y < 12 && dy < 0
  }

  /** The sides are tried in this order. */
  predicate FirstPushed(s: Screen, side: Side, x: i32, y: i32, dx: i32, dy: i32) {
    && Pushes(s, side, x, y, dx, dy)
    && (side != Right ==> !Pushes(s, Right, x, y, dx, dy))
    && (side.Bottom? || side.Top? ==> !Pushes(s, Left, x, y, dx, dy))
    && (side.Top? ==> !Pushes(s, Bottom, x, y, dx, dy))
  }

  /** One delta beyond the outermost pixel of that side. */
  function Beyond(s: Screen, side: Side, x: i32, y: i32, dx: i32, dy: i32): (int, int) {
    match side
    case Right => (s.Right() - 1 + dx, y as int)
    case Left => (s.x + dx, y as int)
    case Bottom => (x as int, s.Bottom() - 1 + dy)
    case Top => (x as int, s.y + dy)
  }

  /** Three pixels inside it. */
  function Inside(s: Screen, side: Side, x: i32, y: i32): (int, int) {
    match side
    case Right => (s.Right() - 4, y as int)
    case Left => (s.x + 3, y as int)
    case Bottom => (x as int, s.Bottom() - 4)
    case Top => (x as int, s.y + 3)
  }

  /** The 12-pixel bands do not reach over an end of int32. */
  predicate Roomy(s: Screen) {
    s.Right() >= -TWO31 + 12 && s.Bottom() >= -TWO31 + 12 && s.x <= TWO31 - 12 && s.y <= TWO31 - 12
  }

  predicate IsPoint(u: int, v: int) { -TWO31 <= u < TWO31 && -TWO31 <= v < TWO31 }

  lemma PushTargets(s: Screen, side: Side, x: i32, y: i32, dx: i32, dy: i32)
    requires Roomy(s) && s.Contains(x, y) && FirstPushed(s, side, x, y, dx, dy)
    requires var (u, v) := Beyond(s, side, x, y, dx, dy); IsPoint(u, v)
    ensures var t := Target(s, x, y, dx, dy); (t.x as int, t.y as int) == Beyond(s, side, x, y, dx, dy)
    ensures var p := Pin(s, x, y, dx, dy); (p.x as int, p.y as int) == Inside(s, side, x, y)
  {
  }

  /**
   Pushing out of any of the four sides of a local screen, with a peer's screen
   one delta beyond - the router adds the screen's origin to that point -: the
   shared cursor is there at once, the peer alone is told, local input is
   suppressed and the physical pointer is held three pixels inside the side it
   was pushed over.
   */
  lemma PushCrosses(n: Node, s: Screen, side: Side, x: i32, y: i32, dx: i32, dy: i32, u: int, v: int,
                    p: Screen, a: Addr, env: Env)
    requires !n.relative && ScreenAt(n.own, x, y) == Some(s) && Roomy(s) && FirstPushed(s, side, x, y, dx, dy)
    requires (u, v) == Beyond(s, side, x, y, dx, dy) && IsPoint(u, v) && IsPoint(s.x + u, s.y + v)
    requires Disjoint(n.sess.cursor.desk) && p in n.sess.cursor.desk && p.Contains(s.x + u, s.y + v)
    requires p.device != n.sess.local && Reaches(n, a, p.device, env)
    ensures var c := n.sess.cursor; var (ix, iy) := Inside(s, side, x, y); var r := n.OnMove(x, y, dx, dy, env);
            && r.relative && r.sess.cursor == Cursor(c.desk, s.x + u, s.y + v, Some(p)) && r.injected == n.injected
            && OnlySent(n, r, a, MoveMsg(s.x + u, s.y + v, ByServer(c.desk)))
            && (n.cap.Some? ==>
                  && r.cap.Some? && r.cap.value.suppress && r.cap.value.anchor.Some?
                  && (r.cap.value.anchor.value.x as int, r.cap.value.anchor.value.y as int) == (ix, iy))
  {
    PushTargets(s, side, x, y, dx, dy);
    MovesOnto(n.sess.cursor, p, s.x + u, s.y + v);
    PushForwards(n, s, u, v, Cursor(n.sess.cursor.desk, s.x + u, s.y + v, Some(p)), a, env);
  }

  /** A local pointer move that takes the cursor to a peer's screen writes its position there. */
  lemma PushForwards(n: Node, s: Screen, u: i32, v: i32, c: Cursor, a: Addr, env: Env)
    requires n.sess.cursor.MoveTo(Add32(s.x, u), Add32(s.y, v)) == c
    requires c.OffDevice(n.sess.local) && Reaches(n, a, c.cur.value.device, env)
    ensures var r := n.sess.LocalPointerMove(s, u, v, env);
            && r.ok && r.s.cursor == c && r.s.local == n.sess.local
            && r.s.wire == Append(n.sess.wire, a, MoveMsg(c.vx, c.vy, ByServer(c.desk)))
  {
    ForwardsTo(n, n.sess.(cursor := c), a, MoveMsg(c.vx, c.vy, ByServer(c.desk)), env);
  }

  /** On a disjoint arrangement a move to a point of a screen ends there, wherever it starts. */
  lemma MovesOnto(c: Cursor, p: Screen, x: i32, y: i32)
    requires Disjoint(c.desk) && p in c.desk && p.Contains(x, y)
    ensures c.MoveTo(x, y) == Cursor(c.desk, x, y, Some(p))
  {
    OnlyScreenAt(c.desk, p, x, y);
    MoveAgreesWithLookup(c.desk, c.vx, c.vy, x, y);
    if ScreenAt(c.desk, c.vx, c.vy).Some? { MoveExactOrNearest(c.desk, c.vx, c.vy, x, y); }
  }

  /** A pointer on none of the node's screens moves nothing while it is not suppressed. */
  lemma OffScreenIgnored(n: Node, x: i32, y: i32, dx: i32, dy: i32, env: Env)
    requires !n.relative && forall s :: s in n.own ==> !s.Contains(x, y)
    ensures n.OnMove(x, y, dx, dy, env) == n
  {
  }

  /** Nothing is ever relayed to the connection it came from, and at most one other hears of it. */
  lemma RelayNeverEchoes(n: Node, origin: Addr, x: i32, y: i32, ev: InputEvent, env: Env)
    ensures Log(n.OnPeerMove(origin, x, y, env).sess.wire, origin) == Log(n.sess.wire, origin)
    ensures Log(n.OnPeerInput(origin, ev, env).sess.wire, origin) == Log(n.sess.wire, origin)
  {
    var s1 := n.sess.(cursor := n.sess.cursor.MoveTo(x, y));
    RelayKeepsOwn(s1, origin, MoveMsg(x, y, Relayed(n.sess.cursor.desk)), env);
    if n.sess.cursor.cur.Some? { RelayKeepsOwn(n.sess, origin, InputMsg(ev, n.sess.cursor.cur.value), env); }
  }

  lemma RelayKeepsOwn(s: Session, origin: Addr, m: Msg, env: Env)
    ensures Log(s.Relay(origin, m, env).s.wire, origin) == Log(s.wire, origin)
  {
  }

  /**
   A client's move: the shared cursor goes where the client says if any screen is
   there, else to the nearest point of the screen it is on.
   */
  lemma PeerMoveGoes(n: Node, origin: Addr, x: i32, y: i32, env: Env)
    requires var c := n.sess.cursor; ScreenAt(c.desk, c.vx, c.vy).Some?
    ensures var c := n.sess.cursor; var r := n.OnPeerMove(origin, x, y, env); var c' := r.sess.cursor;
            && c'.desk == c.desk && c'.cur == EndsOn(c.desk, c.vx, c.vy, x, y)
            && r.relative == n.relative && r.cap == n.cap
            && (if ScreenAt(c.desk, x, y).Some? then (c'.vx, c'.vy) == (x, y)
                else Nearest(ScreenAt(c.desk, c.vx, c.vy).value, c'.vx, c'.vy, x, y))
  {
    var c := n.sess.cursor;
    MovesGoWhereHeaded(c, MoveToOp(x, y));
    RelayFrame(n.sess.(cursor := c.MoveTo(x, y)), origin, MoveMsg(x, y, Relayed(c.desk)), env);
  }

  /** If that is on another client's screen, that client alone is told the point itself. */
  lemma PeerMoveTells(n: Node, origin: Addr, x: i32, y: i32, a: Addr, env: Env)
    requires var c := n.sess.cursor; var end := EndsOn(c.desk, c.vx, c.vy, x, y);
             IsPeers(n, end) && Reaches(n, a, end.value.device, env) && a != origin
    ensures var r := n.OnPeerMove(origin, x, y, env);
            OnlySent(n, r, a, MoveMsg(x, y, Relayed(n.sess.cursor.desk))) && r.injected == n.injected
  {
    var c := n.sess.cursor;
    WhereMovesEnd(c.desk, c.vx, c.vy, x, y);
    TheConnection(n.sess.peers, env.push, a);
  }

  /** Either the connection takes it, or the failure is reported and nothing was sent. */
  lemma RelayReports(n: Node, origin: Addr, x: i32, y: i32, a: Addr, env: Env)
    requires var c := n.sess.cursor; var end := EndsOn(c.desk, c.vx, c.vy, x, y);
             IsPeers(n, end) && Reaches(n, a, end.value.device, env.(fail := {})) && a != origin
    ensures var r := n.sess.PeerMove(origin, x, y, env);
            r.verdict == (if a in env.fail then WriteFailed else Handled) &&
            (a in env.fail ==> r.s.wire == n.sess.wire)
  {
    var c := n.sess.cursor;
    WhereMovesEnd(c.desk, c.vx, c.vy, x, y);
    TheConnection(n.sess.peers, env.push, a);
  }

  /** On the server's own screen it moves the server's pointer to the same spot. */
  lemma PeerMoveLandsHere(n: Node, origin: Addr, x: i32, y: i32, env: Env)
    requires Settled(n) && UniqueIds(n.own) && forall s :: s in n.own ==> s.device == n.sess.local && s.Fits()
    requires var c := n.sess.cursor; ScreenAt(c.desk, x, y).Some? && ScreenAt(c.desk, x, y).value in n.own
    requires n.sess.cursor.MoveTo(x, y).On(n.sess.local)
    ensures var r := n.OnPeerMove(origin, x, y, env);
            && r.sess.wire == n.sess.wire && |r.injected| == |n.injected| + 1 && n.injected <= r.injected
            && r.injected[|n.injected|].Warp?
            && SameSpot(n.own, n.sess.cursor.desk, x, y, r.injected[|n.injected|].p)
  {
    var s := ScreenAt(n.sess.cursor.desk, x, y).value;
    var d := Device(n.sess.local, n.own);
    assert OwnedBy(s, d) by { assert CopyOf(s, s); }
    OwnedMoveConverts(d, n.sess.cursor.desk, x, y);
  }

  /**
   A placement takes effect at once, and undoing it puts the screen back into
   the row.
   */
  lemma PlacementAndBack(n: Node, id: ScreenID, p: Pos, env: Env, i: nat)
    requires var rs := Reported(n.sess.peers, env.scan); i < |rs| && rs[i].id == id
    ensures var there := n.SetPlacement(id, p, env);
            there.desk.Some? && |n.own| + i < |there.desk.value|
            && Pos(there.desk.value[|n.own| + i].x, there.desk.value[|n.own| + i].y) == p
    ensures var back := n.ClearPlacement(id, env); var byHand := n.byHand - {id};
            var rs := Reported(n.sess.peers, env.scan);
            && back.desk.Some? && |n.own| + i < |back.desk.value|
            && var s := back.desk.value[|n.own| + i];
               && IsRowLevel(n.own, s.y)
               && (RowFits(rs, byHand, RightOf(n.own), RowY(n.own)) ==>
                     IsRowStart(n.own, s.x - AutoWidth(rs[..i], byHand)))
  {
    var rs := Reported(n.sess.peers, env.scan);
    PlaceKeeps(rs, n.byHand[id := p], RightOf(n.own), RowY(n.own), i);
    AutoPlacedAt(n.own, n.sess.peers, n.byHand - {id}, env.scan, i);
    DeskIs(n.(byHand := n.byHand[id := p]), env);
    DeskIs(n.(byHand := n.byHand - {id}), env);
  }

  lemma DeskIs(n: Node, env: Env)
    ensures n.Rebuild(env).desk == Some(BuildDesk(n.own, n.sess.peers, n.byHand, env.scan))
  {
  }
}
