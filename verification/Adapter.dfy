/**
 platform/adapter/adapter.go: the node that owns the physical keyboard and
 mouse. It rebuilds the arrangement when peers change, feeds captured input to
 the session, and toggles relative mode (suppression of local input).
 */
module Adapter {
  import opened Common
  import opened Layout
  import opened Routing
  import opened Sessions
  import opened Coordinates
  import opened Placement

  const EDGE_BAND: i32 := 12
  const INSET: i32 := 3

  /** The capture driver's state: suppression flag and edge-bounce anchor. */
  datatype Capture = Capture(suppress: bool, anchor: Option<Pos>) {

    function SetRelativeMode(on: bool): Capture {
      if on then this.(suppress := true) else Capture(false, None)
    }

    function PinCursor(p: Pos): Capture { this.(anchor := Some(p)) }
  }

  /** What the injector was asked to do on this machine. */
  datatype Injection = Warp(p: Pos) | Typed(ev: InputEvent)

  datatype Push = Stay | PushRight | PushLeft | PushDown | PushUp

  /** Which edge band the pointer is in, provided the delta points out of that edge. */
  function EdgePush(s: Screen, x: i32, y: i32, dx: i32, dy: i32): Push {
    var right := Sub32(s.Right(), 1);
    var bottom := Sub32(s.Bottom(), 1);
    if x >= Add32(Sub32(right, EDGE_BAND), 1) && dx > 0 then PushRight
    else if x <= Sub32(Add32(s.x, EDGE_BAND), 1) && dx < 0 then PushLeft
    else if y >= Add32(Sub32(bottom, EDGE_BAND), 1) && dy > 0 then PushDown
    else if y <= Sub32(Add32(s.y, EDGE_BAND), 1) && dy < 0 then PushUp
    else Stay
  }

  /** The position reported to the router: projected past the edge when pushing, unchanged otherwise. */
  function Target(s: Screen, x: i32, y: i32, dx: i32, dy: i32): Pos {
    match EdgePush(s, x, y, dx, dy)
    case PushRight => Pos(Add32(Sub32(s.Right(), 1), dx), y)
    case PushLeft => Pos(Add32(s.x, dx), y)
    case PushDown => Pos(x, Add32(Sub32(s.Bottom(), 1), dy))
    case PushUp => Pos(x, Add32(s.y, dy))
    case Stay => Pos(x, y)
  }

  /** Where the physical cursor is pinned while the shared cursor is away. */
  function Pin(s: Screen, x: i32, y: i32, dx: i32, dy: i32): Pos {
    match EdgePush(s, x, y, dx, dy)
    case PushRight => Pos(Sub32(Sub32(s.Right(), 1), INSET), y)
    case PushLeft => Pos(Add32(s.x, INSET), y)
    case PushDown => Pos(x, Sub32(Sub32(s.Bottom(), 1), INSET))
    case PushUp => Pos(x, Add32(s.y, INSET))
    case Stay => Pos(x, y)
  }

  /** Go's integer division by two, truncating toward zero. */
  function Half(v: i32): i32 { if v >= 0 then v / 2 else (v + 1) / 2 }

  function Center(s: Screen): Pos { Pos(Add32(s.x, Half(s.w)), Add32(s.y, Half(s.h))) }

  /** The first primary screen, or the first screen when none is primary. */
  function PrimaryOf(own: Desk): (r: Option<Screen>)
    ensures r.Some? <==> own != []
    ensures r.Some? ==> r.value in own && (r.value.primary || forall s :: s in own ==> !s.primary)
  {
    var i := FirstPrimary(own);
    if i < |own| then Some(own[i]) else if own != [] then Some(own[0]) else None
  }

  function FirstPrimary(own: Desk): (i: nat)
    ensures i <= |own| && (i < |own| ==> own[i].primary)
    ensures forall j :: 0 <= j < i ==> !own[j].primary
  {
    if own == [] || own[0].primary then 0 else 1 + FirstPrimary(own[1..])
  }

  datatype Node = Node(
    sess: Session,
    own: Desk,
    byHand: Placements,
    relative: bool,
    desk: Option<Desk>,
    cap: Option<Capture>,
    injected: seq<Injection>)
  {
    function Inject(i: Injection): Node { this.(injected := injected + [i]) }

    function SetRelative(on: bool): Node {
      var changed := relative != on;
      this.(relative := on,
            cap := if changed && cap.Some? then Some(cap.value.SetRelativeMode(on)) else cap)
    }

    function SnapToPrimary(): Node {
      match PrimaryOf(own)
      case None => this
      case Some(p) =>
        var c := Center(p);
        this.(sess := sess.(cursor := sess.cursor.SetPosition(c.x, c.y))).Inject(Warp(c))
    }

    function ForceRelease(): Node {
      if !relative then this else SetRelative(false).SnapToPrimary()
    }

    function ReleaseIfActiveGone(l: Desk): Node {
      if sess.cursor.cur.None? then this
      else if exists s :: s in l && s.device == sess.cursor.cur.value.device then this
      else SnapToPrimary().SetRelative(false)
    }

    function Rebuild(env: Env): Node {
      var l := BuildDesk(own, sess.peers, byHand, env.scan);
      var n := this.(desk := Some(l)).ReleaseIfActiveGone(l);
      n.(sess := n.sess.SetLayout(l, env).s)
    }

    function OnRelativeMove(dx: i32, dy: i32, env: Env): Node {
      if dx == 0 && dy == 0 then this
      else
        var r := sess.LocalDeltaMove(dx, dy, env);
        var n := this.(sess := r.s);
        if !r.ok then n.ForceRelease()
        else if !r.s.cursor.OffDevice(sess.local) then
          n.SetRelative(false).Inject(Warp(Pos(r.s.cursor.vx, r.s.cursor.vy)))
        else n
    }

    function OnCoupledMove(x: i32, y: i32, dx: i32, dy: i32, env: Env): Node {
      match ScreenAt(own, x, y)
      case None => this
      case Some(s) =>
        var t := Target(s, x, y, dx, dy);
        var r := sess.LocalPointerMove(s, t.x, t.y, env);
        var n := this.(sess := r.s);
        if r.ok && r.s.cursor.OffDevice(sess.local) then
          var pin := Pin(s, x, y, dx, dy);
          n.(cap := if cap.Some? then Some(cap.value.PinCursor(pin)) else None).SetRelative(true)
        else n
    }

    function OnMove(x: i32, y: i32, dx: i32, dy: i32, env: Env): Node {
      if relative then OnRelativeMove(dx, dy, env) else OnCoupledMove(x, y, dx, dy, env)
    }

    function OnInput(ev: InputEvent, env: Env): Node {
      var r := sess.RouteLocalEvent(ev, env);
      var n := this.(sess := r.s);
      if r.ok then n else n.ForceRelease()
    }

    function SinkMove(x: i32, y: i32): Node {
      match ToGlobal(own, desk, x, y)
      case None => this
      case Some(p) => Inject(Warp(p))
    }

    function OnPeerMove(origin: Addr, x: i32, y: i32, env: Env): Node {
      var r := sess.PeerMove(origin, x, y, env);
      var n := this.(sess := r.s);
      if r.verdict.ApplyLocally? then n.SinkMove(x, y) else n
    }

    function OnPeerInput(origin: Addr, ev: InputEvent, env: Env): Node {
      var r := sess.PeerInput(origin, ev, env);
      var n := this.(sess := r.s);
      if r.verdict.ApplyLocally? then n.Inject(Typed(ev)) else n
    }

    /** The peers-changed callback fires only after the acknowledgement was written. */
    function OnHello(a: Addr, host: DeviceID, env: Env): Node {
      var r := sess.Hello(a, host, env.fail);
      var n := this.(sess := r.s);
      if r.ok then n.Rebuild(env) else n
    }

    function OnReport(a: Addr, screens: seq<Screen>, env: Env): Node {
      if a in sess.peers then this.(sess := sess.Report(a, screens)).Rebuild(env) else this
    }

    function OnGone(a: Addr, env: Env): Node { this.(sess := sess.Drop(a)).Rebuild(env) }

    function SetPlacement(id: ScreenID, p: Pos, env: Env): Node {
      this.(byHand := byHand[id := p]).Rebuild(env)
    }

    function ClearPlacement(id: ScreenID, env: Env): Node {
      this.(byHand := byHand - {id}).Rebuild(env)
    }
  }

  /** RunServer: the first rebuild happens before any peer can connect, then the cursor is seeded. */
  function Boot(local: DeviceID, own: Desk, cap: Option<Capture>, seed: Option<Pos>): Node {
    var n := Node(Session(local, Start([]), map[], map[]), own, map[], false, None, None, []).Rebuild(Env([], [], {}));
    var n1 := n.(cap := cap);
    if cap.Some? && seed.Some? then
      n1.(sess := n1.sess.(cursor := n1.sess.cursor.SetPosition(seed.value.x, seed.value.y)))
    else n1
  }

  lemma AppendShift(l: Desk, s: Screen, rest: Desk)
    ensures l + [s] + rest == l + ([s] + rest)
  {
  }

  class AdapterServer {
    const srv: Server
    const own: Desk
    var byHand: Placements
    var relative: bool
    var desk: Option<Desk>
    var cap: Option<Capture>
    var injected: seq<Injection>

    ghost function View(): Node
      reads this, srv, srv.router
    {
      Node(srv.View(), own, byHand, relative, desk, cap, injected)
    }

    constructor (local: DeviceID, own: Desk, cap: Option<Capture>, seed: Option<Pos>)
      ensures View() == Boot(local, own, cap, seed)
      ensures fresh(srv) && fresh(srv.router)
    {
      srv := new Server(local);
      this.own := own;
      byHand, relative, desk, this.cap, injected := map[], false, None, None, [];
      new;
      RebuildLayout(Env([], [], {}));
      this.cap := cap;
      if cap.Some? && seed.Some? {
        srv.router.SetPosition(seed.value.x, seed.value.y);
      }
    }

    method SetRelative(on: bool)
      modifies this`relative, this`cap
      ensures View() == old(View()).SetRelative(on)
    {
      var changed := relative != on;
      relative := on;
      if changed && cap.Some? {
        cap := Some(cap.value.SetRelativeMode(on));
      }
    }

    method PrimaryScreen() returns (r: Option<Screen>)
      ensures r == PrimaryOf(own)
    {
      r := None;
      var i := 0;
      while i < |own|
        invariant 0 <= i <= |own|
        invariant forall j :: 0 <= j < i ==> !own[j].primary
        invariant r == if i == 0 then None else Some(own[0])
      {
        if own[i].primary { return Some(own[i]); }
        if r.None? { r := Some(own[i]); }
        i := i + 1;
      }
    }

    /** Puts the shared and the physical cursor at the centre of the primary screen. */
    method SnapToPrimary()
      modifies this`injected, srv.router
      ensures View() == old(View()).SnapToPrimary()
    {
      var p := PrimaryScreen();
      if p.Some? {
        var c := Center(p.value);
        srv.router.SetPosition(c.x, c.y);
        injected := injected + [Warp(c)];
      }
    }

    method ForceRelease()
      modifies this`relative, this`cap, this`injected, srv.router
      ensures View() == old(View()).ForceRelease()
    {
      if !relative { return; }
      SetRelative(false);
      SnapToPrimary();
    }

    method ReleaseIfActiveGone(l: Desk)
      modifies this`relative, this`cap, this`injected, srv.router
      ensures View() == old(View()).ReleaseIfActiveGone(l)
    {
      var active := srv.router.cur;
      if active.None? { return; }
      var i := 0;
      while i < |l|
        invariant 0 <= i <= |l|
        invariant forall j :: 0 <= j < i ==> l[j].device != active.value.device
      {
        if l[i].device == active.value.device { return; }
        i := i + 1;
      }
      SnapToPrimary();
      SetRelative(false);
    }

    method RowStart() returns (right: i32, y: i32)
      ensures right == RightOf(own) && y == RowY(own)
    {
      right, y := 0, 0;
      var first := true;
      var i := 0;
      while i < |own|
        invariant 0 <= i <= |own|
        invariant first == (i == 0)
        invariant right == RightOf(own[..i]) && y == RowY(own[..i])
      {
        var s := own[i];
        assert own[..i + 1][..i] == own[..i];
        if first {
          y := s.y;
          first := false;
        }
        if s.primary { y := s.y; }
        if s.Right() > right { right := s.Right(); }
        i := i + 1;
      }
      assert own[..i] == own;
    }

    /** The inner loop: one peer's screens, continuing the row at right. */
    method PlacePeer(p: Peer, l0: Desk, right0: i32, y: i32, ghost later: seq<Screen>) returns (l: Desk, right: i32)
      ensures l + Place(later, byHand, right, y) == l0 + Place(Relabel(p.screens, p.host) + later, byHand, right0, y)
    {
      l, right := l0, right0;
      ghost var target := l0 + Place(Relabel(p.screens, p.host) + later, byHand, right0, y);
      var j := 0;
      assert p.screens[0..] == p.screens;
      while j < |p.screens|
        invariant 0 <= j <= |p.screens|
        invariant l + Place(Relabel(p.screens[j..], p.host) + later, byHand, right, y) == target
      {
        var placed := p.screens[j].(device := p.host);
        ghost var rest := Relabel(p.screens[j + 1..], p.host) + later;
        RelabelStep(p.screens, j, p.host, later);
        PlaceStep(placed, rest, byHand, right, y);
        if placed.id in byHand {
          placed := placed.(x := byHand[placed.id].x, y := byHand[placed.id].y);
        } else {
          placed := placed.(x := right, y := y);
          right := Add32(right, placed.w);
        }
        AppendShift(l, placed, Place(rest, byHand, right, y));
        l := l + [placed];
        j := j + 1;
      }
      assert Relabel(p.screens[j..], p.host) + later == later;
    }

    method Arrange(scan: seq<Addr>) returns (l: Desk)
      ensures l == BuildDesk(own, srv.peers, byHand, scan)
    {
      l := own;
      var right, y := RowStart();
      var i := 0;
      assert scan[0..] == scan;
      while i < |scan|
        invariant 0 <= i <= |scan|
        invariant l + Place(Reported(srv.peers, scan[i..]), byHand, right, y) == BuildDesk(own, srv.peers, byHand, scan)
      {
        assert scan[i..][1..] == scan[i + 1..];
        if scan[i] in srv.peers && srv.peers[scan[i]].ready {
          l, right := PlacePeer(srv.peers[scan[i]], l, right, y, Reported(srv.peers, scan[i + 1..]));
        }
        i := i + 1;
      }
    }

    method RebuildLayout(env: Env)
      modifies this`relative, this`cap, this`injected, this`desk, srv`wire, srv.router
      ensures View() == old(View()).Rebuild(env)
    {
      var l := Arrange(env.scan);
      desk := Some(l);
      ReleaseIfActiveGone(l);
      var ok := srv.SetLayout(l, env);
    }

    method OnRelativeMove(dx: i32, dy: i32, env: Env)
      modifies this`relative, this`cap, this`injected, srv`wire, srv.router
      ensures View() == old(View()).OnRelativeMove(dx, dy, env)
    {
      if dx == 0 && dy == 0 { return; }
      var ok := srv.OnLocalDeltaMove(dx, dy, env);
      if !ok {
        ForceRelease();
        return;
      }
      if srv.router.cur.None? || srv.router.cur.value.device == srv.local {
        SetRelative(false);
        injected := injected + [Warp(Pos(srv.router.vx, srv.router.vy))];
      }
    }

    /** The switch over the four edge bands, setting the target and the direction as it goes. */
    method ProjectPastEdge(s: Screen, x: i32, y: i32, dx: i32, dy: i32) returns (nx: i32, ny: i32, dir: Push)
      ensures dir == EdgePush(s, x, y, dx, dy) && Pos(nx, ny) == Target(s, x, y, dx, dy)
    {
      var right := Sub32(s.Right(), 1);
      var bottom := Sub32(s.Bottom(), 1);
      nx, ny, dir := x, y, Stay;
      if x >= Add32(Sub32(right, EDGE_BAND), 1) && dx > 0 {
        nx, dir := Add32(right, dx), PushRight;
      } else if x <= Sub32(Add32(s.x, EDGE_BAND), 1) && dx < 0 {
        nx, dir := Add32(s.x, dx), PushLeft;
      } else if y >= Add32(Sub32(bottom, EDGE_BAND), 1) && dy > 0 {
        ny, dir := Add32(bottom, dy), PushDown;
      } else if y <= Sub32(Add32(s.y, EDGE_BAND), 1) && dy < 0 {
        ny, dir := Add32(s.y, dy), PushUp;
      }
    }

    method OnCoupledMove(x: i32, y: i32, dx: i32, dy: i32, env: Env)
      modifies this`relative, this`cap, srv`wire, srv.router
      ensures View() == old(View()).OnCoupledMove(x, y, dx, dy, env)
    {
      var under := ScreenAt(own, x, y);
      if under.None? { return; }
      var s := under.value;
      var nx, ny, dir := ProjectPastEdge(s, x, y, dx, dy);
      var ok := srv.OnLocalPointerMove(s, nx, ny, env);
      if !ok { return; }
      if srv.router.cur.Some? && srv.router.cur.value.device != srv.local {
        var pin := Pin(s, x, y, dx, dy);
        if cap.Some? { cap := Some(cap.value.PinCursor(pin)); }
        SetRelative(true);
      }
    }

    method OnMove(x: i32, y: i32, dx: i32, dy: i32, env: Env)
      modifies this`relative, this`cap, this`injected, srv`wire, srv.router
      ensures View() == old(View()).OnMove(x, y, dx, dy, env)
    {
      if relative {
        OnRelativeMove(dx, dy, env);
      } else {
        OnCoupledMove(x, y, dx, dy, env);
      }
    }

    /** onButton, onScroll and onKey differ only in the event they forward. */
    method OnInput(ev: InputEvent, env: Env)
      modifies this`relative, this`cap, this`injected, srv`wire, srv.router
      ensures View() == old(View()).OnInput(ev, env)
    {
      var ok := srv.RouteLocalEvent(ev, env);
      if !ok { ForceRelease(); }
    }

    method OnPeerMove(origin: Addr, x: i32, y: i32, env: Env)
      modifies this`injected, srv`wire, srv.router
      ensures View() == old(View()).OnPeerMove(origin, x, y, env)
    {
      var v := srv.RoutePeerMove(origin, x, y, env);
      if v.ApplyLocally? {
        var g := ToGlobal(own, desk, x, y);
        if g.Some? { injected := injected + [Warp(g.value)]; }
      }
    }

    method OnPeerInput(origin: Addr, ev: InputEvent, env: Env)
      modifies this`injected, srv`wire
      ensures View() == old(View()).OnPeerInput(origin, ev, env)
    {
      var v := srv.RouteFromPeer(origin, ev, env);
      if v.ApplyLocally? { injected := injected + [Typed(ev)]; }
    }

    method OnHello(a: Addr, host: DeviceID, env: Env)
      modifies this, srv, srv.router
      ensures View() == old(View()).OnHello(a, host, env)
    {
      var ok := srv.HandleHello(a, host, env.fail);
      if ok { RebuildLayout(env); }
    }

    method OnReport(a: Addr, screens: seq<Screen>, env: Env)
      modifies this, srv, srv.router
      ensures View() == old(View()).OnReport(a, screens, env)
    {
      var known := srv.HandleLayout(a, screens);
      if known { RebuildLayout(env); }
    }

    method OnGone(a: Addr, env: Env)
      modifies this, srv, srv.router
      ensures View() == old(View()).OnGone(a, env)
    {
      srv.HandleDisconnect(a);
      RebuildLayout(env);
    }

    method SetPlacement(id: ScreenID, x: i32, y: i32, env: Env)
      modifies this, srv, srv.router
      ensures View() == old(View()).SetPlacement(id, Pos(x, y), env)
    {
      byHand := byHand[id := Pos(x, y)];
      RebuildLayout(env);
    }

    method ClearPlacement(id: ScreenID, env: Env)
      modifies this, srv, srv.router
      ensures View() == old(View()).ClearPlacement(id, env)
    {
      byHand := byHand - {id};
      RebuildLayout(env);
    }
  }
}
