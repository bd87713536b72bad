/**
 core/session/server.go: the hub that owns the router, registers peers and
 writes to their connections. Each handler is one atomic step. A connection is
 an append-only log of the envelopes written to it; which writes fail, and the
 order in which Go enumerates the peer map, are inputs of every step.
 */
module Sessions {
  import opened Common
  import opened Layout
  import opened Routing

  /** One connection, identified by its remote address. */
  type Addr = string

  datatype InputEvent =
    | Button(button: byte, down: bool)
    | Scroll(dx: i32, dy: i32)
    | Key(code: i32, down: bool)

  /**
   Who produced a move and the arrangement the server held when it sent it; an
   input event carries the screen the cursor was on. These are annotations for
   the statements; no code reads them.
   */
  datatype Origin = ByServer(under: Desk) | Relayed(under: Desk)

  datatype Msg =
    | HelloAck
    | DeskMsg(desk: Desk)
    | MoveMsg(x: i32, y: i32, origin: Origin)
    | InputMsg(ev: InputEvent, on: Screen)

  datatype Peer = Peer(host: DeviceID, ready: bool, screens: seq<Screen>)

  /** Map-iteration order while placing screens, while writing, and the connections whose writes fail. */
  datatype Env = Env(scan: seq<Addr>, push: seq<Addr>, fail: set<Addr>)

  type Wire = map<Addr, seq<Msg>>

  function Log(w: Wire, a: Addr): seq<Msg> { if a in w then w[a] else [] }

  function Append(w: Wire, a: Addr, m: Msg): Wire { w[a := Log(w, a) + [m]] }

  /** The first ready peer with this hostname in enumeration order. */
  function PeerFor(peers: map<Addr, Peer>, order: seq<Addr>, d: DeviceID): (r: Option<Addr>)
    ensures r.Some? ==> r.value in peers && peers[r.value].ready && peers[r.value].host == d
  {
    if order == [] then None
    else if order[0] in peers && peers[order[0]].host == d && peers[order[0]].ready then Some(order[0])
    else PeerFor(peers, order[1..], d)
  }

  datatype Pushed = Pushed(wire: Wire, ok: bool)

  /** Writes l to every ready peer in turn and stops at the first failed write. */
  function PushDesk(peers: map<Addr, Peer>, wire: Wire, order: seq<Addr>, l: Desk, fail: set<Addr>): Pushed
    decreases |order|
  {
    if order == [] then Pushed(wire, true)
    else
      var a := order[0];
      if a in peers && peers[a].ready then
        if a in fail then Pushed(wire, false)
        else PushDesk(peers, Append(wire, a, DeskMsg(l)), order[1..], l, fail)
      else PushDesk(peers, wire, order[1..], l, fail)
  }

  datatype Res = Res(s: Session, ok: bool)

  /** What routePeerMove and routeFromPeer leave to do: nothing, apply locally, or report a failed write. */
  datatype Verdict = Handled | ApplyLocally | WriteFailed

  datatype Routed = Routed(s: Session, verdict: Verdict)

  datatype Session = Session(local: DeviceID, cursor: Cursor, peers: map<Addr, Peer>, wire: Wire) {

    function Send(a: Addr, m: Msg, fail: set<Addr>): Res {
      if a in fail then Res(this, false) else Res(this.(wire := Append(wire, a, m)), true)
    }

    /** Sends m to the peer that owns the cursor, if the cursor is on a peer. */
    function Forward(m: Msg, env: Env): Res {
      if !cursor.OffDevice(local) then Res(this, true)
      else
        match PeerFor(peers, env.push, cursor.cur.value.device)
        case None => Res(this, true)
        case Some(a) => Send(a, m, env.fail)
    }

    function SetLayout(l: Desk, env: Env): Res {
      var p := PushDesk(peers, wire, env.push, l, env.fail);
      Res(this.(cursor := cursor.SetLayout(l), wire := p.wire), p.ok)
    }

    function ForwardMove(env: Env): Res {
      Forward(MoveMsg(cursor.vx, cursor.vy, ByServer(cursor.desk)), env)
    }

    function LocalPointerMove(s: Screen, x: i32, y: i32, env: Env): Res {
      this.(cursor := cursor.OnLocalMove(s, x, y)).ForwardMove(env)
    }

    function LocalDeltaMove(dx: i32, dy: i32, env: Env): Res {
      this.(cursor := cursor.MoveByDelta(dx, dy)).ForwardMove(env)
    }

    function RouteLocalEvent(ev: InputEvent, env: Env): Res {
      if cursor.OffDevice(local) then Forward(InputMsg(ev, cursor.cur.value), env) else Res(this, true)
    }

    /** Relays m from one peer to the device under the cursor, never back to its sender. */
    function Relay(origin: Addr, m: Msg, env: Env): Routed {
      if cursor.cur.None? then Routed(this, Handled)
      else if cursor.cur.value.device == local then Routed(this, ApplyLocally)
      else
        match PeerFor(peers, env.push, cursor.cur.value.device)
        case None => Routed(this, Handled)
        case Some(a) =>
          if a == origin then Routed(this, Handled)
          else var r := Send(a, m, env.fail); Routed(r.s, if r.ok then Handled else WriteFailed)
    }

    function PeerMove(origin: Addr, x: i32, y: i32, env: Env): Routed {
      var s := this.(cursor := cursor.MoveTo(x, y));
      s.Relay(origin, MoveMsg(x, y, Relayed(cursor.desk)), env)
    }

    function PeerInput(origin: Addr, ev: InputEvent, env: Env): Routed {
      if cursor.cur.None? then Routed(this, Handled) else Relay(origin, InputMsg(ev, cursor.cur.value), env)
    }

    function Hello(a: Addr, host: DeviceID, fail: set<Addr>): Res {
      this.(peers := peers[a := Peer(host, true, [])]).Send(a, HelloAck, fail)
    }

    function Report(a: Addr, screens: seq<Screen>): Session {
      if a in peers then this.(peers := peers[a := peers[a].(screens := screens)]) else this
    }

    function Drop(a: Addr): Session { this.(peers := peers - {a}) }
  }

  class Server {
    const local: DeviceID
    const router: Router
    var peers: map<Addr, Peer>
    var wire: Wire

    ghost function View(): Session
      reads this, router
    {
      Session(local, router.State(), peers, wire)
    }

    constructor (local: DeviceID)
      ensures fresh(router) && this.local == local && router.local == local
      ensures View() == Session(local, Start([]), map[], map[])
    {
      this.local := local;
      router := new Router([], local);
      peers, wire := map[], map[];
    }

    method WriteEnvelope(a: Addr, m: Msg, fail: set<Addr>) returns (ok: bool)
      modifies this`wire
      ensures Res(View(), ok) == old(View()).Send(a, m, fail)
    {
      ok := a !in fail;
      if ok {
        wire := wire[a := (if a in wire then wire[a] else []) + [m]];
      }
    }

    method PeerForDevice(d: DeviceID, order: seq<Addr>) returns (r: Option<Addr>)
      ensures r == PeerFor(peers, order, d)
    {
      var i := 0;
      while i < |order|
        invariant 0 <= i <= |order|
        invariant PeerFor(peers, order, d) == PeerFor(peers, order[i..], d)
      {
        if order[i] in peers && peers[order[i]].host == d && peers[order[i]].ready {
          return Some(order[i]);
        }
        i := i + 1;
      }
      return None;
    }

    method SetLayout(l: Desk, env: Env) returns (ok: bool)
      modifies this`wire, router
      ensures Res(View(), ok) == old(View()).SetLayout(l, env)
    {
      router.SetLayout(l);
      var i := 0;
      while i < |env.push|
        invariant 0 <= i <= |env.push|
        invariant PushDesk(peers, old(wire), env.push, l, env.fail) == PushDesk(peers, wire, env.push[i..], l, env.fail)
        modifies this`wire
      {
        var a := env.push[i];
        if a in peers && peers[a].ready {
          var sent := WriteEnvelope(a, DeskMsg(l), env.fail);
          if !sent { return false; }
        }
        i := i + 1;
      }
      return true;
    }

    /** The tail shared by the two local move handlers. */
    method ForwardMove(cur: Option<Screen>, env: Env) returns (ok: bool)
      requires cur == router.cur
      modifies this`wire
      ensures Res(View(), ok) == old(View()).ForwardMove(env)
    {
      if cur.None? || cur.value.device == local { return true; }
      var p := PeerForDevice(cur.value.device, env.push);
      if p.None? { return true; }
      ok := WriteEnvelope(p.value, MoveMsg(router.vx, router.vy, ByServer(router.layout)), env.fail);
    }

    method OnLocalPointerMove(screen: Screen, x: i32, y: i32, env: Env) returns (ok: bool)
      modifies this`wire, router
      ensures Res(View(), ok) == old(View()).LocalPointerMove(screen, x, y, env)
    {
      var cur := router.OnLocalMove(screen, x, y);
      ok := ForwardMove(cur, env);
    }

    method OnLocalDeltaMove(dx: i32, dy: i32, env: Env) returns (ok: bool)
      modifies this`wire, router
      ensures Res(View(), ok) == old(View()).LocalDeltaMove(dx, dy, env)
    {
      var cur := router.MoveByDelta(dx, dy);
      ok := ForwardMove(cur, env);
    }

    method RouteLocalEvent(ev: InputEvent, env: Env) returns (ok: bool)
      modifies this`wire
      ensures Res(View(), ok) == old(View()).RouteLocalEvent(ev, env)
    {
      var target := router.cur;
      if target.None? || target.value.device == local { return true; }
      var p := PeerForDevice(target.value.device, env.push);
      if p.None? { return true; }
      ok := WriteEnvelope(p.value, InputMsg(ev, target.value), env.fail);
    }

    method RoutePeerMove(origin: Addr, x: i32, y: i32, env: Env) returns (v: Verdict)
      modifies this`wire, router
      ensures Routed(View(), v) == old(View()).PeerMove(origin, x, y, env)
    {
      var cur := router.MoveTo(x, y);
      if cur.None? { return Handled; }
      if cur.value.device == local { return ApplyLocally; }
      var p := PeerForDevice(cur.value.device, env.push);
      if p.None? || p.value == origin { return Handled; }
      var ok := WriteEnvelope(p.value, MoveMsg(x, y, Relayed(router.layout)), env.fail);
      return if ok then Handled else WriteFailed;
    }

    method RouteFromPeer(origin: Addr, ev: InputEvent, env: Env) returns (v: Verdict)
      modifies this`wire
      ensures Routed(View(), v) == old(View()).PeerInput(origin, ev, env)
    {
      var target := router.cur;
      if target.None? { return Handled; }
      if target.value.device == local { return ApplyLocally; }
      var p := PeerForDevice(target.value.device, env.push);
      if p.None? || p.value == origin { return Handled; }
      var ok := WriteEnvelope(p.value, InputMsg(ev, target.value), env.fail);
      return if ok then Handled else WriteFailed;
    }

    method HandleHello(a: Addr, host: DeviceID, fail: set<Addr>) returns (ok: bool)
      modifies this
      ensures Res(View(), ok) == old(View()).Hello(a, host, fail)
    {
      peers := peers[a := Peer(host, true, [])];
      ok := WriteEnvelope(a, HelloAck, fail);
    }

    method HandleLayout(a: Addr, screens: seq<Screen>) returns (known: bool)
      modifies this`peers
      ensures View() == old(View()).Report(a, screens) && known == (a in old(peers))
    {
      if a !in peers { return false; }
      peers := peers[a := peers[a].(screens := screens)];
      return true;
    }

    method HandleDisconnect(a: Addr)
      modifies this`peers
      ensures View() == old(View()).Drop(a)
    {
      peers := peers - {a};
    }
  }
}
