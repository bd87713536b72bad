/**
 Buttons, scrolls and keys end to end: what is pressed while the shared cursor
 is on a device, and what that device is made to type.
 */
module Keystrokes {
  import opened Common
  import opened Layout
  import opened Routing
  import opened Sessions
  import opened Coordinates
  import opened Placement
  import opened Adapter
  import opened Fleets
  import opened Clients
  import opened Suppression
  import opened Crossings

  /** The input events among what was injected on a machine, in order. */
  function TypedIn(injected: seq<Injection>): seq<InputEvent> {
    if injected == [] then []
    else
      var i := injected[|injected| - 1];
      var before := TypedIn(injected[..|injected| - 1]);
      if i.Typed? then before + [i.ev] else before
  }

  /** The input events in a device's log, in order. */
  function InputsIn(log: seq<Msg>): seq<InputEvent> {
    if log == [] then []
    else
      var m := log[|log| - 1];
      var before := InputsIn(log[..|log| - 1]);
      if m.InputMsg? then before + [m.ev] else before
  }

  lemma TypedOne(injected: seq<Injection>, i: Injection)
    ensures TypedIn(injected + [i]) == if i.Typed? then TypedIn(injected) + [i.ev] else TypedIn(injected)
  {
    assert (injected + [i])[..|injected|] == injected;
  }

  lemma InputsOne(log: seq<Msg>, m: Msg)
    ensures InputsIn(log + [m]) == if m.InputMsg? then InputsIn(log) + [m.ev] else InputsIn(log)
  {
    assert (log + [m])[..|log|] == log;
  }

  /** A device types exactly the input events of its log, whatever else is in it. */
  lemma {:induction false} DeviceTypes(own: Desk, log: seq<Msg>)
    ensures TypedIn(Receiver(own, None, None, []).DispatchAll(log).injected) == InputsIn(log)
  {
    if log != [] {
      var front, m := log[..|log| - 1], log[|log| - 1];
      DeviceTypes(own, front);
      var before := Receiver(own, None, None, []).DispatchAll(front);
      match m
      case MoveMsg(x, y, _) =>
        if ToGlobal(own, before.desk, x, y).Some? {
          TypedOne(before.injected, Warp(ToGlobal(own, before.desk, x, y).value));
        }
      case InputMsg(ev, _) => TypedOne(before.injected, Typed(ev));
      case _ =>
    }
  }

  /** The shared cursor is on a screen of the device behind a. */
  predicate CursorOn(n: Node, a: Addr) {
    n.sess.cursor.OffDevice(n.sess.local) && a in n.sess.peers && n.sess.peers[a].host == n.sess.cursor.cur.value.device
  }

  /** The input events a step has for the device behind a, if its connection takes the write. */
  function MeantFor(n: Node, e: Event, a: Addr): seq<InputEvent> {
    match e.act
    case Press(ev) => if CursorOn(n, a) && a !in e.env.fail then [ev] else []
    case PressFrom(b, ev) => if CursorOn(n, a) && b != a && a !in e.env.fail then [ev] else []
    case _ => []
  }

  /** And for the server itself: its own are handled by its own system. */
  function MeantHere(n: Node, e: Event): seq<InputEvent> {
    match e.act
    case PressFrom(_, ev) => if n.sess.cursor.On(n.sess.local) then [ev] else []
    case _ => []
  }

  function AllMeantFor(f: Fleet, n: Node, es: seq<Event>, a: Addr): seq<InputEvent>
    decreases |es|
  {
    if es == [] then [] else MeantFor(n, es[0], a) + AllMeantFor(f, Step(f, n, es[0]), es[1..], a)
  }

  function AllMeantHere(f: Fleet, n: Node, es: seq<Event>): seq<InputEvent>
    decreases |es|
  {
    if es == [] then [] else MeantHere(n, es[0]) + AllMeantHere(f, Step(f, n, es[0]), es[1..])
  }

  /** From w to w' the device behind a gets these input events, however it is told other things. */
  predicate Gets(w: Wire, w': Wire, a: Addr, evs: seq<InputEvent>) {
    InputsIn(Log(w', a)) == InputsIn(Log(w, a)) + evs
  }

  predicate GetsNone(w: Wire, w': Wire, a: Addr) { InputsIn(Log(w', a)) == InputsIn(Log(w, a)) }

  lemma AppendGets(w: Wire, b: Addr, m: Msg, a: Addr)
    ensures if a == b && m.InputMsg? then Gets(w, Append(w, b, m), a, [m.ev]) else GetsNone(w, Append(w, b, m), a)
  {
    InputsOne(Log(w, b), m);
  }

  lemma {:induction false} PushGetsNothing(peers: map<Addr, Peer>, w: Wire, order: seq<Addr>, l: Desk,
                                           fail: set<Addr>, a: Addr)
    ensures GetsNone(w, PushDesk(peers, w, order, l, fail).wire, a)
    decreases |order|
  {
    if order != [] {
      AppendGets(w, order[0], DeskMsg(l), a);
      PushGetsNothing(peers, w, order[1..], l, fail, a);
      PushGetsNothing(peers, Append(w, order[0], DeskMsg(l)), order[1..], l, fail, a);
    }
  }

  lemma RebuildGetsNothing(n: Node, env: Env, a: Addr)
    ensures GetsNone(n.sess.wire, n.Rebuild(env).sess.wire, a) &&
            TypedIn(n.Rebuild(env).injected) == TypedIn(n.injected)
  {
    var l := BuildDesk(n.own, n.sess.peers, n.byHand, env.scan);
    ReleaseFrame(n.(desk := Some(l)), l);
    ReleaseTypesNothing(n.(desk := Some(l)), l);
    PushGetsNothing(n.sess.peers, n.sess.wire, env.push, l, env.fail, a);
  }

  lemma ReleaseTypesNothing(n: Node, l: Desk)
    ensures TypedIn(n.ReleaseIfActiveGone(l).injected) == TypedIn(n.injected)
    ensures TypedIn(n.ForceRelease().injected) == TypedIn(n.injected)
  {
    if PrimaryOf(n.own).Some? { TypedOne(n.injected, Warp(Center(PrimaryOf(n.own).value))); }
  }

  /** A forward writes to one connection, or to none. */
  lemma ForwardWire(s: Session, m: Msg, env: Env)
    ensures var found := if s.cursor.OffDevice(s.local) then PeerFor(s.peers, env.push, s.cursor.cur.value.device)
            else None;
            s.Forward(m, env).s.wire ==
            if found.Some? && found.value !in env.fail then Append(s.wire, found.value, m) else s.wire
  {
  }

  /** So does a relay, and not to the sender. */
  lemma RelayWire(s: Session, origin: Addr, m: Msg, env: Env)
    ensures var found := if s.cursor.OffDevice(s.local) then PeerFor(s.peers, env.push, s.cursor.cur.value.device)
            else None;
            s.Relay(origin, m, env).s.wire ==
            if found.Some? && found.value !in env.fail && found.value != origin then Append(s.wire, found.value, m)
            else s.wire
  {
  }

  lemma ForwardGets(s: Session, m: Msg, env: Env, a: Addr)
    requires !m.InputMsg?
    ensures GetsNone(s.wire, s.Forward(m, env).s.wire, a)
  {
    ForwardWire(s, m, env);
    forall b ensures GetsNone(s.wire, Append(s.wire, b, m), a) { AppendGets(s.wire, b, m, a); }
  }

  lemma RelayGets(s: Session, origin: Addr, m: Msg, env: Env, a: Addr)
    requires !m.InputMsg?
    ensures GetsNone(s.wire, s.Relay(origin, m, env).s.wire, a)
  {
    RelayWire(s, origin, m, env);
    forall b ensures GetsNone(s.wire, Append(s.wire, b, m), a) { AppendGets(s.wire, b, m, a); }
  }

  lemma MouseGetsNothing(n: Node, x: i32, y: i32, dx: i32, dy: i32, env: Env, a: Addr)
    ensures var r := n.OnMove(x, y, dx, dy, env);
            GetsNone(n.sess.wire, r.sess.wire, a) && TypedIn(r.injected) == TypedIn(n.injected)
  {
    if n.relative {
      RelativeGetsNothing(n, dx, dy, env, a);
    } else if ScreenAt(n.own, x, y).Some? {
      var s := ScreenAt(n.own, x, y).value;
      var t := Target(s, x, y, dx, dy);
      var s1 := n.sess.(cursor := n.sess.cursor.OnLocalMove(s, t.x, t.y));
      ForwardGets(s1, MoveMsg(s1.cursor.vx, s1.cursor.vy, ByServer(s1.cursor.desk)), env, a);
    }
  }

  lemma RelativeGetsNothing(n: Node, dx: i32, dy: i32, env: Env, a: Addr)
    ensures var r := n.OnRelativeMove(dx, dy, env);
            GetsNone(n.sess.wire, r.sess.wire, a) && TypedIn(r.injected) == TypedIn(n.injected)
  {
    var s1 := n.sess.(cursor := n.sess.cursor.MoveByDelta(dx, dy));
    ForwardGets(s1, MoveMsg(s1.cursor.vx, s1.cursor.vy, ByServer(s1.cursor.desk)), env, a);
    var n1 := n.(sess := n.sess.LocalDeltaMove(dx, dy, env).s);
    ReleaseFrame(n1, []);
    ReleaseTypesNothing(n1, []);
    TypedOne(n.injected, Warp(Pos(n1.sess.cursor.vx, n1.sess.cursor.vy)));
  }

  /** In a node where every peer is ready and every enumeration is complete, the connection found is the device's. */
  ghost predicate Served(n: Node, env: Env) {
    && UniqueHosts(n.sess.peers) && Enumerates(env.push, n.sess.peers.Keys)
    && forall a :: a in n.sess.peers ==> n.sess.peers[a].ready
  }

  lemma FoundIff(n: Node, env: Env, a: Addr)
    requires Served(n, env) && n.sess.cursor.OffDevice(n.sess.local)
    ensures PeerFor(n.sess.peers, env.push, n.sess.cursor.cur.value.device) == Some(a) <==> CursorOn(n, a)
  {
    if CursorOn(n, a) { TheConnection(n.sess.peers, env.push, a); }
  }

  lemma PressGets(n: Node, ev: InputEvent, env: Env, a: Addr)
    requires Served(n, env)
    ensures var r := n.OnInput(ev, env);
            && Gets(n.sess.wire, r.sess.wire, a, MeantFor(n, Event(Press(ev), env), a))
            && TypedIn(r.injected) == TypedIn(n.injected)
  {
    var n1 := n.(sess := n.sess.RouteLocalEvent(ev, env).s);
    ReleaseFrame(n1, []);
    ReleaseTypesNothing(n1, []);
    if n.sess.cursor.OffDevice(n.sess.local) {
      FoundIff(n, env, a);
      var d := n.sess.cursor.cur.value;
      if PeerFor(n.sess.peers, env.push, d.device).Some? {
        AppendGets(n.sess.wire, PeerFor(n.sess.peers, env.push, d.device).value, InputMsg(ev, d), a);
      }
    }
  }

  lemma PeerInputWire(n: Node, b: Addr, ev: InputEvent, env: Env)
    ensures n.OnPeerInput(b, ev, env).sess.wire ==
            if n.sess.cursor.cur.None? then n.sess.wire
            else n.sess.Relay(b, InputMsg(ev, n.sess.cursor.cur.value), env).s.wire
  {
  }

  lemma GetsNothing(w: Wire, a: Addr)
    ensures Gets(w, w, a, [])
  {
  }

  lemma RelayedInput(s: Session, b: Addr, m: Msg, env: Env, a: Addr)
    requires m.InputMsg? && s.cursor.OffDevice(s.local)
    ensures var mine := PeerFor(s.peers, env.push, s.cursor.cur.value.device) == Some(a) && a != b && a !in env.fail;
            Gets(s.wire, s.Relay(b, m, env).s.wire, a, if mine then [m.ev] else [])
  {
    RelayWire(s, b, m, env);
    GetsNothing(s.wire, a);
    var found := PeerFor(s.peers, env.push, s.cursor.cur.value.device);
    if found.Some? { AppendGets(s.wire, found.value, m, a); }
  }

  lemma PeerPressGets(n: Node, b: Addr, ev: InputEvent, env: Env, a: Addr)
    requires Served(n, env)
    ensures Gets(n.sess.wire, n.OnPeerInput(b, ev, env).sess.wire, a, MeantFor(n, Event(PressFrom(b, ev), env), a))
  {
    PeerInputWire(n, b, ev, env);
    if n.sess.cursor.OffDevice(n.sess.local) {
      RelayedInput(n.sess, b, InputMsg(ev, n.sess.cursor.cur.value), env, a);
      FoundIff(n, env, a);
    } else {
      GetsNothing(n.sess.wire, a);
    }
  }

  lemma PeerPressTypes(n: Node, b: Addr, ev: InputEvent, env: Env)
    ensures TypedIn(n.OnPeerInput(b, ev, env).injected) ==
            TypedIn(n.injected) + MeantHere(n, Event(PressFrom(b, ev), env))
  {
    TypedOne(n.injected, Typed(ev));
  }

  lemma PeerMoveGets(n: Node, b: Addr, x: i32, y: i32, env: Env, a: Addr)
    ensures var r := n.OnPeerMove(b, x, y, env);
            GetsNone(n.sess.wire, r.sess.wire, a) && TypedIn(r.injected) == TypedIn(n.injected)
  {
    var s1 := n.sess.(cursor := n.sess.cursor.MoveTo(x, y));
    RelayGets(s1, b, MoveMsg(x, y, Relayed(n.sess.cursor.desk)), env, a);
    if ToGlobal(n.own, n.desk, x, y).Some? { TypedOne(n.injected, Warp(ToGlobal(n.own, n.desk, x, y).value)); }
  }

  lemma HelloGets(n: Node, b: Addr, host: DeviceID, env: Env, a: Addr)
    ensures var r := n.OnHello(b, host, env);
            GetsNone(n.sess.wire, r.sess.wire, a) && TypedIn(r.injected) == TypedIn(n.injected)
  {
    AppendGets(n.sess.wire, b, HelloAck, a);
    RebuildGetsNothing(n.(sess := n.sess.Hello(b, host, env.fail).s), env, a);
  }

  /** The step has no input event for anyone. */
  ghost predicate Silent(n: Node, r: Node, a: Addr) {
    GetsNone(n.sess.wire, r.sess.wire, a) && TypedIn(r.injected) == TypedIn(n.injected)
  }

  lemma HelloStepGets(f: Fleet, n: Node, e: Event, a: Addr)
    requires e.act.HelloFrom?
    ensures Silent(n, Step(f, n, e), a)
  {
    if e.act.a in f { HelloGets(n, e.act.a, f[e.act.a].host, e.env, a); }
  }

  lemma ReportStepGets(f: Fleet, n: Node, e: Event, a: Addr)
    requires e.act.ReportFrom?
    ensures Silent(n, Step(f, n, e), a)
  {
    var b := e.act.a;
    if b in f && b in n.sess.peers { RebuildGetsNothing(n.(sess := n.sess.Report(b, f[b].own)), e.env, a); }
  }

  lemma GoneStepGets(f: Fleet, n: Node, e: Event, a: Addr)
    requires e.act.Gone?
    ensures Silent(n, Step(f, n, e), a)
  {
    RebuildGetsNothing(n.(sess := n.sess.Drop(e.act.a)), e.env, a);
  }

  lemma PlacedGets(n: Node, byHand: Placements, env: Env, r: Node, a: Addr)
    requires r == n.(byHand := byHand).Rebuild(env)
    ensures Silent(n, r, a)
  {
    RebuildGetsNothing(n.(byHand := byHand), env, a);
  }

  lemma OtherStepGets(f: Fleet, n: Node, e: Event, a: Addr)
    requires !e.act.Press? && !e.act.PressFrom?
    ensures Silent(n, Step(f, n, e), a)
  {
    match e.act
    case Mouse(x, y, dx, dy) => MouseGetsNothing(n, x, y, dx, dy, e.env, a);
    case MoveFrom(b, x, y) => PeerMoveGets(n, b, x, y, e.env, a);
    case HelloFrom(_) => HelloStepGets(f, n, e, a);
    case ReportFrom(_) => ReportStepGets(f, n, e, a);
    case Gone(_) => GoneStepGets(f, n, e, a);
    case PlaceAt(id, p) => PlacedGets(n, n.byHand[id := p], e.env, Step(f, n, e), a);
    case Unplace(id) => PlacedGets(n, n.byHand - {id}, e.env, Step(f, n, e), a);
  }

  /** From n to r the device behind a gets evs, and the server types here. */
  ghost predicate Delivered(n: Node, r: Node, a: Addr, evs: seq<InputEvent>, here: seq<InputEvent>) {
    Gets(n.sess.wire, r.sess.wire, a, evs) && TypedIn(r.injected) == TypedIn(n.injected) + here
  }

  lemma StepGets(f: Fleet, n: Node, e: Event, a: Addr)
    requires Inv(f, n) && Legal(f, n, e)
    ensures Delivered(n, Step(f, n, e), a, MeantFor(n, e, a), MeantHere(n, e))
  {
    match e.act
    case Press(ev) => PressGets(n, ev, e.env, a);
    case PressFrom(b, ev) =>
      PeerPressGets(n, b, ev, e.env, a);
      PeerPressTypes(n, b, ev, e.env);
    case _ => OtherStepGets(f, n, e, a);
  }

  lemma Together(a: seq<InputEvent>, b: seq<InputEvent>, c: seq<InputEvent>)
    ensures (a + b) + c == a + (b + c)
  {
  }

  lemma DeliveredThen(n: Node, n1: Node, n2: Node, a: Addr, p: seq<InputEvent>, q: seq<InputEvent>,
                      x: seq<InputEvent>, y: seq<InputEvent>)
    requires Delivered(n, n1, a, p, x) && Delivered(n1, n2, a, q, y)
    ensures Delivered(n, n2, a, p + q, x + y)
  {
    Together(InputsIn(Log(n.sess.wire, a)), p, q);
    Together(TypedIn(n.injected), x, y);
  }

  lemma {:induction false} RunGets(f: Fleet, n: Node, es: seq<Event>, a: Addr)
    requires Inv(f, n) && LegalRun(f, n, es)
    ensures Delivered(n, Run(f, n, es), a, AllMeantFor(f, n, es, a), AllMeantHere(f, n, es))
    decreases |es|
  {
    if es != [] {
      var n1 := Step(f, n, es[0]);
      StepGets(f, n, es[0], a);
      StepKeepsInv(f, n, es[0]);
      RunGets(f, n1, es[1..], a);
      DeliveredThen(n, n1, Run(f, n1, es[1..]), a, MeantFor(n, es[0], a), AllMeantFor(f, n1, es[1..], a),
                    MeantHere(n, es[0]), AllMeantHere(f, n1, es[1..]));
    }
  }

  /**
   End to end, over every legal run from start-up: when the device behind a has
   consumed its log, it has typed exactly the events that were pressed - on the
   server or on another client - while the shared cursor was on one of its
   screens and its connection took writes, in order. And the server has typed
   exactly what clients pressed while the cursor was on the server.
   */
  lemma TypedAsMeant(f: Fleet, local: DeviceID, own: Desk, cap: Option<Capture>, seed: Option<Pos>,
                     es: seq<Event>, a: Addr)
    requires forall s :: s in own ==> s.device == local
    requires a in f && LegalRun(f, Boot(local, own, cap, seed), es)
    ensures var n0 := Boot(local, own, cap, seed); var n := Run(f, n0, es);
            && TypedIn(Receiver(f[a].own, None, None, []).DispatchAll(Log(n.sess.wire, a)).injected) ==
               AllMeantFor(f, n0, es, a)
            && TypedIn(n.injected) == AllMeantHere(f, n0, es)
  {
    var n0 := Boot(local, own, cap, seed);
    BootInv(f, local, own, cap, seed);
    BootIsSilent(local, own, cap, seed, a);
    RunGets(f, n0, es, a);
    DeviceTypes(f[a].own, Log(Run(f, n0, es).sess.wire, a));
  }

  lemma BootIsSilent(local: DeviceID, own: Desk, cap: Option<Capture>, seed: Option<Pos>, a: Addr)
    ensures var n := Boot(local, own, cap, seed); InputsIn(Log(n.sess.wire, a)) == [] && TypedIn(n.injected) == []
  {
    var n := Node(Session(local, Start([]), map[], map[]), own, map[], false, None, None, []);
    RebuildGetsNothing(n, Env([], [], {}), a);
  }
}
