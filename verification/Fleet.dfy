/**
 The whole shared-cursor system: one server node and a fleet of devices, each
 behind its own FIFO connection. A run is any sequence of atomic steps of the
 server; a device consumes its connection's log from the front.
 */
module Fleets {
  import opened Common
  import opened Layout
  import opened Routing
  import opened Sessions
  import opened Coordinates
  import opened Placement
  import opened Adapter

  datatype Device = Device(host: DeviceID, own: Desk)

  /** The device behind each connection; it says hello with its hostname and reports its own screens. */
  type Fleet = map<Addr, Device>

  datatype Action =
    | Mouse(x: i32, y: i32, dx: i32, dy: i32)
    | Press(ev: InputEvent)
    | HelloFrom(a: Addr)
    | ReportFrom(a: Addr)
    | MoveFrom(a: Addr, x: i32, y: i32)
    | PressFrom(a: Addr, ev: InputEvent)
    | Gone(a: Addr)
    | PlaceAt(id: ScreenID, p: Pos)
    | Unplace(id: ScreenID)
  {
    predicate Rebuilds() { HelloFrom? || ReportFrom? || Gone? || PlaceAt? || Unplace? }

    predicate LocalInput() { Mouse? || Press? }
  }

  datatype Event = Event(act: Action, env: Env)

  function Step(f: Fleet, n: Node, e: Event): Node {
    match e.act
    case Mouse(x, y, dx, dy) => n.OnMove(x, y, dx, dy, e.env)
    case Press(ev) => n.OnInput(ev, e.env)
    case HelloFrom(a) => if a in f then n.OnHello(a, f[a].host, e.env) else n
    case ReportFrom(a) => if a in f then n.OnReport(a, f[a].own, e.env) else n
    case MoveFrom(a, x, y) => n.OnPeerMove(a, x, y, e.env)
    case PressFrom(a, ev) => n.OnPeerInput(a, ev, e.env)
    case Gone(a) => n.OnGone(a, e.env)
    case PlaceAt(id, p) => n.SetPlacement(id, p, e.env)
    case Unplace(id) => n.ClearPlacement(id, e.env)
  }

  function Run(f: Fleet, n: Node, es: seq<Event>): Node
    decreases |es|
  {
    if es == [] then n else Run(f, Step(f, n, es[0]), es[1..])
  }

  /** The connections registered once the step has updated the peer map. */
  function Registered(n: Node, act: Action): set<Addr> {
    match act
    case HelloFrom(a) => n.sess.peers.Keys + {a}
    case Gone(a) => n.sess.peers.Keys - {a}
    case _ => n.sess.peers.Keys
  }

  ghost predicate Enumerates(order: seq<Addr>, keys: set<Addr>) {
    && (forall a :: a in order <==> a in keys)
    && (forall i, j :: 0 <= i < j < |order| ==> order[i] != order[j])
  }

  ghost predicate UniqueHosts(peers: map<Addr, Peer>) {
    forall a, b :: a in peers && b in peers && peers[a].host == peers[b].host ==> a == b
  }

  /**
   What a step of the real system guarantees, plus the two hypotheses of the
   consistency theorem: live hostnames are unique, and the layout (and hello
   acknowledgement) writes of a rebuilding step succeed. Writes of moves and
   input events may fail at any time.
   */
  ghost predicate Legal(f: Fleet, n: Node, e: Event) {
    && Enumerates(e.env.scan, Registered(n, e.act))
    && Enumerates(e.env.push, Registered(n, e.act))
    && ((e.act.HelloFrom? || e.act.ReportFrom?) ==> e.act.a in f)
    && UniqueHosts(n.sess.peers)
    && (e.act.Rebuilds() ==> e.env.fail !! Registered(n, e.act))
  }

  ghost predicate LegalRun(f: Fleet, n: Node, es: seq<Event>)
    decreases |es|
  {
    es == [] || (Legal(f, n, es[0]) && LegalRun(f, Step(f, n, es[0]), es[1..]))
  }

  /** The arrangement most recently written to a connection. */
  function LastDesk(log: seq<Msg>): Option<Desk> {
    if log == [] then None
    else
      var m := log[|log| - 1];
      if m.DeskMsg? then Some(m.desk) else LastDesk(log[..|log| - 1])
  }

  /** s is the placed copy of one of d's own screens. */
  ghost predicate OwnedBy(s: Screen, d: Device) {
    s.device == d.host && exists ps :: ps in d.own && CopyOf(s, ps)
  }

  ghost predicate OnScreenOf(l: Desk, x: i32, y: i32, d: Device) {
    exists s :: s in l && s.Contains(x, y) && OwnedBy(s, d)
  }

  /**
   A move at position i of device d's log: the last arrangement written before
   it is the one the server used, and the position lies on a placed copy of one
   of d's screens. A relayed move may instead lie on no screen at all.
   */
  ghost predicate GoodMove(d: Device, log: seq<Msg>, i: nat)
    requires i < |log| && log[i].MoveMsg?
  {
    var m := log[i];
    && LastDesk(log[..i]) == Some(m.origin.under)
    && (OnScreenOf(m.origin.under, m.x, m.y, d)
        || (m.origin.Relayed? && ScreenAt(m.origin.under, m.x, m.y).None?))
  }

  /** An input event at position i was sent while the cursor was on d's part of the arrangement written last. */
  ghost predicate GoodInput(d: Device, log: seq<Msg>, i: nat)
    requires i < |log| && log[i].InputMsg?
  {
    var l := LastDesk(log[..i]);
    OwnedBy(log[i].on, d) && l.Some? && log[i].on in l.value
  }

  ghost predicate GoodLog(d: Device, log: seq<Msg>) {
    && (forall i :: 0 <= i < |log| && log[i].MoveMsg? ==> GoodMove(d, log, i))
    && (forall i :: 0 <= i < |log| && log[i].InputMsg? ==> GoodInput(d, log, i))
  }

  ghost predicate GoodWire(f: Fleet, w: Wire) {
    forall a :: a in w ==> a in f && GoodLog(f[a], w[a])
  }

  ghost predicate Known(f: Fleet, peers: map<Addr, Peer>) {
    forall a :: a in peers ==>
                  && a in f && peers[a].ready && peers[a].host == f[a].host
                  && (peers[a].screens == [] || peers[a].screens == f[a].own)
  }

  ghost predicate DeskFromPeers(f: Fleet, own: Desk, peers: map<Addr, Peer>, l: Desk) {
    forall s :: s in l && s !in own ==> exists a :: a in peers && a in f && OwnedBy(s, f[a])
  }

  ghost predicate InStep(peers: map<Addr, Peer>, w: Wire, l: Desk) {
    forall a :: a in peers ==> LastDesk(Log(w, a)) == Some(l)
  }

  /** What every reachable session satisfies. */
  ghost predicate Sound(f: Fleet, own: Desk, s: Session) {
    && Known(f, s.peers)
    && InStep(s.peers, s.wire, s.cursor.desk)
    && DeskFromPeers(f, own, s.peers, s.cursor.desk)
    && GoodWire(f, s.wire)
    && OnDesk(s.cursor)
  }

  /** The cursor's screen is one of the arrangement's. */
  predicate OnDesk(c: Cursor) { c.cur.Some? ==> c.cur.value in c.desk }

  ghost predicate OwnAreLocal(n: Node) {
    forall s :: s in n.own ==> s.device == n.sess.local
  }

  ghost predicate Inv(f: Fleet, n: Node) {
    Sound(f, n.own, n.sess) && OwnAreLocal(n)
  }

  /** The condition under which a message may be written after log. */
  ghost predicate GoodNext(d: Device, log: seq<Msg>, m: Msg) {
    && (m.MoveMsg? ==>
          && LastDesk(log) == Some(m.origin.under)
          && (OnScreenOf(m.origin.under, m.x, m.y, d)
              || (m.origin.Relayed? && ScreenAt(m.origin.under, m.x, m.y).None?)))
    && (m.InputMsg? ==> OwnedBy(m.on, d) && LastDesk(log).Some? && m.on in LastDesk(log).value)
  }

  lemma LogGrows(d: Device, log: seq<Msg>, m: Msg)
    requires GoodLog(d, log) && GoodNext(d, log, m)
    ensures GoodLog(d, log + [m])
    ensures LastDesk(log + [m]) == if m.DeskMsg? then Some(m.desk) else LastDesk(log)
  {
    var log' := log + [m];
    assert log'[..|log|] == log;
    forall i | 0 <= i < |log'| && log'[i].MoveMsg? ensures GoodMove(d, log', i) {
      if i < |log| {
        assert log'[..i] == log[..i];
        assert GoodMove(d, log, i);
      }
    }
    forall i | 0 <= i < |log'| && log'[i].InputMsg? ensures GoodInput(d, log', i) {
      if i < |log| {
        assert log'[..i] == log[..i];
        assert GoodInput(d, log, i);
      }
    }
  }

  lemma AppendGood(f: Fleet, w: Wire, a: Addr, m: Msg)
    requires GoodWire(f, w) && a in f && GoodNext(f[a], Log(w, a), m)
    ensures GoodWire(f, Append(w, a, m))
    ensures LastDesk(Log(Append(w, a, m), a)) == if m.DeskMsg? then Some(m.desk) else LastDesk(Log(w, a))
    ensures forall b :: b != a ==> Log(Append(w, a, m), b) == Log(w, b)
  {
    var log, w' := Log(w, a), Append(w, a, m);
    assert GoodLog(f[a], log);
    LogGrows(f[a], log, m);
    assert Log(w', a) == log + [m];
    forall b | b in w' ensures b in f && GoodLog(f[b], w'[b]) {
      assert b != a ==> w'[b] == w[b];
    }
  }

  lemma {:induction false} PushGood(f: Fleet, peers: map<Addr, Peer>, w: Wire, order: seq<Addr>, l: Desk,
      fail: set<Addr>)
    requires Known(f, peers) && GoodWire(f, w)
    requires forall a :: a in order && a in peers ==> a !in fail
    ensures var p := PushDesk(peers, w, order, l, fail);
            && p.ok && GoodWire(f, p.wire)
            && (forall a :: a in peers && (a in order || LastDesk(Log(w, a)) == Some(l)) ==>
                  LastDesk(Log(p.wire, a)) == Some(l))
    decreases |order|
  {
    if order != [] {
      var a := order[0];
      assert order == [a] + order[1..];
      if a in peers {
        AppendGood(f, w, a, DeskMsg(l));
        PushGood(f, peers, Append(w, a, DeskMsg(l)), order[1..], l, fail);
      } else {
        PushGood(f, peers, w, order[1..], l, fail);
      }
    }
  }

  /** Every screen of a freshly built arrangement that is not local comes from a registered peer. */
  lemma BuiltFromPeers(f: Fleet, own: Desk, peers: map<Addr, Peer>, byHand: Placements, order: seq<Addr>)
    requires Known(f, peers)
    ensures DeskFromPeers(f, own, peers, BuildDesk(own, peers, byHand, order))
  {
    var l := BuildDesk(own, peers, byHand, order);
    forall s | s in l && s !in own
      ensures exists a :: a in peers && a in f && OwnedBy(s, f[a])
    {
      var i :| 0 <= i < |l| && l[i] == s;
      assert forall k :: 0 <= k < |own| ==> l[k] == own[k];
      PlacedAreReported(own, peers, byHand, order, i);
      var a, ps :| a in peers && s.device == peers[a].host && ps in peers[a].screens && CopyOf(s, ps);
      assert OwnedBy(s, f[a]);
    }
  }

  lemma SetLayoutSound(f: Fleet, own: Desk, s: Session, byHand: Placements, env: Env)
    requires Known(f, s.peers) && GoodWire(f, s.wire)
    requires Enumerates(env.push, s.peers.Keys) && env.fail !! s.peers.Keys
    ensures Sound(f, own, s.SetLayout(BuildDesk(own, s.peers, byHand, env.scan), env).s)
  {
    var l := BuildDesk(own, s.peers, byHand, env.scan);
    BuiltFromPeers(f, own, s.peers, byHand, env.scan);
    PushGood(f, s.peers, s.wire, env.push, l, env.fail);
    forall a | a in s.peers
      ensures LastDesk(Log(PushDesk(s.peers, s.wire, env.push, l, env.fail).wire, a)) == Some(l)
    {
      assert a in env.push;
    }
  }

  /** Releasing only moves the cursor and the flags: the session's registry and wire are untouched. */
  lemma ReleaseFrame(n: Node, l: Desk)
    ensures var r := n.ReleaseIfActiveGone(l);
            && r.own == n.own && r.byHand == n.byHand
            && r.sess == n.sess.(cursor := r.sess.cursor) && r.sess.cursor.desk == n.sess.cursor.desk
    ensures var r := n.ForceRelease();
            && r.own == n.own && r.byHand == n.byHand
            && r.sess == n.sess.(cursor := r.sess.cursor) && r.sess.cursor.desk == n.sess.cursor.desk
  {
  }

  lemma RebuildKeepsInv(f: Fleet, n: Node, env: Env)
    requires Known(f, n.sess.peers) && GoodWire(f, n.sess.wire) && OwnAreLocal(n)
    requires Enumerates(env.push, n.sess.peers.Keys) && env.fail !! n.sess.peers.Keys
    ensures Inv(f, n.Rebuild(env))
  {
    var l := BuildDesk(n.own, n.sess.peers, n.byHand, env.scan);
    var n1 := n.(desk := Some(l));
    ReleaseFrame(n1, l);
    SetLayoutSound(f, n.own, n1.ReleaseIfActiveGone(l).sess, n.byHand, env);
  }

  /** Moving the cursor without changing the arrangement keeps a session sound. */
  lemma CursorKeepsSound(f: Fleet, own: Desk, s: Session, c: Cursor)
    requires Sound(f, own, s) && c.desk == s.cursor.desk && OnDesk(c)
    ensures Sound(f, own, s.(cursor := c))
  {
  }

  lemma ReleaseKeepsInv(f: Fleet, n: Node)
    requires Inv(f, n)
    ensures Inv(f, n.ForceRelease())
  {
    ReleaseFrame(n, []);
    CursorKeepsSound(f, n.own, n.sess, n.ForceRelease().sess.cursor);
  }

  lemma SendKeepsSound(f: Fleet, own: Desk, s: Session, a: Addr, m: Msg, fail: set<Addr>)
    requires Sound(f, own, s) && a in s.peers && !m.DeskMsg?
    requires m.MoveMsg? ==>
               && m.origin.under == s.cursor.desk
               && (OnScreenOf(m.origin.under, m.x, m.y, f[a])
                   || (m.origin.Relayed? && ScreenAt(m.origin.under, m.x, m.y).None?))
    requires m.InputMsg? ==> OwnedBy(m.on, f[a]) && m.on in s.cursor.desk
    ensures Sound(f, own, s.Send(a, m, fail).s)
  {
    AppendGood(f, s.wire, a, m);
  }

  /** A move is sent to the connection of the very device whose screen the cursor is on. */
  lemma RightConnection(f: Fleet, own: Desk, s: Session, order: seq<Addr>)
    requires Sound(f, own, s) && UniqueHosts(s.peers)
    requires forall t :: t in own ==> t.device == s.local
    requires s.cursor.OffDevice(s.local) && s.cursor.cur.value in s.cursor.desk
    requires PeerFor(s.peers, order, s.cursor.cur.value.device).Some?
    ensures var a := PeerFor(s.peers, order, s.cursor.cur.value.device).value;
            a in s.peers && OwnedBy(s.cursor.cur.value, f[a])
  {
    var t := s.cursor.cur.value;
    var b :| b in s.peers && b in f && OwnedBy(t, f[b]);
    var a := PeerFor(s.peers, order, t.device).value;
    assert a == b;
  }

  lemma ForwardMoveSound(f: Fleet, own: Desk, s: Session, x: i32, y: i32, env: Env)
    requires Sound(f, own, s) && UniqueHosts(s.peers)
    requires forall t :: t in own ==> t.device == s.local
    ensures Sound(f, own, s.(cursor := s.cursor.MoveTo(x, y)).ForwardMove(env).s)
  {
    var s1 := s.(cursor := s.cursor.MoveTo(x, y));
    var c := s1.cursor;
    MoveKeepsConsistent(s.cursor, x, y);
    CursorKeepsSound(f, own, s, c);
    if c.OffDevice(s1.local) && PeerFor(s1.peers, env.push, c.cur.value.device).Some? {
      RightConnection(f, own, s1, env.push);
      var a := PeerFor(s1.peers, env.push, c.cur.value.device).value;
      SendKeepsSound(f, own, s1, a, MoveMsg(c.vx, c.vy, ByServer(c.desk)), env.fail);
    }
  }

  /** When any screen contains the target, the cursor's screen does. */
  lemma MoveReachesTarget(c: Cursor, x: i32, y: i32)
    requires ScreenAt(c.desk, x, y).Some?
    ensures var r := c.MoveTo(x, y); r.cur.Some? && r.cur.value in c.desk && r.cur.value.Contains(x, y)
  {
    if ScreenAt(c.desk, c.vx, c.vy).Some? {
      MoveExactOrNearest(c.desk, c.vx, c.vy, x, y);
    }
  }

  lemma RelayedMoveSound(f: Fleet, own: Desk, s: Session, origin: Addr, x: i32, y: i32, env: Env)
    requires Sound(f, own, s) && UniqueHosts(s.peers)
    requires forall t :: t in own ==> t.device == s.local
    ensures Sound(f, own, s.PeerMove(origin, x, y, env).s)
  {
    var s1 := s.(cursor := s.cursor.MoveTo(x, y));
    var c := s1.cursor;
    MoveKeepsConsistent(s.cursor, x, y);
    CursorKeepsSound(f, own, s, c);
    if c.OffDevice(s1.local) && PeerFor(s1.peers, env.push, c.cur.value.device).Some? {
      RightConnection(f, own, s1, env.push);
      var a := PeerFor(s1.peers, env.push, c.cur.value.device).value;
      if ScreenAt(c.desk, x, y).Some? {
        MoveReachesTarget(s.cursor, x, y);
      }
      SendKeepsSound(f, own, s1, a, MoveMsg(x, y, Relayed(c.desk)), env.fail);
    }
  }

  /** An input event goes to the device whose screen the cursor is on, if the server sends it. */
  lemma InputSound(f: Fleet, own: Desk, s: Session, origin: Addr, ev: InputEvent, env: Env)
    requires Sound(f, own, s) && UniqueHosts(s.peers)
    requires forall t :: t in own ==> t.device == s.local
    ensures Sound(f, own, s.RouteLocalEvent(ev, env).s)
    ensures Sound(f, own, s.PeerInput(origin, ev, env).s)
  {
    var c := s.cursor;
    if c.OffDevice(s.local) && PeerFor(s.peers, env.push, c.cur.value.device).Some? {
      var a, m := PeerFor(s.peers, env.push, c.cur.value.device).value, InputMsg(ev, c.cur.value);
      RightConnection(f, own, s, env.push);
      SendKeepsSound(f, own, s, a, m, env.fail);
      assert s.RouteLocalEvent(ev, env).s == s || s.RouteLocalEvent(ev, env).s == s.Send(a, m, env.fail).s;
      assert s.PeerInput(origin, ev, env).s == s || s.PeerInput(origin, ev, env).s == s.Send(a, m, env.fail).s;
    } else {
      assert s.RouteLocalEvent(ev, env).s == s && s.PeerInput(origin, ev, env).s == s;
    }
  }

  lemma RelativeMoveKeepsInv(f: Fleet, n: Node, dx: i32, dy: i32, env: Env)
    requires Inv(f, n) && UniqueHosts(n.sess.peers)
    ensures Inv(f, n.OnRelativeMove(dx, dy, env))
  {
    var c := n.sess.cursor;
    ForwardMoveSound(f, n.own, n.sess, Add32(c.vx, dx), Add32(c.vy, dy), env);
    var n1 := n.(sess := n.sess.LocalDeltaMove(dx, dy, env).s);
    assert Inv(f, n1);
    ReleaseKeepsInv(f, n1);
  }

  lemma CoupledMoveKeepsInv(f: Fleet, n: Node, x: i32, y: i32, dx: i32, dy: i32, env: Env)
    requires Inv(f, n) && UniqueHosts(n.sess.peers)
    ensures Inv(f, n.OnCoupledMove(x, y, dx, dy, env))
  {
    if ScreenAt(n.own, x, y).Some? {
      var s := ScreenAt(n.own, x, y).value;
      var t := Target(s, x, y, dx, dy);
      ForwardMoveSound(f, n.own, n.sess, Add32(s.x, t.x), Add32(s.y, t.y), env);
      var n1 := n.(sess := n.sess.LocalPointerMove(s, t.x, t.y, env).s);
      assert Inv(f, n1);
    }
  }

  /** Registering a connection afresh; only the rebuild that follows brings it in step. */
  lemma RegisterSound(f: Fleet, s: Session, a: Addr, fail: set<Addr>)
    requires Known(f, s.peers) && GoodWire(f, s.wire) && a in f && a !in fail
    ensures var r := s.Hello(a, f[a].host, fail);
            && r.ok && Known(f, r.s.peers) && GoodWire(f, r.s.wire)
            && r.s.peers.Keys == s.peers.Keys + {a} && r.s.local == s.local
  {
    AppendGood(f, s.wire, a, HelloAck);
  }

  lemma HelloKeepsInv(f: Fleet, n: Node, a: Addr, env: Env)
    requires Inv(f, n) && a in f
    requires Enumerates(env.push, n.sess.peers.Keys + {a}) && env.fail !! (n.sess.peers.Keys + {a})
    ensures Inv(f, n.OnHello(a, f[a].host, env))
  {
    RegisterSound(f, n.sess, a, env.fail);
    RebuildKeepsInv(f, n.(sess := n.sess.Hello(a, f[a].host, env.fail).s), env);
  }

  lemma ReportKeepsInv(f: Fleet, n: Node, a: Addr, env: Env)
    requires Inv(f, n) && a in f
    requires Enumerates(env.push, n.sess.peers.Keys) && env.fail !! n.sess.peers.Keys
    ensures Inv(f, n.OnReport(a, f[a].own, env))
  {
    if a in n.sess.peers {
      var s1 := n.sess.Report(a, f[a].own);
      assert s1.peers.Keys == n.sess.peers.Keys;
      RebuildKeepsInv(f, n.(sess := s1), env);
    }
  }

  lemma GoneKeepsInv(f: Fleet, n: Node, a: Addr, env: Env)
    requires Inv(f, n)
    requires Enumerates(env.push, n.sess.peers.Keys - {a}) && env.fail !! (n.sess.peers.Keys - {a})
    ensures Inv(f, n.OnGone(a, env))
  {
    assert n.sess.Drop(a).peers.Keys == n.sess.peers.Keys - {a};
    RebuildKeepsInv(f, n.(sess := n.sess.Drop(a)), env);
  }

  lemma PressKeepsInv(f: Fleet, n: Node, ev: InputEvent, env: Env)
    requires Inv(f, n) && UniqueHosts(n.sess.peers)
    ensures Inv(f, n.OnInput(ev, env))
  {
    InputSound(f, n.own, n.sess, "", ev, env);
    ReleaseKeepsInv(f, n.(sess := n.sess.RouteLocalEvent(ev, env).s));
  }

  lemma PlaceKeepsInv(f: Fleet, n: Node, byHand: Placements, env: Env)
    requires Inv(f, n)
    requires Enumerates(env.push, n.sess.peers.Keys) && env.fail !! n.sess.peers.Keys
    ensures Inv(f, n.(byHand := byHand).Rebuild(env))
  {
    RebuildKeepsInv(f, n.(byHand := byHand), env);
  }

  /** Injecting on this machine touches nothing the invariant speaks of. */
  lemma InjectKeepsInv(f: Fleet, n: Node, i: Injection)
    requires Inv(f, n)
    ensures Inv(f, n.Inject(i))
  {
  }

  lemma PeerMoveKeepsInv(f: Fleet, n: Node, a: Addr, x: i32, y: i32, env: Env)
    requires Inv(f, n) && UniqueHosts(n.sess.peers)
    ensures Inv(f, n.OnPeerMove(a, x, y, env))
  {
    RelayedMoveSound(f, n.own, n.sess, a, x, y, env);
    var r := n.sess.PeerMove(a, x, y, env);
    var n1 := n.(sess := r.s);
    assert Inv(f, n1);
    if r.verdict.ApplyLocally? && ToGlobal(n1.own, n1.desk, x, y).Some? {
      InjectKeepsInv(f, n1, Warp(ToGlobal(n1.own, n1.desk, x, y).value));
    }
  }

  lemma PeerPressKeepsInv(f: Fleet, n: Node, a: Addr, ev: InputEvent, env: Env)
    requires Inv(f, n) && UniqueHosts(n.sess.peers)
    ensures Inv(f, n.OnPeerInput(a, ev, env))
  {
    InputSound(f, n.own, n.sess, a, ev, env);
    var n1 := n.(sess := n.sess.PeerInput(a, ev, env).s);
    assert Inv(f, n1);
    InjectKeepsInv(f, n1, Typed(ev));
  }

  lemma StepKeepsInv(f: Fleet, n: Node, e: Event)
    requires Inv(f, n) && Legal(f, n, e)
    ensures Inv(f, Step(f, n, e))
  {
    match e.act
    case Mouse(x, y, dx, dy) =>
      RelativeMoveKeepsInv(f, n, dx, dy, e.env);
      CoupledMoveKeepsInv(f, n, x, y, dx, dy, e.env);
    case Press(ev) => PressKeepsInv(f, n, ev, e.env);
    case HelloFrom(a) => HelloKeepsInv(f, n, a, e.env);
    case ReportFrom(a) => ReportKeepsInv(f, n, a, e.env);
    case MoveFrom(a, x, y) => PeerMoveKeepsInv(f, n, a, x, y, e.env);
    case PressFrom(a, ev) => PeerPressKeepsInv(f, n, a, ev, e.env);
    case Gone(a) => GoneKeepsInv(f, n, a, e.env);
    case PlaceAt(id, p) => PlaceKeepsInv(f, n, n.byHand[id := p], e.env);
    case Unplace(id) => PlaceKeepsInv(f, n, n.byHand - {id}, e.env);
  }

  lemma {:induction false} RunKeepsInv(f: Fleet, n: Node, es: seq<Event>)
    requires Inv(f, n) && LegalRun(f, n, es)
    ensures Inv(f, Run(f, n, es))
    decreases |es|
  {
    if es != [] {
      StepKeepsInv(f, n, es[0]);
      RunKeepsInv(f, Step(f, n, es[0]), es[1..]);
    }
  }

  lemma BootInv(f: Fleet, local: DeviceID, own: Desk, cap: Option<Capture>, seed: Option<Pos>)
    requires forall s :: s in own ==> s.device == local
    ensures Inv(f, Boot(local, own, cap, seed))
  {
    var n := Node(Session(local, Start([]), map[], map[]), own, map[], false, None, None, []);
    RebuildKeepsInv(f, n, Env([], [], {}));
    var b := Boot(local, own, cap, seed);
    CursorKeepsSound(f, own, n.Rebuild(Env([], [], {})).sess, b.sess.cursor);
  }

  /** A reachable node: any legal run from start-up. */
  ghost predicate Reachable(f: Fleet, n: Node) {
    exists local: DeviceID, own: Desk, cap: Option<Capture>, seed: Option<Pos>, es: seq<Event> ::
      && (forall s :: s in own ==> s.device == local)
      && LegalRun(f, Boot(local, own, cap, seed), es)
      && n == Run(f, Boot(local, own, cap, seed), es)
  }

  lemma ReachableInv(f: Fleet, n: Node)
    requires Reachable(f, n)
    ensures Inv(f, n)
  {
    var local: DeviceID, own: Desk, cap: Option<Capture>, seed: Option<Pos>, es: seq<Event> :|
      && (forall s :: s in own ==> s.device == local)
      && LegalRun(f, Boot(local, own, cap, seed), es)
      && n == Run(f, Boot(local, own, cap, seed), es);
    BootInv(f, local, own, cap, seed);
    RunKeepsInv(f, Boot(local, own, cap, seed), es);
  }

  /**
   Over every run: whatever move sits anywhere in a device's FIFO log, the
   arrangement written last before it is the one the server held when it sent
   the move, and the move lies on a copy of one of that device's own screens
   (or, if it was relayed unclamped, on no screen).
   */
  lemma EveryMoveUnderItsLayout(f: Fleet, n: Node, a: Addr, i: nat)
    requires Reachable(f, n) && a in n.sess.wire && i < |n.sess.wire[a]| && n.sess.wire[a][i].MoveMsg?
    ensures a in f && GoodMove(f[a], n.sess.wire[a], i)
  {
    ReachableInv(f, n);
  }

  /**
   And every button, scroll and key in a device's log was sent while the shared
   cursor was on a copy of one of that device's own screens, in the arrangement
   the device holds when it gets there.
   */
  lemma EveryInputOnOwnScreen(f: Fleet, n: Node, a: Addr, i: nat)
    requires Reachable(f, n) && a in n.sess.wire && i < |n.sess.wire[a]| && n.sess.wire[a][i].InputMsg?
    ensures a in f && GoodInput(f[a], n.sess.wire[a], i)
  {
    ReachableInv(f, n);
  }
}
