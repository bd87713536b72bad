/**
 The shared cursor of core/session/router.go: a value-level transition for each
 mutator, the class that performs them in place, and what every sequence of
 mutators keeps.
 */
module Routing {
  import opened Common
  import opened Layout

  /** The mutable part of a Router. */
  datatype Cursor = Cursor(desk: Desk, vx: i32, vy: i32, cur: Option<Screen>) {

    function SetLayout(l: Desk): Cursor { Cursor(l, vx, vy, ScreenAt(l, vx, vy)) }

    function SetPosition(x: i32, y: i32): Cursor { Cursor(desk, x, y, ScreenAt(desk, x, y)) }

    function MoveTo(x: i32, y: i32): Cursor {
      var r := MovePointer(desk, vx, vy, x, y);
      Cursor(desk, r.x, r.y, r.screen)
    }

    function MoveByDelta(dx: i32, dy: i32): Cursor { MoveTo(Add32(vx, dx), Add32(vy, dy)) }

    function OnLocalMove(s: Screen, lx: i32, ly: i32): Cursor { MoveTo(Add32(s.x, lx), Add32(s.y, ly)) }

    predicate On(d: DeviceID) { cur.Some? && cur.value.device == d }

    predicate OffDevice(d: DeviceID) { cur.Some? && cur.value.device != d }
  }

  class Router {
    var layout: Desk
    const local: DeviceID
    var vx: i32
    var vy: i32
    var cur: Option<Screen>

    function State(): Cursor
      reads this
    {
      Cursor(layout, vx, vy, cur)
    }

    constructor (l: Desk, local: DeviceID)
      ensures State() == Cursor(l, 0, 0, ScreenAt(l, 0, 0)) && this.local == local
    {
      layout, this.local := l, local;
      vx, vy := 0, 0;
      cur := ScreenAt(l, 0, 0);
    }

    method SetLayout(l: Desk)
      modifies this
      ensures State() == old(State()).SetLayout(l)
    {
      layout := l;
      cur := ScreenAt(l, vx, vy);
    }

    method SetPosition(x: i32, y: i32)
      modifies this
      ensures State() == old(State()).SetPosition(x, y)
    {
      vx, vy := x, y;
      cur := ScreenAt(layout, x, y);
    }

    method MoveTo(x: i32, y: i32) returns (s: Option<Screen>)
      modifies this
      ensures State() == old(State()).MoveTo(x, y) && s == cur
    {
      var res := MovePointer(layout, vx, vy, x, y);
      vx, vy := res.x, res.y;
      cur := res.screen;
      s := cur;
    }

    method MoveByDelta(dx: i32, dy: i32) returns (s: Option<Screen>)
      modifies this
      ensures State() == old(State()).MoveByDelta(dx, dy) && s == cur
    {
      var res := MovePointer(layout, vx, vy, Add32(vx, dx), Add32(vy, dy));
      vx, vy := res.x, res.y;
      cur := res.screen;
      s := cur;
    }

    method OnLocalMove(scr: Screen, lx: i32, ly: i32) returns (s: Option<Screen>)
      modifies this
      ensures State() == old(State()).OnLocalMove(scr, lx, ly) && s == cur
    {
      var res := MovePointer(layout, vx, vy, Add32(scr.x, lx), Add32(scr.y, ly));
      vx, vy := res.x, res.y;
      cur := res.screen;
      s := cur;
    }
  }

  datatype Op =
    | SetLayoutOp(l: Desk)
    | SetPositionOp(x: i32, y: i32)
    | MoveToOp(x: i32, y: i32)
    | MoveByDeltaOp(dx: i32, dy: i32)
    | OnLocalMoveOp(s: Screen, lx: i32, ly: i32)
  {
    predicate IsMove() { MoveToOp? || MoveByDeltaOp? || OnLocalMoveOp? }
  }

  function Apply(c: Cursor, op: Op): Cursor {
    match op
    case SetLayoutOp(l) => c.SetLayout(l)
    case SetPositionOp(x, y) => c.SetPosition(x, y)
    case MoveToOp(x, y) => c.MoveTo(x, y)
    case MoveByDeltaOp(dx, dy) => c.MoveByDelta(dx, dy)
    case OnLocalMoveOp(s, lx, ly) => c.OnLocalMove(s, lx, ly)
  }

  function ApplyAll(c: Cursor, ops: seq<Op>): Cursor
    decreases |ops|
  {
    if ops == [] then c else ApplyAll(Apply(c, ops[0]), ops[1..])
  }

  function Start(l: Desk): Cursor { Cursor(l, 0, 0, ScreenAt(l, 0, 0)) }

  /** The cursor lies on its current screen; on a disjoint layout that screen is the one looked up. */
  ghost predicate Consistent(c: Cursor) {
    && (c.cur.Some? ==> c.cur.value in c.desk && c.cur.value.Contains(c.vx, c.vy))
    && (c.cur.None? <==> ScreenAt(c.desk, c.vx, c.vy).None?)
    && (Disjoint(c.desk) ==> c.cur == ScreenAt(c.desk, c.vx, c.vy))
  }

  lemma MoveKeepsConsistent(c: Cursor, x: i32, y: i32)
    ensures Consistent(c.MoveTo(x, y))
    ensures ScreenAt(c.desk, c.vx, c.vy).Some? ==> c.MoveTo(x, y).cur.Some?
  {
    if ScreenAt(c.desk, c.vx, c.vy).Some? {
      MoveExactOrNearest(c.desk, c.vx, c.vy, x, y);
    }
    if Disjoint(c.desk) {
      MoveAgreesWithLookup(c.desk, c.vx, c.vy, x, y);
    }
  }

  lemma ApplyKeepsConsistent(c: Cursor, op: Op)
    ensures Consistent(Apply(c, op))
  {
    match op
    case MoveToOp(x, y) => MoveKeepsConsistent(c, x, y);
    case MoveByDeltaOp(dx, dy) => MoveKeepsConsistent(c, Add32(c.vx, dx), Add32(c.vy, dy));
    case OnLocalMoveOp(s, lx, ly) => MoveKeepsConsistent(c, Add32(s.x, lx), Add32(s.y, ly));
    case _ =>
  }

  lemma {:induction false} ConsistentFrom(c: Cursor, ops: seq<Op>)
    requires Consistent(c)
    ensures Consistent(ApplyAll(c, ops))
    decreases |ops|
  {
    if ops != [] {
      ApplyKeepsConsistent(c, ops[0]);
      ConsistentFrom(Apply(c, ops[0]), ops[1..]);
    }
  }

  /** Every sequence of the five mutators, from a new router on any layout, keeps the cursor consistent. */
  lemma RouterInvariant(l: Desk, ops: seq<Op>)
    ensures Consistent(ApplyAll(Start(l), ops))
  {
    ConsistentFrom(Start(l), ops);
  }

  /** Once the cursor is on some screen, no sequence of moves takes it off the desktop. */
  lemma {:induction false} MovesStayOnDesktop(c: Cursor, ops: seq<Op>)
    requires Consistent(c) && c.cur.Some?
    requires forall op :: op in ops ==> op.IsMove()
    ensures ApplyAll(c, ops).cur.Some? && ApplyAll(c, ops).desk == c.desk
    ensures var e := ApplyAll(c, ops); e.cur.value in c.desk && e.cur.value.Contains(e.vx, e.vy)
    decreases |ops|
  {
    if ops != [] {
      var op := ops[0];
      assert op.IsMove();
      match op {
        case MoveToOp(x, y) => MoveKeepsConsistent(c, x, y);
        case MoveByDeltaOp(dx, dy) => MoveKeepsConsistent(c, Add32(c.vx, dx), Add32(c.vy, dy));
        case OnLocalMoveOp(s, lx, ly) => MoveKeepsConsistent(c, Add32(s.x, lx), Add32(s.y, ly));
      }
      MovesStayOnDesktop(Apply(c, op), ops[1..]);
    }
  }

  /** Where a move is headed. */
  function Goal(c: Cursor, op: Op): (i32, i32)
    requires op.IsMove()
  {
    match op
    case MoveToOp(x, y) => (x, y)
    case MoveByDeltaOp(dx, dy) => (Add32(c.vx, dx), Add32(c.vy, dy))
    case OnLocalMoveOp(s, lx, ly) => (Add32(s.x, lx), Add32(s.y, ly))
  }

  /** Of the points of s, (x, y) is the only one nearest to (tx, ty). */
  ghost predicate Nearest(s: Screen, x: i32, y: i32, tx: i32, ty: i32) {
    s.Contains(x, y) &&
    forall qx: i32, qy: i32 :: s.Contains(qx, qy) && (qx, qy) != (x, y) ==>
      Manhattan(x, y, tx, ty) < Manhattan(qx, qy, tx, ty)
  }

  /**
   From an on-screen position each of the three moves takes the cursor exactly
   where it is headed if any screen is there, and otherwise to the nearest point
   of the screen it is on.
   */
  lemma MovesGoWhereHeaded(c: Cursor, op: Op)
    requires op.IsMove() && ScreenAt(c.desk, c.vx, c.vy).Some?
    ensures var r := Apply(c, op); var (tx, ty) := Goal(c, op); var s := ScreenAt(c.desk, c.vx, c.vy).value;
            && r.desk == c.desk && r.cur == EndsOn(c.desk, c.vx, c.vy, tx, ty)
            && if ScreenAt(c.desk, tx, ty).Some? then (r.vx, r.vy) == (tx, ty)
               else r.cur == Some(s) && Nearest(s, r.vx, r.vy, tx, ty)
  {
    var (tx, ty) := Goal(c, op);
    MoveExactOrNearest(c.desk, c.vx, c.vy, tx, ty);
    WhereMovesEnd(c.desk, c.vx, c.vy, tx, ty);
  }

  /** A delta that led to a screen is undone by the opposite delta. */
  lemma DeltaUndone(c: Cursor, dx: i32, dy: i32)
    requires ScreenAt(c.desk, c.vx, c.vy).Some? && ScreenAt(c.desk, Add32(c.vx, dx), Add32(c.vy, dy)).Some?
    ensures var r := ApplyAll(c, [MoveByDeltaOp(dx, dy), MoveByDeltaOp(Sub32(0, dx), Sub32(0, dy))]);
            (r.vx, r.vy) == (c.vx, c.vy) && (Disjoint(c.desk) ==> r.cur == ScreenAt(c.desk, c.vx, c.vy))
  {
    var there, back := MoveByDeltaOp(dx, dy), MoveByDeltaOp(Sub32(0, dx), Sub32(0, dy));
    assert [there, back][1..] == [back] && [back][1..] == [];
    assert ApplyAll(Apply(c, there), [back]) == Apply(Apply(c, there), back);
    MovesGoWhereHeaded(c, there);
    MoveUndone(c.desk, c.vx, c.vy, dx, dy);
  }
}
