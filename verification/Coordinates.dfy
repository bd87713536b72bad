/**
 Coordinate conversion between the shared virtual desktop and one device's own
 global display space (platform/adapter/adapter.go, type core).
 */
module Coordinates {
  import opened Common
  import opened Layout

  datatype Pos = Pos(x: i32, y: i32)

  /** Index of the first screen with this id, or the length of the list. */
  function IndexOf(l: Desk, id: ScreenID): (i: nat)
    ensures i <= |l|
    ensures i < |l| ==> l[i].id == id
    ensures forall j :: 0 <= j < i ==> l[j].id != id
  {
    if l == [] || l[0].id == id then 0 else 1 + IndexOf(l[1..], id)
  }

  function FindScreen(l: Desk, id: ScreenID): (r: Option<Screen>)
    ensures r.Some? ==> r.value in l && r.value.id == id
    ensures r.None? ==> forall s :: s in l ==> s.id != id
  {
    var i := IndexOf(l, id);
    if i < |l| then Some(l[i]) else None
  }

  /** Re-bases an offset within one rectangle onto another: to + (v - from). */
  function Rebase(to: i32, v: i32, from: i32): i32 { Add32(to, Sub32(v, from)) }

  function ToGlobal(own: Desk, desk: Option<Desk>, vx: i32, vy: i32): Option<Pos> {
    if desk.None? then Some(Pos(vx, vy))
    else
      match ScreenAt(desk.value, vx, vy)
      case None => None
      case Some(s) =>
        match FindScreen(own, s.id)
        case Some(ls) => Some(Pos(Rebase(ls.x, vx, s.x), Rebase(ls.y, vy, s.y)))
        case None => Some(Pos(vx, vy))
  }

  function ToVirtual(own: Desk, desk: Option<Desk>, x: i32, y: i32): Option<Pos> {
    match ScreenAt(own, x, y)
    case None => None
    case Some(ls) =>
      if desk.None? then None
      else
        match FindScreen(desk.value, ls.id)
        case None => None
        case Some(s) => Some(Pos(Rebase(s.x, x, ls.x), Rebase(s.y, y, ls.y)))
  }

  predicate UniqueIds(l: Desk) {
    forall i, j :: 0 <= i < j < |l| ==> l[i].id != l[j].id
  }

  /** s is a placed copy of ls: same id and size, possibly elsewhere and relabelled. */
  predicate CopyOf(s: Screen, ls: Screen) { s.id == ls.id && s.w == ls.w && s.h == ls.h }

  /** Every own screen has a placed copy on the desk. */
  ghost predicate Placed(own: Desk, desk: Desk) {
    forall ls :: ls in own ==> exists s :: s in desk && CopyOf(s, ls)
  }

  lemma FindById(l: Desk, s: Screen)
    requires UniqueIds(l) && s in l
    ensures FindScreen(l, s.id) == Some(s)
  {
    var i :| 0 <= i < |l| && l[i] == s;
    var j := IndexOf(l, s.id);
    assert j <= i;
  }

  /** A point of a screen keeps its offset when it moves to a copy of that screen, and comes back. */
  lemma RebaseKeepsOffset(to: Screen, src: Screen, x: i32, y: i32)
    requires CopyOf(to, src) && to.Fits() && src.Fits() && src.Contains(x, y)
    ensures var p := Pos(Rebase(to.x, x, src.x), Rebase(to.y, y, src.y));
            && to.Contains(p.x, p.y)
            && p.x - to.x == x - src.x && p.y - to.y == y - src.y
            && Rebase(src.x, p.x, to.x) == x && Rebase(src.y, p.y, to.y) == y
  {
  }

  /** The hypotheses under which a device and the arrangement agree on its screens. */
  ghost predicate Arranged(own: Desk, desk: Desk) {
    && Disjoint(own) && Disjoint(desk) && UniqueIds(own) && UniqueIds(desk) && Placed(own, desk)
    && (forall s :: s in own || s in desk ==> s.Fits())
  }

  lemma PlacedCopy(own: Desk, desk: Desk, s: Screen, ls: Screen)
    requires UniqueIds(desk) && Placed(own, desk) && s in desk && ls in own && s.id == ls.id
    ensures CopyOf(s, ls)
  {
    var t :| t in desk && CopyOf(t, ls);
    FindById(desk, s);
    FindById(desk, t);
  }

  /** Physical to virtual and back is the identity on every point of the device's own screens. */
  lemma PhysicalRoundTrip(own: Desk, desk: Desk, x: i32, y: i32)
    requires Arranged(own, desk) && ScreenAt(own, x, y).Some?
    ensures var v := ToVirtual(own, Some(desk), x, y);
            && v.Some?
            && ScreenAt(desk, v.value.x, v.value.y).Some?
            && ScreenAt(desk, v.value.x, v.value.y).value.id == ScreenAt(own, x, y).value.id
            && ToGlobal(own, Some(desk), v.value.x, v.value.y) == Some(Pos(x, y))
  {
    var ls := ScreenAt(own, x, y).value;
    var s :| s in desk && CopyOf(s, ls);
    FindById(desk, s);
    FindById(own, ls);
    RebaseKeepsOffset(s, ls, x, y);
    OnlyScreenAt(desk, s, Rebase(s.x, x, ls.x), Rebase(s.y, y, ls.y));
  }

  /** Virtual to physical and back is the identity on the device's part of the virtual desktop. */
  lemma VirtualRoundTrip(own: Desk, desk: Desk, vx: i32, vy: i32)
    requires Arranged(own, desk)
    requires ScreenAt(desk, vx, vy).Some? && FindScreen(own, ScreenAt(desk, vx, vy).value.id).Some?
    ensures var g := ToGlobal(own, Some(desk), vx, vy);
            && g.Some?
            && ScreenAt(own, g.value.x, g.value.y) == FindScreen(own, ScreenAt(desk, vx, vy).value.id)
            && ToVirtual(own, Some(desk), g.value.x, g.value.y) == Some(Pos(vx, vy))
  {
    var s := ScreenAt(desk, vx, vy).value;
    var ls := FindScreen(own, s.id).value;
    PlacedCopy(own, desk, s, ls);
    RebaseKeepsOffset(ls, s, vx, vy);
    OnlyScreenAt(own, ls, Rebase(ls.x, vx, s.x), Rebase(ls.y, vy, s.y));
    FindById(desk, s);
  }

  /**
   Hence toVirtual is a bijection from the device's physical points onto its
   part of the virtual desktop: distinct points have distinct images.
   */
  lemma ConversionIsInjective(own: Desk, desk: Desk, x1: i32, y1: i32, x2: i32, y2: i32)
    requires Arranged(own, desk)
    requires ScreenAt(own, x1, y1).Some? && ScreenAt(own, x2, y2).Some?
    requires ToVirtual(own, Some(desk), x1, y1) == ToVirtual(own, Some(desk), x2, y2)
    ensures (x1, y1) == (x2, y2)
  {
    PhysicalRoundTrip(own, desk, x1, y1);
    PhysicalRoundTrip(own, desk, x2, y2);
  }
}
