/**
 The virtual desktop of core/layout: screens as rectangles, the first-match
 lookup, and the pointer-crossing rule. All arithmetic is Go's int32.
 */
module Layout {
  import opened Common

  type ScreenID = string
  type DeviceID = string

  datatype Screen = Screen(id: ScreenID, device: DeviceID, x: i32, y: i32, w: i32, h: i32, primary: bool) {
    function Right(): i32 { Add32(x, w) }

    function Bottom(): i32 { Add32(y, h) }

    predicate Contains(px: i32, py: i32) {
      x <= px < Right() && y <= py < Bottom()
    }

    /** Positive size and no overflow of the far edges. */
    predicate Fits() {
      w > 0 && h > 0 && x + w < TWO31 && y + h < TWO31
    }
  }

  type Desk = seq<Screen>

  datatype Edge = EdgeLeft | EdgeRight | EdgeTop | EdgeBottom

  datatype MoveResult = MoveResult(screen: Option<Screen>, x: i32, y: i32, crossed: bool)

  /** Index of the first screen under the point, or the length of the list. */
  function IndexAt(l: Desk, px: i32, py: i32): (i: nat)
    ensures i <= |l|
    ensures i < |l| ==> l[i].Contains(px, py)
    ensures forall j :: 0 <= j < i ==> !l[j].Contains(px, py)
  {
    if l == [] || l[0].Contains(px, py) then 0 else 1 + IndexAt(l[1..], px, py)
  }

  function ScreenAt(l: Desk, px: i32, py: i32): (r: Option<Screen>)
    ensures r.Some? ==> r.value in l && r.value.Contains(px, py)
    ensures r.None? <==> forall s :: s in l ==> !s.Contains(px, py)
  {
    var i := IndexAt(l, px, py);
    if i < |l| then Some(l[i]) else None
  }

  function ExitEdge(s: Screen, nx: i32, ny: i32): Edge {
    if nx >= s.Right() then EdgeRight
    else if nx < s.x then EdgeLeft
    else if ny >= s.Bottom() then EdgeBottom
    else EdgeTop
  }

  predicate SpansOverlap(a0: i32, a1: i32, b0: i32, b1: i32) {
    a0 <= b1 && b0 <= a1
  }

  /** d touches s along an edge with an overlapping span. */
  predicate Adjacent(s: Screen, d: Screen) {
    var sameRows := SpansOverlap(s.y, Sub32(s.Bottom(), 1), d.y, Sub32(d.Bottom(), 1));
    var sameColumns := SpansOverlap(s.x, Sub32(s.Right(), 1), d.x, Sub32(d.Right(), 1));
    || (d.Right() == s.x && sameRows)
    || (s.Right() == d.x && sameRows)
    || (d.Bottom() == s.y && sameColumns)
    || (s.Bottom() == d.y && sameColumns)
  }

  predicate CrossesTo(s: Screen, d: Screen, nx: i32, ny: i32) {
    d.id != s.id && Adjacent(s, d) && d.Contains(nx, ny)
  }

  /** The neighbour the crossing search settles on. */
  function Across(l: Desk, s: Screen, nx: i32, ny: i32): (r: Option<Screen>)
    ensures r.Some? ==> r.value in l && r.value.Contains(nx, ny)
    ensures r.None? ==> ScreenAt(l, nx, ny).None?
  {
    var i := FirstCrossing(l, s, nx, ny);
    if i < |l| then Some(l[i]) else ScreenAt(l, nx, ny)
  }

  function FirstCrossing(l: Desk, s: Screen, nx: i32, ny: i32): (i: nat)
    ensures i <= |l|
    ensures i < |l| ==> CrossesTo(s, l[i], nx, ny)
    ensures forall j :: 0 <= j < i ==> !CrossesTo(s, l[j], nx, ny)
  {
    if l == [] || CrossesTo(s, l[0], nx, ny) then 0 else 1 + FirstCrossing(l[1..], s, nx, ny)
  }

  /** The search loop of acrossEdge, which is passed the exit edge and ignores it. */
  method AcrossEdge(l: Desk, s: Screen, e: Edge, nx: i32, ny: i32) returns (r: Option<Screen>)
    ensures r == Across(l, s, nx, ny)
  {
    var i := 0;
    while i < |l|
      invariant 0 <= i <= FirstCrossing(l, s, nx, ny)
    {
      var d := l[i];
      if d.id != s.id && Adjacent(s, d) {
        if d.Contains(nx, ny) {
          return Some(d);
        }
      }
      i := i + 1;
    }
    return ScreenAt(l, nx, ny);
  }

  function Clamp1(lo: i32, hi: i32, v: i32): i32 {
    var v1 := if v < lo then lo else v;
    if v1 >= hi then Sub32(hi, 1) else v1
  }

  /** clampTo, reassigning x and then y. */
  method ClampTo(s: Screen, x0: i32, y0: i32) returns (x: i32, y: i32)
    ensures x == Clamp1(s.x, s.Right(), x0) && y == Clamp1(s.y, s.Bottom(), y0)
  {
    x, y := x0, y0;
    if x < s.x { x := s.x; }
    if x >= s.Right() { x := Sub32(s.Right(), 1); }
    if y < s.y { y := s.y; }
    if y >= s.Bottom() { y := Sub32(s.Bottom(), 1); }
  }

  /** Advances a pointer from (x, y) to (nx, ny). */
  function MovePointer(l: Desk, x: i32, y: i32, nx: i32, ny: i32): MoveResult {
    match ScreenAt(l, x, y)
    case None => MoveResult(ScreenAt(l, nx, ny), nx, ny, false)
    case Some(cur) =>
      if cur.Contains(nx, ny) then MoveResult(Some(cur), nx, ny, false)
      else
        match Across(l, cur, nx, ny)
        case Some(dst) => MoveResult(Some(dst), nx, ny, true)
        case None => MoveResult(Some(cur), Clamp1(cur.x, cur.Right(), nx), Clamp1(cur.y, cur.Bottom(), ny), false)
  }

  /** MovePointer step by step, with the exit edge it computes and the search ignores. */
  method Advance(l: Desk, x: i32, y: i32, nx: i32, ny: i32) returns (r: MoveResult)
    ensures r == MovePointer(l, x, y, nx, ny)
  {
    var cur := ScreenAt(l, x, y);
    if cur.None? {
      return MoveResult(ScreenAt(l, nx, ny), nx, ny, false);
    }
    if cur.value.Contains(nx, ny) {
      return MoveResult(cur, nx, ny, false);
    }
    var dst := AcrossEdge(l, cur.value, ExitEdge(cur.value, nx, ny), nx, ny);
    if dst.Some? {
      return MoveResult(dst, nx, ny, true);
    }
    var cx, cy := ClampTo(cur.value, nx, ny);
    return MoveResult(cur, cx, cy, false);
  }

  ghost predicate Apart(a: Screen, b: Screen) {
    forall px: i32, py: i32 :: !(a.Contains(px, py) && b.Contains(px, py))
  }

  ghost predicate Disjoint(l: Desk) {
    forall i, j :: 0 <= i < j < |l| ==> Apart(l[i], l[j])
  }

  function Abs(v: int): nat { if v < 0 then -v else v }

  function Manhattan(px: int, py: int, qx: int, qy: int): nat { Abs(px - qx) + Abs(py - qy) }

  function Euclid2(px: int, py: int, qx: int, qy: int): int {
    (px - qx) * (px - qx) + (py - qy) * (py - qy)
  }

  lemma SquareMono(a: int, b: int)
    requires Abs(a) <= Abs(b)
    ensures a * a <= b * b
  {
    var p, q := Abs(a), Abs(b);
    assert p * p <= p * q <= q * q;
    assert p * p == a * a && q * q == b * b;
  }

  /**
   From an on-screen point, MovePointer lands exactly on the target when any
   screen contains it (crossing iff the screen under the start does not), and
   otherwise on the unique point of the current screen nearest the target, by
   both the Manhattan and the Euclidean distance. No disjointness, no unique
   ids and no coordinate bounds are needed.
   */
  lemma MoveExactOrNearest(l: Desk, x: i32, y: i32, nx: i32, ny: i32)
    requires ScreenAt(l, x, y).Some?
    ensures var r := MovePointer(l, x, y, nx, ny);
            var cur := ScreenAt(l, x, y).value;
            && r.screen.Some? && r.screen.value in l && r.screen.value.Contains(r.x, r.y)
            && ((r.x, r.y) == (nx, ny) <==> exists s :: s in l && s.Contains(nx, ny))
            && (r.crossed <==> (r.x, r.y) == (nx, ny) && !cur.Contains(nx, ny))
            && ((r.x, r.y) != (nx, ny) ==>
                  && r.screen == Some(cur)
                  && forall qx: i32, qy: i32 :: cur.Contains(qx, qy) ==>
                       && Manhattan(r.x, r.y, nx, ny) <= Manhattan(qx, qy, nx, ny)
                       && Euclid2(r.x, r.y, nx, ny) <= Euclid2(qx, qy, nx, ny)
                       && (Manhattan(r.x, r.y, nx, ny) == Manhattan(qx, qy, nx, ny) ==> (qx, qy) == (r.x, r.y)))
  {
    var r := MovePointer(l, x, y, nx, ny);
    var cur := ScreenAt(l, x, y).value;
    if !cur.Contains(nx, ny) && Across(l, cur, nx, ny).None? {
      assert cur.Contains(r.x, r.y);
      forall qx: i32, qy: i32 | cur.Contains(qx, qy)
        ensures Abs(r.x - nx) <= Abs(qx - nx) && Abs(r.y - ny) <= Abs(qy - ny)
        ensures Euclid2(r.x, r.y, nx, ny) <= Euclid2(qx, qy, nx, ny)
        ensures Manhattan(r.x, r.y, nx, ny) == Manhattan(qx, qy, nx, ny) ==> (qx, qy) == (r.x, r.y)
      {
        SquareMono(r.x - nx, qx - nx);
        SquareMono(r.y - ny, qy - ny);
      }
    }
  }

  /** On a disjoint layout the screen under a point is the only one there. */
  lemma OnlyScreenAt(l: Desk, s: Screen, px: i32, py: i32)
    requires Disjoint(l) && s in l && s.Contains(px, py)
    ensures ScreenAt(l, px, py) == Some(s)
  {
    var i :| 0 <= i < |l| && l[i] == s;
    var j := IndexAt(l, px, py);
    assert j <= i;
  }

  /**
   On a disjoint layout the adjacency search never changes the answer: the
   reported screen is always the one under the reported position.
   */
  lemma MoveAgreesWithLookup(l: Desk, x: i32, y: i32, nx: i32, ny: i32)
    requires Disjoint(l)
    ensures var r := MovePointer(l, x, y, nx, ny); r.screen == ScreenAt(l, r.x, r.y)
  {
    var r := MovePointer(l, x, y, nx, ny);
    if ScreenAt(l, x, y).Some? {
      MoveExactOrNearest(l, x, y, nx, ny);
      OnlyScreenAt(l, r.screen.value, r.x, r.y);
    }
  }

  /** The pointer, moved between any two points, is reported on the screen under the position it gets to. */
  ghost predicate AlwaysAgrees(l: Desk) {
    forall x: i32, y: i32, nx: i32, ny: i32 :: Agrees(l, MovePointer(l, x, y, nx, ny))
  }

  predicate Agrees(l: Desk, r: MoveResult) { r.screen == ScreenAt(l, r.x, r.y) }

  /** Some point looks up to s; a screen covered by earlier ones, or empty, is hidden. */
  ghost predicate Seen(l: Desk, s: Screen) { exists x: i32, y: i32 :: ScreenAt(l, x, y) == Some(s) }

  ghost predicate SeenApart(l: Desk) {
    forall s, d :: s in l && d in l && s != d && Seen(l, s) && Seen(l, d) ==> Apart(s, d)
  }

  /** From no screen a pointer can be on does the crossing search settle on a hidden one. */
  ghost predicate CrossesToSeen(l: Desk) {
    forall s, nx: i32, ny: i32 ::
      s in l && Seen(l, s) && !s.Contains(nx, ny) && FirstCrossing(l, s, nx, ny) < |l| ==>
        Seen(l, l[FirstCrossing(l, s, nx, ny)])
  }

  /** At a point of a seen screen the lookup finds that screen, when seen ones are apart. */
  lemma SeenIsFound(l: Desk, s: Screen, px: i32, py: i32)
    requires SeenApart(l) && s in l && Seen(l, s) && s.Contains(px, py)
    ensures ScreenAt(l, px, py) == Some(s)
  {
    var e := ScreenAt(l, px, py).value;
    assert Seen(l, e);
    assert e == s || Apart(s, e);
  }

  lemma AgreesWhen(l: Desk, x: i32, y: i32, nx: i32, ny: i32)
    requires SeenApart(l) && CrossesToSeen(l)
    ensures Agrees(l, MovePointer(l, x, y, nx, ny))
  {
    var r := MovePointer(l, x, y, nx, ny);
    if ScreenAt(l, x, y).Some? {
      var cur := ScreenAt(l, x, y).value;
      assert Seen(l, cur);
      MoveExactOrNearest(l, x, y, nx, ny);
      if r.screen == Some(cur) {
        SeenIsFound(l, cur, r.x, r.y);
      } else if FirstCrossing(l, cur, nx, ny) < |l| {
        SeenIsFound(l, l[FirstCrossing(l, cur, nx, ny)], nx, ny);
      }
    }
  }

  lemma AgreeingAreApart(l: Desk, s: Screen, d: Screen)
    requires AlwaysAgrees(l) && s in l && d in l && Seen(l, s) && Seen(l, d) && s != d
    ensures Apart(s, d)
  {
    var x: i32, y: i32 :| ScreenAt(l, x, y) == Some(s);
    var u: i32, v: i32 :| ScreenAt(l, u, v) == Some(d);
    forall px: i32, py: i32 ensures !(s.Contains(px, py) && d.Contains(px, py)) {
      assert Agrees(l, MovePointer(l, x, y, px, py)) && Agrees(l, MovePointer(l, u, v, px, py));
    }
  }

  /**
   Exactly which layouts the adjacency search never misreads: no two screens the
   pointer can be looked up on overlap, and the search never settles on one it
   cannot. No unique ids are needed.
   */
  lemma AgreesIff(l: Desk)
    ensures AlwaysAgrees(l) <==> SeenApart(l) && CrossesToSeen(l)
  {
    if SeenApart(l) && CrossesToSeen(l) {
      forall x: i32, y: i32, nx: i32, ny: i32 ensures Agrees(l, MovePointer(l, x, y, nx, ny)) {
        AgreesWhen(l, x, y, nx, ny);
      }
    }
    if AlwaysAgrees(l) {
      forall s, d | s in l && d in l && s != d && Seen(l, s) && Seen(l, d) ensures Apart(s, d) {
        AgreeingAreApart(l, s, d);
      }
      forall s, nx: i32, ny: i32 |
        s in l && Seen(l, s) && !s.Contains(nx, ny) && FirstCrossing(l, s, nx, ny) < |l|
        ensures Seen(l, l[FirstCrossing(l, s, nx, ny)])
      {
        var x: i32, y: i32 :| ScreenAt(l, x, y) == Some(s);
        assert Agrees(l, MovePointer(l, x, y, nx, ny));
      }
    }
  }

  ghost predicate NonEmpty(s: Screen) { exists x: i32, y: i32 :: s.Contains(x, y) }

  /** When no screen that has a point is hidden, and none is listed twice: exactly the disjoint ones. */
  lemma AgreesIffDisjoint(l: Desk)
    requires forall s :: s in l && NonEmpty(s) ==> Seen(l, s)
    requires forall i, j :: 0 <= i < j < |l| ==> l[i] != l[j]
    ensures AlwaysAgrees(l) <==> Disjoint(l)
  {
    AgreesIff(l);
    if AlwaysAgrees(l) {
      forall i, j | 0 <= i < j < |l| ensures Apart(l[i], l[j]) {
        if NonEmpty(l[i]) && NonEmpty(l[j]) { assert l[i] in l && l[j] in l; }
      }
    }
    if Disjoint(l) {
      forall x: i32, y: i32, nx: i32, ny: i32 ensures Agrees(l, MovePointer(l, x, y, nx, ny)) {
        MoveAgreesWithLookup(l, x, y, nx, ny);
      }
    }
  }

  /** With overlapping screens the answer can change: the pointer stays on the screen it was on. */
  lemma OverlapCanDisagree()
    ensures var a := Screen("a", "a", 50, 0, 100, 100, false);
            var b := Screen("b", "b", 0, 0, 100, 100, false);
            var r := MovePointer([a, b], 10, 10, 60, 10);
            r.screen == Some(b) && ScreenAt([a, b], r.x, r.y) == Some(a)
  {
    var a := Screen("a", "a", 50, 0, 100, 100, false);
    var b := Screen("b", "b", 0, 0, 100, 100, false);
    assert IndexAt([a, b], 10, 10) == 1;
    assert IndexAt([a, b], 60, 10) == 0;
  }

  /**
   The screen a move ends on: the current one if the target is on it or on none,
   else a neighbour, else the first there.
   */
  function EndsOn(l: Desk, x: i32, y: i32, nx: i32, ny: i32): Option<Screen> {
    var cur, there := ScreenAt(l, x, y), ScreenAt(l, nx, ny);
    if cur.None? then there
    else if cur.value.Contains(nx, ny) || there.None? then cur
    else Across(l, cur.value, nx, ny)
  }

  /** On any layout; and on a disjoint one it is the screen under the target, if there is one. */
  lemma WhereMovesEnd(l: Desk, x: i32, y: i32, nx: i32, ny: i32)
    ensures MovePointer(l, x, y, nx, ny).screen == EndsOn(l, x, y, nx, ny)
    ensures Disjoint(l) ==>
              EndsOn(l, x, y, nx, ny) == if ScreenAt(l, nx, ny).Some? then ScreenAt(l, nx, ny) else ScreenAt(l, x, y)
  {
    if ScreenAt(l, x, y).Some? { MoveExactOrNearest(l, x, y, nx, ny); }
    if Disjoint(l) { MoveAgreesWithLookup(l, x, y, nx, ny); }
  }

  /** Some row runs through both. */
  ghost predicate ShareRow(s: Screen, d: Screen) { exists y: i32 :: s.Contains(s.x, y) && d.Contains(d.x, y) }

  ghost predicate ShareColumn(s: Screen, d: Screen) { exists x: i32 :: s.Contains(x, s.y) && d.Contains(x, d.y) }

  /** One begins exactly where the other ends, and along that edge they meet. */
  ghost predicate Borders(s: Screen, d: Screen) {
    || ((s.Right() == d.x || d.Right() == s.x) && ShareRow(s, d))
    || ((s.Bottom() == d.y || d.Bottom() == s.y) && ShareColumn(s, d))
  }

  lemma RowsOverlap(s: Screen, d: Screen)
    requires s.Fits() && d.Fits()
    ensures SpansOverlap(s.y, Sub32(s.Bottom(), 1), d.y, Sub32(d.Bottom(), 1)) <==> ShareRow(s, d)
  {
    var y := if s.y < d.y then d.y else s.y;
    assert s.Contains(s.x, y) && d.Contains(d.x, y) ==> ShareRow(s, d);
  }

  lemma ColumnsOverlap(s: Screen, d: Screen)
    requires s.Fits() && d.Fits()
    ensures SpansOverlap(s.x, Sub32(s.Right(), 1), d.x, Sub32(d.Right(), 1)) <==> ShareColumn(s, d)
  {
    var x := if s.x < d.x then d.x else s.x;
    assert s.Contains(x, s.y) && d.Contains(x, d.y) ==> ShareColumn(s, d);
  }

  /** Two screens are adjacent exactly when they meet along an edge. */
  lemma AdjacentIsBordering(s: Screen, d: Screen)
    requires s.Fits() && d.Fits()
    ensures Adjacent(s, d) <==> Borders(s, d)
  {
    RowsOverlap(s, d);
    ColumnsOverlap(s, d);
  }

  /** Screen i is another one, borders s and has the point. */
  ghost predicate Receives(l: Desk, s: Screen, nx: i32, ny: i32, i: nat)
    requires i < |l|
  {
    l[i].id != s.id && Borders(s, l[i]) && l[i].Contains(nx, ny)
  }

  /**
   A pointer that leaves its screen goes to the first neighbour across a shared
   edge that has the target, even if another screen there is listed earlier; only
   when no neighbour has it, to the first screen that does, or nowhere.
   */
  lemma NeighboursFirst(l: Desk, x: i32, y: i32, nx: i32, ny: i32)
    requires forall s :: s in l ==> s.Fits()
    requires ScreenAt(l, x, y).Some? && !ScreenAt(l, x, y).value.Contains(nx, ny)
    ensures var r := MovePointer(l, x, y, nx, ny); var s := ScreenAt(l, x, y).value;
            && (forall i :: 0 <= i < |l| && Receives(l, s, nx, ny, i) ==>
                  (forall j :: 0 <= j < i ==> !Receives(l, s, nx, ny, j)) ==> r.screen == Some(l[i]))
            && ((forall i :: 0 <= i < |l| ==> !Receives(l, s, nx, ny, i)) ==>
                  r.screen == if ScreenAt(l, nx, ny).Some? then ScreenAt(l, nx, ny) else Some(s))
  {
    var s := ScreenAt(l, x, y).value;
    forall i | 0 <= i < |l| ensures CrossesTo(s, l[i], nx, ny) <==> Receives(l, s, nx, ny, i) {
      assert l[i] in l;
      AdjacentIsBordering(s, l[i]);
    }
    var k := FirstCrossing(l, s, nx, ny);
    assert k < |l| ==> Receives(l, s, nx, ny, k);
  }

  /** An unclamped move is undone exactly by the opposite delta, on any layout and across wrap-around. */
  lemma MoveUndone(l: Desk, x: i32, y: i32, dx: i32, dy: i32)
    requires ScreenAt(l, x, y).Some?
    requires var r := MovePointer(l, x, y, Add32(x, dx), Add32(y, dy)); (r.x, r.y) == (Add32(x, dx), Add32(y, dy))
    ensures var r := MovePointer(l, x, y, Add32(x, dx), Add32(y, dy));
            var b := MovePointer(l, r.x, r.y, Add32(r.x, Sub32(0, dx)), Add32(r.y, Sub32(0, dy)));
            && (b.x, b.y) == (x, y)
            && (Disjoint(l) ==> b.screen == ScreenAt(l, x, y))
  {
    AddUndone(x, dx);
    AddUndone(y, dy);
    var nx, ny := Add32(x, dx), Add32(y, dy);
    MoveExactOrNearest(l, x, y, nx, ny);
    MoveExactOrNearest(l, nx, ny, x, y);
    if Disjoint(l) { MoveAgreesWithLookup(l, nx, ny, x, y); }
  }
}
