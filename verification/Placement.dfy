/**
 How rebuildLayout arranges the desktop: local screens first, then every ready
 peer's screens, placed by hand or in a row to the right of the local ones.
 */
module Placement {
  import opened Common
  import opened Layout
  import opened Coordinates
  import opened Sessions

  type Placements = map<ScreenID, Pos>

  /** Running maximum of the right edges, starting at 0. */
  function RightOf(l: Desk): (r: i32)
    ensures r >= 0 && forall s :: s in l ==> s.Right() <= r
  {
    if l == [] then 0
    else
      var r := RightOf(l[..|l| - 1]);
      var s := l[|l| - 1];
      if s.Right() > r then s.Right() else r
  }

  /** The y of the last primary screen, of the first screen when none is primary, else 0. */
  function RowY(l: Desk): i32 {
    if l == [] then 0
    else
      var s := l[|l| - 1];
      if s.primary || |l| == 1 then s.y else RowY(l[..|l| - 1])
  }

  function Relabel(screens: seq<Screen>, host: DeviceID): (r: seq<Screen>)
    ensures |r| == |screens|
    ensures forall i :: 0 <= i < |r| ==> r[i] == screens[i].(device := host)
  {
    if screens == [] then [] else [screens[0].(device := host)] + Relabel(screens[1..], host)
  }

  /** The screens of the ready peers, in enumeration order, labelled with their hostnames. */
  function Reported(peers: map<Addr, Peer>, order: seq<Addr>): seq<Screen> {
    if order == [] then []
    else if order[0] in peers && peers[order[0]].ready then
      Relabel(peers[order[0]].screens, peers[order[0]].host) + Reported(peers, order[1..])
    else Reported(peers, order[1..])
  }

  function Place(rs: seq<Screen>, byHand: Placements, right: i32, y: i32): (l: Desk)
    ensures |l| == |rs|
    decreases |rs|
  {
    if rs == [] then []
    else
      var s := rs[0];
      if s.id in byHand then
        [s.(x := byHand[s.id].x, y := byHand[s.id].y)] + Place(rs[1..], byHand, right, y)
      else [s.(x := right, y := y)] + Place(rs[1..], byHand, Add32(right, s.w), y)
  }

  lemma PlaceStep(s: Screen, rest: seq<Screen>, byHand: Placements, right: i32, y: i32)
    ensures Place([s] + rest, byHand, right, y) ==
            if s.id in byHand then
              [s.(x := byHand[s.id].x, y := byHand[s.id].y)] + Place(rest, byHand, right, y)
            else [s.(x := right, y := y)] + Place(rest, byHand, Add32(right, s.w), y)
  {
    assert ([s] + rest)[1..] == rest;
  }

  /** Placing changes only the position, and a manual placement is honoured. */
  lemma {:induction false} PlaceKeeps(rs: seq<Screen>, byHand: Placements, right: i32, y: i32, i: nat)
    requires i < |rs|
    ensures var s := Place(rs, byHand, right, y)[i];
            && s == rs[i].(x := s.x, y := s.y)
            && (rs[i].id in byHand ==> Pos(s.x, s.y) == byHand[rs[i].id])
    decreases |rs|
  {
    assert rs == [rs[0]] + rs[1..];
    PlaceStep(rs[0], rs[1..], byHand, right, y);
    if i > 0 {
      PlaceKeeps(rs[1..], byHand, if rs[0].id in byHand then right else Add32(right, rs[0].w), y, i - 1);
    }
  }

  lemma RelabelStep(screens: seq<Screen>, j: nat, host: DeviceID, later: seq<Screen>)
    requires j < |screens|
    ensures Relabel(screens[j..], host) + later ==
            [screens[j].(device := host)] + (Relabel(screens[j + 1..], host) + later)
  {
    assert screens[j..][1..] == screens[j + 1..];
  }

  function BuildDesk(own: Desk, peers: map<Addr, Peer>, byHand: Placements, order: seq<Addr>): Desk {
    own + Place(Reported(peers, order), byHand, RightOf(own), RowY(own))
  }

  /** Total width of the automatically placed screens. */
  function AutoWidth(rs: seq<Screen>, byHand: Placements): int
    decreases |rs|
  {
    if rs == [] then 0
    else (if rs[0].id in byHand then 0 else rs[0].w as int) + AutoWidth(rs[1..], byHand)
  }

  /** The explicit bound: sizes are positive, and neither the row's width nor its height overflows int32. */
  ghost predicate RowFits(rs: seq<Screen>, byHand: Placements, right: i32, y: i32) {
    && (forall s :: s in rs && s.id !in byHand ==> s.w > 0 && s.h > 0 && y + s.h < TWO31)
    && right + AutoWidth(rs, byHand) < TWO31
  }

  lemma {:induction false} AutoWidthNonNegative(rs: seq<Screen>, byHand: Placements)
    requires forall s :: s in rs && s.id !in byHand ==> s.w > 0
    ensures AutoWidth(rs, byHand) >= 0
    decreases |rs|
  {
    if rs != [] {
      assert forall s :: s in rs[1..] ==> s in rs;
      AutoWidthNonNegative(rs[1..], byHand);
      assert rs[0] in rs;
    }
  }

  lemma WidthStep(s: Screen, rest: seq<Screen>, byHand: Placements)
    ensures AutoWidth([s] + rest, byHand) == (if s.id in byHand then 0 else s.w as int) + AutoWidth(rest, byHand)
  {
    assert ([s] + rest)[1..] == rest;
  }

  lemma RowFitsTail(s: Screen, rest: seq<Screen>, byHand: Placements, right: i32, y: i32)
    requires RowFits([s] + rest, byHand, right, y)
    ensures var next := if s.id in byHand then right else Add32(right, s.w);
            && RowFits(rest, byHand, next, y) && AutoWidth(rest, byHand) >= 0
            && next == right + (if s.id in byHand then 0 else s.w as int)
            && next + AutoWidth(rest, byHand) == right + AutoWidth([s] + rest, byHand)
  {
    assert s in [s] + rest;
    assert forall t :: t in rest ==> t in [s] + rest;
    AutoWidthNonNegative(rest, byHand);
    WidthStep(s, rest, byHand);
  }

  /**
   Where the row puts screen i: no running sum overflows, and x is the start of
   the row plus the widths of the automatically placed screens before it.
   */
  lemma {:induction false} RowPosition(rs: seq<Screen>, byHand: Placements, right: i32, y: i32, i: nat)
    requires i < |rs| && rs[i].id !in byHand
    requires RowFits(rs, byHand, right, y)
    ensures var s := Place(rs, byHand, right, y)[i];
            && s.x == right + AutoWidth(rs[..i], byHand)
            && s.x + s.w <= right + AutoWidth(rs, byHand)
            && s.x >= right && s.y == y
    decreases |rs|
  {
    var s0, tail := rs[0], rs[1..];
    assert rs == [s0] + tail;
    RowFitsTail(s0, tail, byHand, right, y);
    PlaceStep(s0, tail, byHand, right, y);
    if i > 0 {
      var next := if s0.id in byHand then right else Add32(right, s0.w);
      RowPosition(tail, byHand, next, y, i - 1);
      assert rs[..i] == [s0] + tail[..i - 1];
      WidthStep(s0, tail[..i - 1], byHand);
    }
  }

  /** Hence every automatically placed screen keeps within int32. */
  lemma RowScreenFits(rs: seq<Screen>, byHand: Placements, right: i32, y: i32, i: nat)
    requires i < |rs| && rs[i].id !in byHand
    requires RowFits(rs, byHand, right, y)
    ensures Place(rs, byHand, right, y)[i].Fits()
  {
    RowPosition(rs, byHand, right, y, i);
    PlaceKeeps(rs, byHand, right, y, i);
    assert rs[i] in rs;
  }

  lemma {:induction false} AutoWidthSplit(rs: seq<Screen>, byHand: Placements, i: nat, j: nat)
    requires i <= j <= |rs|
    ensures AutoWidth(rs[..j], byHand) == AutoWidth(rs[..i], byHand) + AutoWidth(rs[i..j], byHand)
    decreases i
  {
    if i == 0 {
      assert rs[..j] == rs[i..j];
    } else {
      AutoWidthSplit(rs[1..], byHand, i - 1, j - 1);
      assert rs[..j][1..] == rs[1..][..j - 1] && rs[..i][1..] == rs[1..][..i - 1];
      assert rs[i..j] == rs[1..][i - 1..j - 1];
    }
  }

  lemma {:induction false} NoAutoNoWidth(rs: seq<Screen>, byHand: Placements)
    requires forall s :: s in rs ==> s.id in byHand
    ensures AutoWidth(rs, byHand) == 0
    decreases |rs|
  {
    if rs != [] {
      assert rs[0] in rs;
      NoAutoNoWidth(rs[1..], byHand);
    }
  }

  /** Only hand-placed screens lie strictly between i and j. */
  ghost predicate Consecutive(rs: seq<Screen>, byHand: Placements, i: nat, j: nat)
    requires i < j < |rs|
  {
    forall k :: i < k < j ==> rs[k].id in byHand
  }

  lemma WidthBetween(rs: seq<Screen>, byHand: Placements, i: nat, j: nat)
    requires i < j < |rs| && rs[i].id !in byHand
    requires forall s :: s in rs && s.id !in byHand ==> s.w > 0
    ensures AutoWidth(rs[i..j], byHand) >= rs[i].w
    ensures Consecutive(rs, byHand, i, j) ==> AutoWidth(rs[i..j], byHand) == rs[i].w
  {
    var mid := rs[i..j];
    var rest := rs[i + 1..j];
    assert mid[0] == rs[i] && mid[1..] == rest;
    assert forall s :: s in rest ==> s in rs;
    AutoWidthNonNegative(rest, byHand);
    if Consecutive(rs, byHand, i, j) {
      forall s | s in rest ensures s.id in byHand {
        var k :| 0 <= k < |rest| && rest[k] == s;
        assert rs[i + 1 + k] == s;
      }
      NoAutoNoWidth(rest, byHand);
    }
  }

  /**
   Automatically placed screens sit in one row, left to right in report order;
   neighbours in the row share an edge exactly.
   */
  lemma RowOrder(rs: seq<Screen>, byHand: Placements, right: i32, y: i32, i: nat, j: nat)
    requires i < j < |rs| && rs[i].id !in byHand && rs[j].id !in byHand
    requires RowFits(rs, byHand, right, y)
    ensures var s, d := Place(rs, byHand, right, y)[i], Place(rs, byHand, right, y)[j];
            && s.x + s.w <= d.x && s.y == d.y == y && s.Fits() && d.Fits() && s.x >= right
            && (Consecutive(rs, byHand, i, j) ==> s.x + s.w == d.x)
  {
    RowPosition(rs, byHand, right, y, i);
    RowPosition(rs, byHand, right, y, j);
    RowScreenFits(rs, byHand, right, y, i);
    RowScreenFits(rs, byHand, right, y, j);
    PlaceKeeps(rs, byHand, right, y, i);
    assert rs[i] in rs;
    AutoWidthSplit(rs, byHand, i, j);
    WidthBetween(rs, byHand, i, j);
  }

  lemma SideBySide(s: Screen, d: Screen)
    requires s.Fits() && d.Fits() && s.y == d.y && s.x + s.w <= d.x
    ensures Apart(s, d)
    ensures s.x + s.w == d.x ==> Adjacent(s, d)
  {
  }

  lemma RightOfAll(own: Desk, s: Screen)
    requires s.x >= RightOf(own)
    ensures forall k :: 0 <= k < |own| ==> Apart(own[k], s)
  {
    forall k | 0 <= k < |own| ensures Apart(own[k], s) {
      assert own[k] in own;
    }
  }

  /** An automatically placed screen never touches a local one, and its far edges do not overflow. */
  lemma AutoPlacedOffLocal(own: Desk, peers: map<Addr, Peer>, byHand: Placements, order: seq<Addr>, i: nat)
    requires var rs := Reported(peers, order);
             i < |rs| && rs[i].id !in byHand && RowFits(rs, byHand, RightOf(own), RowY(own))
    ensures var l := BuildDesk(own, peers, byHand, order);
            && l[|own| + i].Fits()
            && (forall k :: 0 <= k < |own| ==> l[k] == own[k] && Apart(own[k], l[|own| + i]))
  {
    RowPosition(Reported(peers, order), byHand, RightOf(own), RowY(own), i);
    RowScreenFits(Reported(peers, order), byHand, RightOf(own), RowY(own), i);
    RightOfAll(own, BuildDesk(own, peers, byHand, order)[|own| + i]);
  }

  /**
   For any peers in any enumeration order, any reported screens and any manual
   placements: automatically placed screens are disjoint from each other,
   and consecutive ones are adjacent.
   */
  lemma AutoPlacedApart(own: Desk, peers: map<Addr, Peer>, byHand: Placements, order: seq<Addr>, i: nat, j: nat)
    requires var rs := Reported(peers, order);
             && i < j < |rs| && rs[i].id !in byHand && rs[j].id !in byHand
             && RowFits(rs, byHand, RightOf(own), RowY(own))
    ensures var l := BuildDesk(own, peers, byHand, order);
            var s, d := l[|own| + i], l[|own| + j];
            && Apart(s, d)
            && (Consecutive(Reported(peers, order), byHand, i, j) ==> Adjacent(s, d))
  {
    var rs := Reported(peers, order);
    var l := BuildDesk(own, peers, byHand, order);
    RowOrder(rs, byHand, RightOf(own), RowY(own), i, j);
    SideBySide(l[|own| + i], l[|own| + j]);
  }

  /** Where the row is level: with the last primary local screen, or the first local one if none is primary. */
  ghost predicate IsRowLevel(own: Desk, y: int) {
    || (exists k :: 0 <= k < |own| && own[k].primary && own[k].y == y && forall j :: k < j < |own| ==> !own[j].primary)
    || ((forall s :: s in own ==> !s.primary) && y == if own == [] then 0 else own[0].y as int)
  }

  /** Where the row starts: at the rightmost right edge of the local screens, or at 0 if none reaches beyond. */
  ghost predicate IsRowStart(own: Desk, x: int) {
    x >= 0 && (forall s :: s in own ==> s.Right() <= x) && (x == 0 || exists s :: s in own && x == s.Right())
  }

  /** A further screen that is not primary leaves the level of the row. */
  lemma LevelStays(front: Desk, s: Screen, y: i32)
    requires front != [] && !s.primary && IsRowLevel(front, y)
    ensures IsRowLevel(front + [s], y)
  {
    var own := front + [s];
    if k :| 0 <= k < |front| && front[k].primary && front[k].y == y &&
            forall j :: k < j < |front| ==> !front[j].primary {
      assert own[k] == front[k] && forall j :: k < j < |own| ==> !own[j].primary;
    }
  }

  lemma {:induction false} RowYLevel(own: Desk)
    ensures IsRowLevel(own, RowY(own))
  {
    if own != [] && !own[|own| - 1].primary && |own| > 1 {
      var front := own[..|own| - 1];
      RowYLevel(front);
      LevelStays(front, own[|own| - 1], RowY(front));
      assert own == front + [own[|own| - 1]];
    }
  }

  lemma {:induction false} RightOfStart(own: Desk)
    ensures IsRowStart(own, RightOf(own))
  {
    if own != [] {
      RightOfStart(own[..|own| - 1]);
      assert own[|own| - 1] in own;
    }
  }

  lemma {:induction false} PlacedLevel(rs: seq<Screen>, byHand: Placements, right: i32, y: i32, i: nat)
    requires i < |rs| && rs[i].id !in byHand
    ensures Place(rs, byHand, right, y)[i].y == y
    decreases |rs|
  {
    assert rs == [rs[0]] + rs[1..];
    PlaceStep(rs[0], rs[1..], byHand, right, y);
    if i > 0 {
      PlacedLevel(rs[1..], byHand, if rs[0].id in byHand then right else Add32(right, rs[0].w), y, i - 1);
    }
  }

  /**
   Where an automatic screen goes: level with the row, and as far from its start
   as the automatic screens before it are wide together.
   */
  lemma AutoPlacedAt(own: Desk, peers: map<Addr, Peer>, byHand: Placements, order: seq<Addr>, i: nat)
    requires var rs := Reported(peers, order); i < |rs| && rs[i].id !in byHand
    ensures var rs := Reported(peers, order); var s := BuildDesk(own, peers, byHand, order)[|own| + i];
            && IsRowLevel(own, s.y)
            && (RowFits(rs, byHand, RightOf(own), RowY(own)) ==> IsRowStart(own, s.x - AutoWidth(rs[..i], byHand)))
            && ((forall t :: t in rs[..i] ==> t.id in byHand) ==> IsRowStart(own, s.x))
  {
    var rs := Reported(peers, order);
    PlacedLevel(rs, byHand, RightOf(own), RowY(own), i);
    RowYLevel(own);
    RightOfStart(own);
    if RowFits(rs, byHand, RightOf(own), RowY(own)) { RowPosition(rs, byHand, RightOf(own), RowY(own), i); }
    if forall t :: t in rs[..i] ==> t.id in byHand { FirstAutoAt(rs, byHand, RightOf(own), RowY(own), i); }
  }

  lemma {:induction false} FirstAutoAt(rs: seq<Screen>, byHand: Placements, right: i32, y: i32, i: nat)
    requires i < |rs| && rs[i].id !in byHand && forall t :: t in rs[..i] ==> t.id in byHand
    ensures Place(rs, byHand, right, y)[i].x == right
    decreases |rs|
  {
    assert rs == [rs[0]] + rs[1..];
    PlaceStep(rs[0], rs[1..], byHand, right, y);
    if i > 0 {
      assert rs[0] in rs[..i] && rs[..i] == [rs[0]] + rs[1..][..i - 1];
      FirstAutoAt(rs[1..], byHand, right, y, i - 1);
    }
  }

  /** Entry k of the arrangement was placed by hand. */
  predicate ByHand(own: Desk, rs: seq<Screen>, byHand: Placements, k: nat) {
    |own| <= k < |own| + |rs| && rs[k - |own|].id in byHand
  }

  /** Exactly when an arrangement is disjoint: its hand-placed screens are apart from all others. */
  lemma DeskDisjointIff(own: Desk, peers: map<Addr, Peer>, byHand: Placements, order: seq<Addr>)
    requires Disjoint(own) && RowFits(Reported(peers, order), byHand, RightOf(own), RowY(own))
    ensures var rs := Reported(peers, order); var l := BuildDesk(own, peers, byHand, order);
            Disjoint(l) <==>
            forall i, j ::
              0 <= i < j < |l| && (ByHand(own, rs, byHand, i) || ByHand(own, rs, byHand, j)) ==> Apart(l[i], l[j])
  {
    var rs := Reported(peers, order);
    var l := BuildDesk(own, peers, byHand, order);
    forall i, j | 0 <= i < j < |l| && !ByHand(own, rs, byHand, i) && !ByHand(own, rs, byHand, j)
      ensures Apart(l[i], l[j])
    {
      if j < |own| {
        assert l[i] == own[i] && l[j] == own[j];
      } else if i < |own| {
        AutoPlacedOffLocal(own, peers, byHand, order, j - |own|);
      } else {
        AutoPlacedApart(own, peers, byHand, order, i - |own|, j - |own|);
      }
    }
  }

  lemma {:induction false} ReportedFrom(peers: map<Addr, Peer>, order: seq<Addr>, s: Screen)
    ensures s in Reported(peers, order) <==>
            exists a, ps :: a in order && a in peers && peers[a].ready && ps in peers[a].screens &&
              s == ps.(device := peers[a].host)
  {
    if order != [] {
      ReportedFrom(peers, order[1..], s);
      var a := order[0];
      if a in peers && peers[a].ready {
        var r := Relabel(peers[a].screens, peers[a].host);
        if s in r {
          var i :| 0 <= i < |r| && r[i] == s;
          assert peers[a].screens[i] in peers[a].screens;
        }
        if ps :| ps in peers[a].screens && s == ps.(device := peers[a].host) {
          var i :| 0 <= i < |r| && peers[a].screens[i] == ps;
          assert r[i] == s;
        }
      }
      assert order == [a] + order[1..];
    }
  }

  /** Every screen a ready peer reported is on the desk with its id and size, labelled with the peer's hostname. */
  lemma ReportedArePlaced(own: Desk, peers: map<Addr, Peer>, byHand: Placements, order: seq<Addr>, a: Addr)
    requires a in order && a in peers && peers[a].ready
    ensures Placed(peers[a].screens, BuildDesk(own, peers, byHand, order))
    ensures forall ps :: ps in peers[a].screens ==>
                           exists s :: s in BuildDesk(own, peers, byHand, order) && CopyOf(s, ps) &&
                             s.device == peers[a].host
  {
    var rs := Reported(peers, order);
    var l := BuildDesk(own, peers, byHand, order);
    forall ps | ps in peers[a].screens
      ensures exists s :: s in l && CopyOf(s, ps) && s.device == peers[a].host
    {
      var t := ps.(device := peers[a].host);
      ReportedFrom(peers, order, t);
      var i :| 0 <= i < |rs| && rs[i] == t;
      PlaceKeeps(rs, byHand, RightOf(own), RowY(own), i);
      assert l[|own| + i] == Place(rs, byHand, RightOf(own), RowY(own))[i];
    }
  }

  /** Conversely, every screen past the local ones is a copy of one a ready peer reported, under its hostname. */
  lemma PlacedAreReported(own: Desk, peers: map<Addr, Peer>, byHand: Placements, order: seq<Addr>, i: nat)
    requires |own| <= i < |BuildDesk(own, peers, byHand, order)|
    ensures var s := BuildDesk(own, peers, byHand, order)[i];
            exists a, ps :: a in order && a in peers && peers[a].ready && s.device == peers[a].host &&
                            ps in peers[a].screens && CopyOf(s, ps)
  {
    var rs := Reported(peers, order);
    var t := rs[i - |own|];
    ReportedFrom(peers, order, t);
    var a, ps :| a in order && a in peers && peers[a].ready && ps in peers[a].screens &&
      t == ps.(device := peers[a].host);
    PlaceKeeps(rs, byHand, RightOf(own), RowY(own), i - |own|);
    assert CopyOf(BuildDesk(own, peers, byHand, order)[i], ps);
  }
}
