/**
 Scroll normalisation on macOS (platform/capture/capture_darwin.go): trackpad
 pixels accumulate into lines, and the micro-events of one wheel detent become
 one unit. Times are in nanoseconds.
 */
module Scrolls {
  import opened Common

  const LINE_PX: real := 200.0
  const TRACKPAD_INTERVAL: int := 16_000_000
  const CLUSTER_WINDOW: int := 120_000_000

  /** One OnScroll call; notch tells wheel units from trackpad lines and is read by no code. */
  datatype Unit = Unit(dx: i32, dy: i32, notch: bool)

  /** A continuous event, a discrete one, or a wakeup without events. */
  datatype Item = Pixels(d1: real, d2: real, now: int) | Notch(d1: real, d2: real, now: int) | Idle(now: int)

  datatype Scroll = Scroll(accX: real, accY: real, lastEmit: int, dirX: i32, dirY: i32, last: int) {
    predicate Collecting() { dirY != 0 || dirX != 0 }
  }

  datatype Turn = Turn(s: Scroll, out: seq<Unit>)

  function SignOf(v: real): i32 { if v > 0.0 then 1 else if v < 0.0 then -1 else 0 }

  predicate InRange(v: real) { -2147483649.0 < v < 2147483648.0 }

  /** int32(v): toward zero, and the smallest int32 when v is out of range. */
  function Int32(v: real): i32 {
    if !InRange(v) then -0x8000_0000
    else if v >= 0.0 then v.Floor
    else -(-v).Floor
  }

  function Flush(s: Scroll): Turn {
    if !s.Collecting() then Turn(s, []) else Turn(s.(dirX := 0, dirY := 0), [Unit(s.dirX, s.dirY, true)])
  }

  function OnPixels(s: Scroll, d1: real, d2: real, now: int): Turn {
    var s1 := s.(accX := s.accX + d2 / LINE_PX, accY := s.accY + d1 / LINE_PX);
    var dx, dy := Int32(s1.accX), Int32(s1.accY);
    if now - s.lastEmit < TRACKPAD_INTERVAL || (dx == 0 && dy == 0) then Turn(s1, [])
    else Turn(s1.(accX := s1.accX - dx as real, accY := s1.accY - dy as real, lastEmit := now), [Unit(dx, dy, false)])
  }

  function OnNotch(s: Scroll, d1: real, d2: real, now: int): Turn {
    var sy, sx := SignOf(d1), SignOf(d2);
    if s.Collecting() && now - s.last < CLUSTER_WINDOW
       && (sy == 0 || s.dirY == 0 || sy == s.dirY) && (sx == 0 || s.dirX == 0 || sx == s.dirX)
    then Turn(s.(last := now), [])
    else
      var f := Flush(s);
      Turn(f.s.(dirX := sx, dirY := sy, last := now), f.out)
  }

  function OnIdle(s: Scroll, now: int): Turn {
    if s.Collecting() && now - s.last >= CLUSTER_WINDOW then Flush(s) else Turn(s, [])
  }

  function Feed(s: Scroll, item: Item): Turn {
    match item
    case Pixels(d1, d2, now) => OnPixels(s, d1, d2, now)
    case Notch(d1, d2, now) => OnNotch(s, d1, d2, now)
    case Idle(now) => OnIdle(s, now)
  }

  function FeedAll(s: Scroll, items: seq<Item>): Turn {
    if items == [] then Turn(s, [])
    else
      var t := FeedAll(s, items[..|items| - 1]);
      var u := Feed(t.s, items[|items| - 1]);
      Turn(u.s, t.out + u.out)
  }

  /** scrollState, updated in place; each method returns the calls it made. */
  class ScrollState {
    var accX: real
    var accY: real
    var lastEmit: int
    var dirX: i32
    var dirY: i32
    var last: int

    function View(): Scroll
      reads this
    {
      Scroll(accX, accY, lastEmit, dirX, dirY, last)
    }

    /** start is Go's zero time, before any clock reading. */
    constructor (start: int)
      ensures View() == Scroll(0.0, 0.0, start, 0, 0, start)
    {
      accX, accY, lastEmit, dirX, dirY, last := 0.0, 0.0, start, 0, 0, start;
    }

    method FlushDetent() returns (out: seq<Unit>)
      modifies this
      ensures Turn(View(), out) == Flush(old(View()))
    {
      if dirY == 0 && dirX == 0 {
        return [];
      }
      out := [Unit(dirX, dirY, true)];
      dirX, dirY := 0, 0;
    }

    /** The scroll branch of dispatch. */
    method Dispatch(d1: real, d2: real, continuous: bool, now: int) returns (out: seq<Unit>)
      modifies this
      ensures Turn(View(), out) == Feed(old(View()), if continuous then Pixels(d1, d2, now) else Notch(d1, d2, now))
    {
      out := [];
      if continuous {
        accX, accY := accX + d2 / LINE_PX, accY + d1 / LINE_PX;
        if now - lastEmit < TRACKPAD_INTERVAL {
          return;
        }
        var dx, dy := Int32(accX), Int32(accY);
        if dx == 0 && dy == 0 {
          return;
        }
        accX, accY, lastEmit := accX - dx as real, accY - dy as real, now;
        return [Unit(dx, dy, false)];
      }
      var sy, sx := SignOf(d1), SignOf(d2);
      if dirY != 0 || dirX != 0 {
        var sameDetent := now - last < CLUSTER_WINDOW
          && (sy == 0 || dirY == 0 || sy == dirY)
          && (sx == 0 || dirX == 0 || sx == dirX);
        if sameDetent {
          last := now;
          return;
        }
        out := FlushDetent();
      }
      if sy != 0 { dirY := sy; }
      if sx != 0 { dirX := sx; }
      last := now;
    }

    /** A wakeup without events. */
    method Wake(now: int) returns (out: seq<Unit>)
      modifies this
      ensures Turn(View(), out) == OnIdle(old(View()), now)
    {
      out := [];
      if (dirY != 0 || dirX != 0) && now - last >= CLUSTER_WINDOW {
        out := FlushDetent();
      }
    }
  }

  function Lines(out: seq<Unit>): (int, int) {
    if out == [] then (0, 0)
    else
      var (x, y) := Lines(out[..|out| - 1]);
      var u := out[|out| - 1];
      if u.notch then (x, y) else (x + u.dx, y + u.dy)
  }

  function PixelsOf(item: Item): (real, real) {
    match item
    case Pixels(d1, d2, _) => (d2, d1)
    case _ => (0.0, 0.0)
  }

  /** Total pixels, across and down. */
  function PixelSum(items: seq<Item>): (real, real) {
    if items == [] then (0.0, 0.0)
    else
      var (x, y) := PixelSum(items[..|items| - 1]);
      var p := PixelsOf(items[|items| - 1]);
      (x + p.0, y + p.1)
  }

  lemma {:induction false} LinesAppend(a: seq<Unit>, b: seq<Unit>)
    ensures Lines(a + b) == (Lines(a).0 + Lines(b).0, Lines(a).1 + Lines(b).1)
  {
    if b == [] {
      assert a + b == a;
    } else {
      assert (a + b)[..|a + b| - 1] == a + b[..|b| - 1];
      LinesAppend(a, b[..|b| - 1]);
    }
  }

  lemma LinesOne(u: Unit)
    ensures Lines([u]) == if u.notch then (0, 0) else (u.dx as int, u.dy as int)
  {
    assert [u][..0] == [];
  }

  lemma PixelsStep(s: Scroll, item: Item)
    ensures var t := Feed(s, item); var p := PixelsOf(item);
            && Lines(t.out).0 as real + t.s.accX == s.accX + p.0 / LINE_PX
            && Lines(t.out).1 as real + t.s.accY == s.accY + p.1 / LINE_PX
  {
    var t := Feed(s, item);
    if t.out != [] {
      LinesOne(t.out[0]);
      assert t.out == [t.out[0]];
    }
  }

  /**
   No movement is lost or invented: over any mix of events, the lines emitted
   plus what remains in the accumulator equal the pixels divided by 200.
   */
  lemma {:induction false} PixelsConserved(s: Scroll, items: seq<Item>)
    ensures var t := FeedAll(s, items);
            && Lines(t.out).0 as real + t.s.accX == s.accX + PixelSum(items).0 / 200.0
            && Lines(t.out).1 as real + t.s.accY == s.accY + PixelSum(items).1 / 200.0
  {
    if items != [] {
      var front, item := items[..|items| - 1], items[|items| - 1];
      PixelsConserved(s, front);
      var t := FeedAll(s, front);
      PixelsStep(t.s, item);
      LinesAppend(t.out, Feed(t.s, item).out);
    }
  }

  /** When trackpad lines were emitted, in order. */
  function LineTimes(s: Scroll, items: seq<Item>): seq<int> {
    if items == [] then []
    else
      var front, item := items[..|items| - 1], items[|items| - 1];
      var before := LineTimes(s, front);
      if item.Pixels? && Feed(FeedAll(s, front).s, item).out != [] then before + [item.now] else before
  }

  /** Lines note when they go out, and nothing else does. */
  lemma OnePaced(s: Scroll, item: Item)
    ensures var t := Feed(s, item);
            if item.Pixels? && t.out != [] then t.s.lastEmit == item.now && item.now - s.lastEmit >= 16_000_000
            else t.s.lastEmit == s.lastEmit
  {
  }

  /** Lines go out no sooner than 16 milliseconds after the last ones, whatever comes in between. */
  lemma {:induction false} LinesArePaced(s: Scroll, items: seq<Item>)
    ensures var ts := LineTimes(s, items);
            && (forall k :: 0 < k < |ts| ==> ts[k] - ts[k - 1] >= 16_000_000)
            && (ts != [] ==> ts[0] - s.lastEmit >= 16_000_000)
            && FeedAll(s, items).s.lastEmit == if ts == [] then s.lastEmit else ts[|ts| - 1]
  {
    if items != [] {
      var front := items[..|items| - 1];
      LinesArePaced(s, front);
      OnePaced(FeedAll(s, front).s, items[|items| - 1]);
    }
  }

  /**
   And then they do: when the time has passed, lines go out as soon as there is
   a whole one in either direction.
   */
  lemma LinesGoOut(s: Scroll, d1: real, d2: real, now: int)
    requires now - s.lastEmit >= 16_000_000
    ensures var x, y := s.accX + d2 / 200.0, s.accY + d1 / 200.0;
            InRange(x) && InRange(y) ==>
              (OnPixels(s, d1, d2, now).out == [] <==> -1.0 < x < 1.0 && -1.0 < y < 1.0)
  {
  }

  /** int32 keeps less than one back, on the same side of zero, exactly when the value is in range. */
  lemma Truncation(v: real)
    ensures -1.0 < v - Int32(v) as real < 1.0 <==> InRange(v)
    ensures InRange(v) ==> (v >= 0.0 ==> v - Int32(v) as real >= 0.0) && (v <= 0.0 ==> v - Int32(v) as real <= 0.0)
  {
  }

  /**
   After an unthrottled step less than one line is held back in each direction,
   exactly when the accumulators fit in int32; the remainder never changes sign.
   */
  lemma ResidualBelowOne(s: Scroll, d1: real, d2: real, now: int)
    requires now - s.lastEmit >= TRACKPAD_INTERVAL
    ensures var x, y := s.accX + d2 / LINE_PX, s.accY + d1 / LINE_PX; var t := OnPixels(s, d1, d2, now).s;
            && (-1.0 < t.accX < 1.0 <==> InRange(x)) && (-1.0 < t.accY < 1.0 <==> InRange(y))
            && (InRange(x) ==> (x >= 0.0 ==> t.accX >= 0.0) && (x <= 0.0 ==> t.accX <= 0.0))
            && (InRange(y) ==> (y >= 0.0 ==> t.accY >= 0.0) && (y <= 0.0 ==> t.accY <= 0.0))
  {
    var x, y := s.accX + d2 / LINE_PX, s.accY + d1 / LINE_PX;
    var t := OnPixels(s, d1, d2, now).s;
    assert t.accX == x - Int32(x) as real && t.accY == y - Int32(y) as real;
    Truncation(x);
    Truncation(y);
  }

  /** A discrete event: its direction and when it came. */
  datatype Tick = Tick(sx: i32, sy: i32, now: int)

  function TickOf(d1: real, d2: real, now: int): Tick { Tick(SignOf(d2), SignOf(d1), now) }

  function Ticks(items: seq<Item>): seq<Tick> {
    if items == [] then []
    else
      var rest := Ticks(items[..|items| - 1]);
      match items[|items| - 1]
      case Notch(d1, d2, now) => rest + [TickOf(d1, d2, now)]
      case _ => rest
  }

  predicate Agree(a: Tick, b: Tick) {
    (a.sy == 0 || b.sy == 0 || a.sy == b.sy) && (a.sx == 0 || b.sx == 0 || a.sx == b.sx)
  }

  /** Event i belongs with event o: no gap of a window in between, and no direction against that of o. */
  predicate Together(evs: seq<Tick>, o: nat, i: nat)
    requires o <= i < |evs|
  {
    forall j :: o < j <= i ==> evs[j].now - evs[j - 1].now < CLUSTER_WINDOW && Agree(evs[j], evs[o])
  }

  /** Event i starts a detent: it has a direction and belongs with no earlier start. */
  predicate Starts(evs: seq<Tick>, i: nat)
    requires i < |evs|
    decreases i
  {
    (evs[i].sx != 0 || evs[i].sy != 0) && forall o :: 0 <= o < i && Starts(evs, o) ==> !Together(evs, o, i)
  }

  /** One unit for each start among the first n events, in the direction of that event. */
  function Detents(evs: seq<Tick>, n: nat): seq<Unit>
    requires n <= |evs|
  {
    if n == 0 then []
    else Detents(evs, n - 1) + if Starts(evs, n - 1) then [Unit(evs[n - 1].sx, evs[n - 1].sy, true)] else []
  }

  function Notches(out: seq<Unit>): seq<Unit> {
    if out == [] then []
    else Notches(out[..|out| - 1]) + if out[|out| - 1].notch then [out[|out| - 1]] else []
  }

  lemma {:induction false} NotchesAppend(a: seq<Unit>, b: seq<Unit>)
    ensures Notches(a + b) == Notches(a) + Notches(b)
  {
    if b == [] {
      assert a + b == a;
    } else {
      assert (a + b)[..|a + b| - 1] == a + b[..|b| - 1];
      NotchesAppend(a, b[..|b| - 1]);
    }
  }

  /** Looking at an event never depends on later ones. */
  lemma {:induction false} StartsPrefix(evs: seq<Tick>, e: Tick, i: nat)
    requires i < |evs|
    ensures Starts(evs + [e], i) == Starts(evs, i)
    decreases i
  {
    forall o | 0 <= o < i
      ensures Starts(evs + [e], o) == Starts(evs, o) && Together(evs + [e], o, i) == Together(evs, o, i)
    {
      StartsPrefix(evs, e, o);
      assert forall j :: 0 <= j <= i ==> (evs + [e])[j] == evs[j];
    }
  }

  lemma {:induction false} DetentsPrefix(evs: seq<Tick>, e: Tick, n: nat)
    requires n <= |evs|
    ensures Detents(evs + [e], n) == Detents(evs, n)
  {
    if n > 0 {
      DetentsPrefix(evs, e, n - 1);
      StartsPrefix(evs, e, n - 1);
    }
  }

  /** The detent being collected when the last event came: its first event. */
  ghost predicate Owner(evs: seq<Tick>, o: nat) {
    o < |evs| && Starts(evs, o) && Together(evs, o, |evs| - 1)
  }

  lemma OwnerUnique(evs: seq<Tick>, o: nat, p: nat)
    requires Owner(evs, o) && Owner(evs, p)
    ensures o == p
  {
    if o < p {
      assert Together(evs, o, p);
    } else if p < o {
      assert Together(evs, p, o);
    }
  }

  /** When the newest event belongs with an earlier one. */
  lemma TogetherNext(evs: seq<Tick>, e: Tick, p: nat)
    requires p < |evs|
    ensures Together(evs + [e], p, |evs|) <==>
            Together(evs, p, |evs| - 1) && e.now - evs[|evs| - 1].now < CLUSTER_WINDOW && Agree(e, evs[p])
  {
    var evs', n := evs + [e], |evs|;
    assert forall j :: 0 <= j < n ==> evs'[j] == evs[j];
    assert evs'[n] == e;
  }

  /** Which old event owns the newest one: the old owner, if the newest event joins it. */
  lemma OldOwner(evs: seq<Tick>, e: Tick, p: nat)
    requires p < |evs|
    ensures Owner(evs + [e], p) <==> Owner(evs, p) && e.now - evs[|evs| - 1].now < CLUSTER_WINDOW && Agree(e, evs[p])
  {
    StartsPrefix(evs, e, p);
    TogetherNext(evs, e, p);
  }

  /** The newest event starts a detent exactly when it has a direction and no old event owns it. */
  lemma NewStart(evs: seq<Tick>, e: Tick)
    ensures Starts(evs + [e], |evs|) <==>
            (e.sx != 0 || e.sy != 0) && forall p: nat :: p < |evs| ==> !Owner(evs + [e], p)
    ensures Owner(evs + [e], |evs|) == Starts(evs + [e], |evs|)
  {
    var evs', n := evs + [e], |evs|;
    assert evs'[n] == e;
    assert forall p: nat :: p < n ==> Owner(evs', p) == (Starts(evs', p) && Together(evs', p, n));
  }

  /**
   With one more event, the owner stays when the event joins it; otherwise the
   event starts anew if it has a direction.
   */
  lemma NextOwner(evs: seq<Tick>, e: Tick, o: nat)
    requires Owner(evs, o)
    ensures var join := e.now - evs[|evs| - 1].now < CLUSTER_WINDOW && Agree(e, evs[o]);
            && Owner(evs + [e], o) == join
            && (forall p: nat :: p < |evs| && p != o ==> !Owner(evs + [e], p))
            && Starts(evs + [e], |evs|) == (!join && (e.sx != 0 || e.sy != 0))
  {
    forall p: nat | p < |evs| ensures Owner(evs + [e], p) ==> p == o && Owner(evs, p) {
      OldOwner(evs, e, p);
      if Owner(evs, p) { OwnerUnique(evs, o, p); }
    }
    OldOwner(evs, e, o);
    NewStart(evs, e);
  }

  /** Nothing is being collected: an event starts a detent exactly when it has a direction. */
  lemma NextFree(evs: seq<Tick>, e: Tick)
    requires (forall o: nat :: !Owner(evs, o)) || (evs != [] && e.now - evs[|evs| - 1].now >= CLUSTER_WINDOW)
    ensures Starts(evs + [e], |evs|) == (e.sx != 0 || e.sy != 0)
    ensures forall p: nat :: p < |evs| ==> !Owner(evs + [e], p)
  {
    forall p: nat | p < |evs| ensures !Owner(evs + [e], p) {
      OldOwner(evs, e, p);
    }
    NewStart(evs, e);
  }

  /** What the clustering state knows about the events so far, at time now. */
  ghost predicate Tracks(s: Scroll, evs: seq<Tick>, now: int) {
    if s.Collecting() then
      exists o: nat :: Owner(evs, o) && s.dirX == evs[o].sx && s.dirY == evs[o].sy &&
        s.last == evs[|evs| - 1].now <= now
    else (forall o: nat :: !Owner(evs, o)) || (evs != [] && now - evs[|evs| - 1].now >= CLUSTER_WINDOW)
  }

  function Pending(s: Scroll): seq<Unit> { Flush(s).out }

  lemma NotchTracks(s: Scroll, evs: seq<Tick>, d1: real, d2: real, now: int, clock: int)
    requires Tracks(s, evs, clock) && clock <= now
    ensures var t := OnNotch(s, d1, d2, now); var e := TickOf(d1, d2, now);
            && Tracks(t.s, evs + [e], now)
            && t.out + Pending(t.s) == Pending(s) + if Starts(evs + [e], |evs|) then [Unit(e.sx, e.sy, true)] else []
  {
    var e := TickOf(d1, d2, now);
    NewStart(evs, e);
    if s.Collecting() {
      var o: nat :| Owner(evs, o) && s.dirX == evs[o].sx && s.dirY == evs[o].sy &&
        s.last == evs[|evs| - 1].now <= clock;
      NextOwner(evs, e, o);
    } else {
      NextFree(evs, e);
    }
  }

  predicate Ordered(items: seq<Item>, start: int) {
    items == [] || (
      var n := |items| - 1;
      Ordered(items[..n], start) && Clock(items[..n], start) <= items[n].now)
  }

  function Clock(items: seq<Item>, start: int): int { if items == [] then start else items[|items| - 1].now }

  function After(evs: seq<Tick>, item: Item): seq<Tick> {
    match item
    case Notch(d1, d2, now) => evs + [TickOf(d1, d2, now)]
    case _ => evs
  }

  /** The unit that starts with one more item. */
  function Started(evs: seq<Tick>, item: Item): seq<Unit> {
    var evs' := After(evs, item);
    if item.Notch? && Starts(evs', |evs|) then [Unit(evs'[|evs|].sx, evs'[|evs|].sy, true)] else []
  }

  lemma DetentsAfter(evs: seq<Tick>, item: Item)
    ensures var evs' := After(evs, item); Detents(evs', |evs'|) == Detents(evs, |evs|) + Started(evs, item)
  {
    if item.Notch? {
      DetentsPrefix(evs, After(evs, item)[|evs|], |evs|);
    }
  }

  lemma NotchesOne(u: Unit)
    ensures Notches([u]) == if u.notch then [u] else []
  {
    assert [u][..0] == [];
  }

  lemma TracksLater(s: Scroll, evs: seq<Tick>, clock: int, now: int)
    requires Tracks(s, evs, clock) && clock <= now
    ensures Tracks(s, evs, now)
  {
    if s.Collecting() {
      var o: nat :| Owner(evs, o) && s.dirX == evs[o].sx && s.dirY == evs[o].sy &&
        s.last == evs[|evs| - 1].now <= clock;
      assert s.last <= now;
    }
  }

  lemma IdleTracks(s: Scroll, evs: seq<Tick>, now: int)
    requires Tracks(s, evs, now)
    ensures Tracks(OnIdle(s, now).s, evs, now)
    ensures OnIdle(s, now).out + Pending(OnIdle(s, now).s) == Pending(s)
  {
  }

  lemma PixelsTrack(s: Scroll, evs: seq<Tick>, d1: real, d2: real, now: int)
    requires Tracks(s, evs, now)
    ensures var t := OnPixels(s, d1, d2, now);
            Tracks(t.s, evs, now) && Notches(t.out) == [] && Pending(t.s) == Pending(s)
  {
    var t := OnPixels(s, d1, d2, now);
    if t.out != [] {
      assert t.out == [t.out[0]];
      NotchesOne(t.out[0]);
    }
  }

  lemma OnlyNotches(s: Scroll)
    ensures Notches(Pending(s)) == Pending(s)
  {
    if s.Collecting() { NotchesOne(Unit(s.dirX, s.dirY, true)); }
  }

  lemma ItemTracks(s: Scroll, evs: seq<Tick>, item: Item, clock: int)
    requires Tracks(s, evs, clock) && clock <= item.now
    ensures var t := Feed(s, item);
            Tracks(t.s, After(evs, item), item.now) && Notches(t.out) + Pending(t.s) == Pending(s) + Started(evs, item)
  {
    OnlyNotches(s);
    TracksLater(s, evs, clock, item.now);
    match item
    case Pixels(d1, d2, now) => PixelsTrack(s, evs, d1, d2, now);
    case Notch(d1, d2, now) => NotchTracks(s, evs, d1, d2, now, clock);
    case Idle(now) => IdleTracks(s, evs, now);
  }

  lemma OneMoreItem(t: Turn, evs: seq<Tick>, item: Item, clock: int)
    requires Tracks(t.s, evs, clock) && clock <= item.now && Notches(t.out) + Pending(t.s) == Detents(evs, |evs|)
    ensures var u := Feed(t.s, item); var evs' := After(evs, item);
            Tracks(u.s, evs', item.now) && Notches(t.out + u.out) + Pending(u.s) == Detents(evs', |evs'|)
  {
    var u := Feed(t.s, item);
    ItemTracks(t.s, evs, item, clock);
    NotchesAppend(t.out, u.out);
    DetentsAfter(evs, item);
    Splice(Notches(t.out), Notches(u.out), Pending(u.s), Pending(t.s), Started(evs, item));
  }

  lemma Splice(a: seq<Unit>, b: seq<Unit>, c: seq<Unit>, d: seq<Unit>, e: seq<Unit>)
    requires b + c == d + e
    ensures a + b + c == a + d + e
  {
    assert a + b + c == a + (b + c);
    assert a + d + e == a + (d + e);
  }

  /**
   One notch on the wheel is one unit: over any mix of events and idle
   wakeups, the wheel units emitted, followed by the one being collected, are
   the directions of the first events of the detents.
   */
  lemma {:induction false} NotchesAreDetents(s: Scroll, items: seq<Item>, start: int)
    requires !s.Collecting() && Ordered(items, start)
    ensures var t := FeedAll(s, items); var evs := Ticks(items);
            && Notches(t.out) + Pending(t.s) == Detents(evs, |evs|)
            && Tracks(t.s, evs, Clock(items, start))
  {
    if items != [] {
      var front, item := items[..|items| - 1], items[|items| - 1];
      NotchesAreDetents(s, front, start);
      OneMoreItem(FeedAll(s, front), Ticks(front), item, Clock(front, start));
      assert Ticks(items) == After(Ticks(front), item);
    } else {
      assert forall o: nat :: !Owner([], o);
    }
  }

  /**
   A single notch on a quiet wheel is one unit once its window has passed, each
   way in the direction of the raw delta.
   */
  lemma OneNotchOneUnit(s: Scroll, d1: real, d2: real, now: int, later: int)
    requires !s.Collecting() && later - now >= 120_000_000
    ensures var out := FeedAll(s, [Notch(d1, d2, now), Idle(later)]).out;
            if d1 == 0.0 && d2 == 0.0 then out == []
            else
              && |out| == 1 && out[0].notch && -1 <= out[0].dx <= 1 && -1 <= out[0].dy <= 1
              && (out[0].dx > 0 <==> d2 > 0.0) && (out[0].dx < 0 <==> d2 < 0.0)
              && (out[0].dy > 0 <==> d1 > 0.0) && (out[0].dy < 0 <==> d1 < 0.0)
  {
    var items := [Notch(d1, d2, now), Idle(later)];
    assert items[..1] == [Notch(d1, d2, now)] && items[..1][..0] == [];
    assert FeedAll(s, items[..1]) == Turn(OnNotch(s, d1, d2, now).s, []);
  }

  /**
   Two notches, once the window has passed: one unit if they come less than 120
   milliseconds apart and do not contradict each other, two otherwise.
   */
  lemma TwoNotches(s: Scroll, a1: real, a2: real, b1: real, b2: real, now: int, next: int, later: int)
    requires !s.Collecting() && now <= next && later - next >= 120_000_000
    requires (a1 != 0.0 || a2 != 0.0) && (b1 != 0.0 || b2 != 0.0)
    ensures var out := FeedAll(s, [Notch(a1, a2, now), Notch(b1, b2, next), Idle(later)]).out;
            var against := (a1 > 0.0 && b1 < 0.0) || (a1 < 0.0 && b1 > 0.0) ||
                           (a2 > 0.0 && b2 < 0.0) || (a2 < 0.0 && b2 > 0.0);
            |out| == if next - now < 120_000_000 && !against then 1 else 2
  {
    var items := [Notch(a1, a2, now), Notch(b1, b2, next), Idle(later)];
    var s1 := OnNotch(s, a1, a2, now).s;
    assert items[..2] == [Notch(a1, a2, now), Notch(b1, b2, next)];
    assert items[..2][..1] == [Notch(a1, a2, now)] && items[..2][..1][..0] == [];
    assert FeedAll(s, items[..2][..1]) == Turn(s1, []);
    assert FeedAll(s, items[..2]) == Turn(OnNotch(s1, b1, b2, next).s, [] + OnNotch(s1, b1, b2, next).out);
  }

  /** Idle wakeups never change the wheel units, whatever their number and place. */
  lemma IdleFlushesInvisible(s: Scroll, items: seq<Item>, others: seq<Item>, start: int)
    requires !s.Collecting() && Ordered(items, start) && Ordered(others, start) && Ticks(items) == Ticks(others)
    ensures var t, u := FeedAll(s, items), FeedAll(s, others);
            Notches(t.out) + Pending(t.s) == Notches(u.out) + Pending(u.s)
  {
    NotchesAreDetents(s, items, start);
    NotchesAreDetents(s, others, start);
  }
}
