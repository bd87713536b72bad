/**
 Event capture on macOS (platform/capture/capture_darwin.go): the event ring
 between the tap and the drain loop, and the coalescing of moves per batch.
 */
module Captures {
  import opened Common
  import opened Scrolls

  const EV_CAP: nat := 128
  const BATCH_SIZE: nat := 256

  /** cs_ev; a flags event says whether its modifier bit is set, if its key is a modifier. */
  datatype Ev =
    | Move(x: real, y: real, dx: real, dy: real)
    | Button(button: nat, pressed: bool)
    | Wheel(d1: real, d2: real, continuous: bool)
    | Key(code: nat, down: bool)
    | Flags(code: nat, bit: Option<bool>)

  datatype Call =
    | OnMove(x: i32, y: i32, dx: i32, dy: i32)
    | OnButton(button: nat, pressed: bool)
    | OnScroll(dx: i32, dy: i32)
    | OnKey(key: nat, down: bool)

  /** The bounded ring: one slot stays free, and an event that finds no room is dropped. */
  class Ring {
    const buf: array<Ev>
    var head: nat
    var tail: nat

    ghost predicate Valid()
      reads this
    {
      buf.Length == EV_CAP && head < EV_CAP && tail < EV_CAP
    }

    ghost function Contents(): (s: seq<Ev>)
      requires Valid()
      reads this, buf
      ensures |s| < EV_CAP
    {
      if tail <= head then buf[tail..head] else buf[tail..] + buf[..head]
    }

    constructor ()
      ensures Valid() && Contents() == [] && fresh(buf)
    {
      buf := new Ev[EV_CAP](_ => Button(0, false));
      head, tail := 0, 0;
    }

    /** cs_push. */
    method Push(e: Ev) returns (ok: bool)
      requires Valid()
      modifies this`head, buf
      ensures Valid() && ok == (|old(Contents())| < EV_CAP - 1)
      ensures Contents() == if ok then old(Contents()) + [e] else old(Contents())
    {
      var next := (head + 1) % EV_CAP;
      ok := next != tail;
      if ok {
        buf[head] := e;
        head := next;
        assert head == 0 ==> buf[tail..] == old(buf[tail..head]) + [e] && buf[..head] == [];
      }
    }

    /** Takes the oldest event. */
    method Pop() returns (e: Ev)
      requires Valid() && head != tail
      modifies this`tail
      ensures Valid() && |old(Contents())| > 0 && e == old(Contents())[0] && Contents() == old(Contents())[1..]
    {
      ghost var all := Contents();
      e := buf[tail];
      tail := (tail + 1) % EV_CAP;
      assert Contents() == all[1..];
    }

    /** cs_drain_batch, once it no longer waits. */
    method DrainBatch(out: array<Ev>) returns (n: nat)
      requires Valid() && out != buf
      modifies this`tail, out
      ensures Valid()
      ensures n == (if |old(Contents())| <= out.Length then |old(Contents())| else out.Length)
      ensures out[..n] == old(Contents())[..n] && Contents() == old(Contents())[n..]
    {
      ghost var all := Contents();
      n := 0;
      while head != tail && n < out.Length
        invariant Valid() && n <= out.Length && n <= |all|
        invariant out[..n] == all[..n] && Contents() == all[n..]
        decreases out.Length - n
      {
        var e := Pop();
        out[n] := e;
        n := n + 1;
      }
      assert head == tail <==> Contents() == [];
    }
  }

  /** What the drain loop drives: scroll state, held modifiers and the calls made so far. */
  datatype Sink = Sink(scroll: Scroll, held: set<nat>, calls: seq<Call>)

  function Scrolled(out: seq<Unit>): seq<Call> {
    if out == [] then [] else Scrolled(out[..|out| - 1]) + [OnScroll(out[|out| - 1].dx, out[|out| - 1].dy)]
  }

  function Emit(s: Sink, t: Turn): Sink { s.(scroll := t.s, calls := s.calls + Scrolled(t.out)) }

  function KeyCall(keys: map<nat, nat>, code: nat, down: bool): seq<Call> {
    if code in keys then [OnKey(keys[code], down)] else []
  }

  /** dispatch; keys is the key table. */
  function Dispatched(keys: map<nat, nat>, s: Sink, e: Ev, now: int): Sink {
    match e
    case Move(x, y, dx, dy) => s.(calls := s.calls + [OnMove(Int32(x), Int32(y), Int32(dx), Int32(dy))])
    case Button(b, pressed) => if 1 <= b <= 3 then s.(calls := s.calls + [OnButton(b, pressed)]) else s
    case Wheel(d1, d2, continuous) =>
      Emit(s, Feed(s.scroll, if continuous then Pixels(d1, d2, now) else Notch(d1, d2, now)))
    case Key(code, down) => s.(calls := s.calls + KeyCall(keys, code, down))
    case Flags(code, bit) =>
      if bit.None? || bit.value == (code in s.held) then s
      else
        s.(held := if bit.value then s.held + {code} else s.held - {code},
           calls := s.calls + KeyCall(keys, code, bit.value))
  }

  /** One drained event and the clock reading when it was handled, or an empty wakeup. */
  datatype Seen = Seen(ev: Ev, now: int) | Woke(now: int)

  function OnWake(s: Sink, now: int): Sink { Emit(s, OnIdle(s.scroll, now)) }

  /** Everything but the moves, one at a time and in order. */
  function Others(keys: map<nat, nat>, s: Sink, batch: seq<Seen>): Sink {
    if batch == [] then s
    else
      var before := Others(keys, s, batch[..|batch| - 1]);
      match batch[|batch| - 1]
      case Woke(now) => OnWake(before, now)
      case Seen(ev, now) => if ev.Move? then before else Dispatched(keys, before, ev, now)
  }

  function DeltaSum(batch: seq<Seen>): (real, real) {
    if batch == [] then (0.0, 0.0)
    else
      var (x, y) := DeltaSum(batch[..|batch| - 1]);
      var last := batch[|batch| - 1];
      if last.Seen? && last.ev.Move? then (x + last.ev.dx, y + last.ev.dy) else (x, y)
  }

  function LastMove(batch: seq<Seen>): Option<Ev> {
    if batch == [] then None
    else if batch[|batch| - 1].Seen? && batch[|batch| - 1].ev.Move? then Some(batch[|batch| - 1].ev)
    else LastMove(batch[..|batch| - 1])
  }

  /** The one OnMove of a batch: last position, summed deltas. */
  function MoveCall(batch: seq<Seen>): seq<Call> {
    match LastMove(batch)
    case Some(Move(x, y, _, _)) => [OnMove(Int32(x), Int32(y), Int32(DeltaSum(batch).0), Int32(DeltaSum(batch).1))]
    case _ => []
  }

  function OnBatch(keys: map<nat, nat>, s: Sink, batch: seq<Seen>): Sink {
    var d := Others(keys, s, batch);
    d.(calls := d.calls + MoveCall(batch))
  }

  /** The events with the clock readings taken as they are handled. */
  function Stamp(evs: seq<Ev>, clock: nat -> int): (batch: seq<Seen>)
    ensures |batch| == |evs|
  {
    if evs == [] then [] else Stamp(evs[..|evs| - 1], clock) + [Seen(evs[|evs| - 1], clock(|evs| - 1))]
  }

  /** darwinCapture. */
  class Capture {
    const keys: map<nat, nat>
    const ring: Ring
    const scroll: ScrollState
    var held: set<nat>
    var calls: seq<Call>

    ghost predicate Valid()
      reads this, ring
    {
      ring.Valid()
    }

    function View(): Sink
      reads this, scroll
    {
      Sink(scroll.View(), held, calls)
    }

    constructor (keys: map<nat, nat>, start: int)
      ensures Valid() && this.keys == keys && ring.Contents() == []
      ensures View() == Sink(Scroll(0.0, 0.0, start, 0, 0, start), {}, [])
    {
      this.keys := keys;
      ring := new Ring();
      scroll := new ScrollState(start);
      held, calls := {}, [];
    }

    method Forward(out: seq<Unit>)
      modifies this`calls
      ensures calls == old(calls) + Scrolled(out)
    {
      var i := 0;
      while i < |out|
        invariant 0 <= i <= |out| && calls == old(calls) + Scrolled(out[..i])
      {
        assert out[..i + 1][..i] == out[..i];
        calls := calls + [OnScroll(out[i].dx, out[i].dy)];
        i := i + 1;
      }
      assert out[..i] == out;
    }

    method SendKey(code: nat, down: bool)
      modifies this`calls
      ensures calls == old(calls) + KeyCall(keys, code, down)
    {
      if code in keys {
        calls := calls + [OnKey(keys[code], down)];
      }
    }

    method Dispatch(e: Ev, now: int)
      modifies this`held, this`calls, scroll
      ensures View() == Dispatched(keys, old(View()), e, now)
    {
      match e
      case Move(x, y, dx, dy) =>
        calls := calls + [OnMove(Int32(x), Int32(y), Int32(dx), Int32(dy))];
      case Button(b, pressed) =>
        if 1 <= b <= 3 { calls := calls + [OnButton(b, pressed)]; }
      case Wheel(d1, d2, continuous) =>
        var out := scroll.Dispatch(d1, d2, continuous, now);
        Forward(out);
      case Key(code, down) =>
        SendKey(code, down);
      case Flags(code, bit) =>
        if bit.Some? && bit.value != (code in held) {
          held := if bit.value then held + {code} else held - {code};
          SendKey(code, bit.value);
        }
    }

    /** Handles the first n drained events: moves are summed, everything else is dispatched at once. */
    method HandleBatch(buf: array<Ev>, n: nat, clock: nat -> int)
      requires n <= buf.Length
      modifies this`held, this`calls, scroll
      ensures View() == OnBatch(keys, old(View()), Stamp(buf[..n], clock))
    {
      ghost var s, evs := View(), buf[..n];
      var sumDX, sumDY, lastX, lastY, moves := 0.0, 0.0, 0.0, 0.0, 0;
      ghost var batch: seq<Seen>, last: Option<Ev> := [], None;
      var i := 0;
      while i < n
        invariant 0 <= i <= n && batch == Stamp(evs[..i], clock)
        invariant View() == Others(keys, s, batch) && (sumDX, sumDY) == DeltaSum(batch) && moves >= 0
        invariant last == LastMove(batch) && (last.Some? <==> moves > 0)
        invariant last.Some? ==> last.value.Move? && last.value.x == lastX && last.value.y == lastY
      {
        var ev := buf[i];
        StampNext(evs, clock, i);
        BatchNext(keys, s, batch, Seen(ev, clock(i)));
        if ev.Move? {
          sumDX, sumDY := sumDX + ev.dx, sumDY + ev.dy;
          lastX, lastY := ev.x, ev.y;
          moves := moves + 1;
          last := Some(ev);
        } else {
          Dispatch(ev, clock(i));
        }
        batch := batch + [Seen(ev, clock(i))];
        i := i + 1;
      }
      assert evs[..n] == evs;
      if moves > 0 {
        calls := calls + [OnMove(Int32(lastX), Int32(lastY), Int32(sumDX), Int32(sumDY))];
      }
    }

    /** One turn of the drain loop; clock gives the readings taken during it. */
    method Drain(clock: nat -> int, idle: int)
      requires Valid()
      modifies this`held, this`calls, scroll, ring`tail
      ensures Valid() && ring.Contents() == []
      ensures View() == if old(ring.Contents()) == [] then OnWake(old(View()), idle)
                        else OnBatch(keys, old(View()), Stamp(old(ring.Contents()), clock))
    {
      var buf := new Ev[BATCH_SIZE](_ => Button(0, false));
      ghost var queued := ring.Contents();
      var n := ring.DrainBatch(buf);
      if n == 0 {
        var out := scroll.Wake(idle);
        Forward(out);
      } else {
        assert buf[..n] == queued;
        HandleBatch(buf, n, clock);
      }
    }
  }

  /** What one more drained event adds to a batch. */
  lemma BatchNext(keys: map<nat, nat>, s: Sink, batch: seq<Seen>, e: Seen)
    requires e.Seen?
    ensures var b := batch + [e]; var move := e.ev.Move?; var d := DeltaSum(batch);
            && Others(keys, s, b) ==
               (if move then Others(keys, s, batch) else Dispatched(keys, Others(keys, s, batch), e.ev, e.now))
            && DeltaSum(b) == (if move then (d.0 + e.ev.dx, d.1 + e.ev.dy) else d)
            && LastMove(b) == (if move then Some(e.ev) else LastMove(batch))
  {
    assert (batch + [e])[..|batch|] == batch;
  }

  lemma StampNext(evs: seq<Ev>, clock: nat -> int, i: nat)
    requires i < |evs|
    ensures var front, next := Stamp(evs[..i], clock), Stamp(evs[..i + 1], clock);
            next == front + [Seen(evs[i], clock(i))] && next[..|next| - 1] == front
  {
    assert evs[..i + 1][..i] == evs[..i];
  }

  /** Calls other than OnMove. */
  function Rest(calls: seq<Call>): seq<Call> {
    if calls == [] then []
    else Rest(calls[..|calls| - 1]) + if calls[|calls| - 1].OnMove? then [] else [calls[|calls| - 1]]
  }

  function MoveTotal(calls: seq<Call>): (int, int) {
    if calls == [] then (0, 0)
    else
      var (x, y) := MoveTotal(calls[..|calls| - 1]);
      var c := calls[|calls| - 1];
      if c.OnMove? then (x + c.dx, y + c.dy) else (x, y)
  }

  lemma {:induction false} RestAppend(a: seq<Call>, b: seq<Call>)
    ensures Rest(a + b) == Rest(a) + Rest(b)
  {
    if b == [] {
      assert a + b == a;
    } else {
      assert (a + b)[..|a + b| - 1] == a + b[..|b| - 1];
      RestAppend(a, b[..|b| - 1]);
    }
  }

  lemma {:induction false} TotalAppend(a: seq<Call>, b: seq<Call>)
    ensures MoveTotal(a + b) == (MoveTotal(a).0 + MoveTotal(b).0, MoveTotal(a).1 + MoveTotal(b).1)
  {
    if b == [] {
      assert a + b == a;
    } else {
      assert (a + b)[..|a + b| - 1] == a + b[..|b| - 1];
      TotalAppend(a, b[..|b| - 1]);
    }
  }

  predicate NoMoves(calls: seq<Call>) { forall i :: 0 <= i < |calls| ==> !calls[i].OnMove? }

  lemma {:induction false} NoMovesTotal(calls: seq<Call>)
    requires NoMoves(calls)
    ensures MoveTotal(calls) == (0, 0)
  {
    if calls != [] { NoMovesTotal(calls[..|calls| - 1]); }
  }

  lemma {:induction false} ScrolledNoMoves(out: seq<Unit>)
    ensures NoMoves(Scrolled(out))
  {
    if out != [] { ScrolledNoMoves(out[..|out| - 1]); }
  }

  /** What a wakeup adds to a trace. */
  lemma WakeNext(keys: map<nat, nat>, s: Sink, trace: seq<Seen>, idle: int)
    ensures var t := trace + [Woke(idle)];
            && Others(keys, s, t) == OnWake(Others(keys, s, trace), idle)
            && Events(t) == Events(trace) && DeltaSum(t) == DeltaSum(trace)
  {
    assert (trace + [Woke(idle)])[..|trace|] == trace;
  }

  /** Handling one item other than a move only adds calls, none of them OnMove. */
  function One(keys: map<nat, nat>, s: Sink, e: Seen): Sink {
    match e
    case Woke(now) => OnWake(s, now)
    case Seen(ev, now) => if ev.Move? then s else Dispatched(keys, s, ev, now)
  }

  lemma OneAdds(keys: map<nat, nat>, s: Sink, e: Seen)
    ensures var d := One(keys, s.(calls := []), e);
            NoMoves(d.calls) && One(keys, s, e) == d.(calls := s.calls + d.calls)
  {
    var d := One(keys, s.(calls := []), e);
    match e
    case Woke(now) => ScrolledNoMoves(OnIdle(s.scroll, now).out);
    case Seen(Wheel(d1, d2, continuous), now) =>
      ScrolledNoMoves(Feed(s.scroll, if continuous then Pixels(d1, d2, now) else Notch(d1, d2, now)).out);
    case _ =>
  }

  /** Two sinks that differ at most in their OnMove calls. */
  predicate Alike(a: Sink, b: Sink) {
    a.scroll == b.scroll && a.held == b.held && Rest(a.calls) == Rest(b.calls)
  }

  lemma OneAlike(keys: map<nat, nat>, a: Sink, b: Sink, e: Seen)
    requires Alike(a, b)
    ensures Alike(One(keys, a, e), One(keys, b, e))
  {
    OneAdds(keys, a, e);
    OneAdds(keys, b, e);
    RestAppend(a.calls, One(keys, a.(calls := []), e).calls);
    RestAppend(b.calls, One(keys, b.(calls := []), e).calls);
  }

  lemma {:induction false} OthersAlike(keys: map<nat, nat>, a: Sink, b: Sink, batch: seq<Seen>)
    requires Alike(a, b)
    ensures Alike(Others(keys, a, batch), Others(keys, b, batch))
  {
    if batch != [] {
      var front := batch[..|batch| - 1];
      OthersAlike(keys, a, b, front);
      OneAlike(keys, Others(keys, a, front), Others(keys, b, front), batch[|batch| - 1]);
    }
  }

  lemma {:induction false} OthersAppend(keys: map<nat, nat>, s: Sink, a: seq<Seen>, b: seq<Seen>)
    ensures Others(keys, s, a + b) == Others(keys, Others(keys, s, a), b)
  {
    if b == [] {
      assert a + b == a;
    } else {
      assert (a + b)[..|a + b| - 1] == a + b[..|b| - 1];
      OthersAppend(keys, s, a, b[..|b| - 1]);
    }
  }

  /** A batch makes no OnMove call but its own, which comes last. */
  lemma {:induction false} OthersAdds(keys: map<nat, nat>, s: Sink, batch: seq<Seen>) returns (mid: seq<Call>)
    ensures Others(keys, s, batch).calls == s.calls + mid && NoMoves(mid)
  {
    mid := [];
    if batch != [] {
      var front, e := batch[..|batch| - 1], batch[|batch| - 1];
      var before := OthersAdds(keys, s, front);
      var x := Others(keys, s, front);
      OneAdds(keys, x, e);
      mid := before + One(keys, x.(calls := []), e).calls;
    }
  }

  lemma OthersTotal(keys: map<nat, nat>, s: Sink, batch: seq<Seen>)
    ensures MoveTotal(Others(keys, s, batch).calls) == MoveTotal(s.calls)
  {
    var mid := OthersAdds(keys, s, batch);
    TotalAppend(s.calls, mid);
    NoMovesTotal(mid);
  }

  lemma {:induction false} DeltaSumAppend(a: seq<Seen>, b: seq<Seen>)
    ensures DeltaSum(a + b) == (DeltaSum(a).0 + DeltaSum(b).0, DeltaSum(a).1 + DeltaSum(b).1)
  {
    if b == [] {
      assert a + b == a;
    } else {
      assert (a + b)[..|a + b| - 1] == a + b[..|b| - 1];
      DeltaSumAppend(a, b[..|b| - 1]);
    }
  }

  /** The largest delta for which a full ring cannot exceed int32. */
  const DELTA_MAX: real := 16909320.0

  predicate WholeDelta(v: real) { v.Floor as real == v && -DELTA_MAX <= v <= DELTA_MAX }

  predicate Whole(e: Ev) { e.Move? ==> WholeDelta(e.dx) && WholeDelta(e.dy) }

  lemma NegatedFloor(v: real)
    ensures v.Floor as real == v <==> (-v).Floor as real == -v
  {
    if v.Floor as real == v { assert -v == (-v.Floor) as real; }
    if (-v).Floor as real == -v { assert v == (-(-v).Floor) as real; }
  }

  /** An integer that fits in int32. */
  predicate WholeInt32(v: real) { v.Floor as real == v && InRange(v) }

  /** int32 of a sum is the sum exactly when it is an integer that fits. */
  lemma Int32Exact(v: real)
    ensures Int32(v) as real == v <==> WholeInt32(v)
  {
    NegatedFloor(v);
  }

  /** A sum of n whole deltas. */
  predicate Bounded(v: real, n: nat) { v.Floor as real == v && -(n as real * DELTA_MAX) <= v <= n as real * DELTA_MAX }

  lemma BoundedAdd(v: real, d: real, n: nat)
    requires Bounded(v, n)
    ensures Bounded(v, n + 1) && (WholeDelta(d) ==> Bounded(v + d, n + 1))
  {
    if WholeDelta(d) {
      assert v + d == (v.Floor + d.Floor) as real;
    }
  }

  lemma BoundedFits(v: real, n: nat)
    requires Bounded(v, n) && n < EV_CAP
    ensures WholeInt32(v)
  {
    assert n as real * DELTA_MAX <= 127.0 * DELTA_MAX;
  }

  lemma {:induction false} WholeSums(evs: seq<Ev>, clock: nat -> int)
    requires forall e :: e in evs ==> Whole(e)
    ensures var d := DeltaSum(Stamp(evs, clock)); Bounded(d.0, |evs|) && Bounded(d.1, |evs|)
  {
    if evs != [] {
      var front, e := evs[..|evs| - 1], evs[|evs| - 1];
      assert Whole(e) && forall d :: d in front ==> d in evs;
      WholeSums(front, clock);
      var d := DeltaSum(Stamp(front, clock));
      StampNext(evs, clock, |front|);
      assert evs[..|front| + 1] == evs;
      BoundedAdd(d.0, if e.Move? then e.dx else 0.0, |front|);
      BoundedAdd(d.1, if e.Move? then e.dy else 0.0, |front|);
    }
  }

  lemma {:induction false} NoMoveNoSum(batch: seq<Seen>)
    ensures LastMove(batch).None? ==> DeltaSum(batch) == (0.0, 0.0)
    ensures LastMove(batch).Some? ==> LastMove(batch).value.Move?
  {
    if batch != [] { NoMoveNoSum(batch[..|batch| - 1]); }
  }

  lemma MoveCallTotal(batch: seq<Seen>)
    ensures MoveTotal(MoveCall(batch)) ==
            if LastMove(batch).Some? then (Int32(DeltaSum(batch).0) as int, Int32(DeltaSum(batch).1) as int) else (0, 0)
  {
    NoMoveNoSum(batch);
    var c := MoveCall(batch);
    if c != [] { assert c[..0] == []; }
  }

  predicate Exact(d: (real, real)) { WholeInt32(d.0) && WholeInt32(d.1) }

  /** The one OnMove of a batch carries its summed deltas exactly when they are integers that fit. */
  lemma BatchExactIff(batch: seq<Seen>)
    ensures Shifted((0, 0), DeltaSum(batch), MoveTotal(MoveCall(batch))) <==> Exact(DeltaSum(batch))
  {
    NoMoveNoSum(batch);
    MoveCallTotal(batch);
    Int32Exact(DeltaSum(batch).0);
    Int32Exact(DeltaSum(batch).1);
  }

  /** A full ring of whole deltas is summed without loss. */
  lemma WholeIsExact(evs: seq<Ev>, clock: nat -> int)
    requires |evs| < EV_CAP && forall e :: e in evs ==> Whole(e)
    ensures Exact(DeltaSum(Stamp(evs, clock)))
  {
    WholeSums(evs, clock);
    BoundedFits(DeltaSum(Stamp(evs, clock)).0, |evs|);
    BoundedFits(DeltaSum(Stamp(evs, clock)).1, |evs|);
  }

  /** The whole pipeline: queue, every event ever accepted, everything handled so far, and the sink. */
  datatype Line = Line(queue: seq<Ev>, accepted: seq<Ev>, trace: seq<Seen>, sink: Sink)

  datatype Op = Tap(e: Ev) | Turnover(clock: nat -> int, idle: int)

  function Do(keys: map<nat, nat>, l: Line, op: Op): Line {
    match op
    case Tap(e) => if |l.queue| < EV_CAP - 1 then l.(queue := l.queue + [e], accepted := l.accepted + [e]) else l
    case Turnover(clock, idle) =>
      if l.queue == [] then l.(trace := l.trace + [Woke(idle)], sink := OnWake(l.sink, idle))
      else
        var batch := Stamp(l.queue, clock);
        l.(queue := [], trace := l.trace + batch, sink := OnBatch(keys, l.sink, batch))
  }

  function DoAll(keys: map<nat, nat>, l: Line, ops: seq<Op>): Line {
    if ops == [] then l else Do(keys, DoAll(keys, l, ops[..|ops| - 1]), ops[|ops| - 1])
  }

  function Events(trace: seq<Seen>): seq<Ev> {
    if trace == [] then []
    else Events(trace[..|trace| - 1]) + if trace[|trace| - 1].Seen? then [trace[|trace| - 1].ev] else []
  }

  lemma {:induction false} EventsAppend(a: seq<Seen>, b: seq<Seen>)
    ensures Events(a + b) == Events(a) + Events(b)
  {
    if b == [] {
      assert a + b == a;
    } else {
      assert (a + b)[..|a + b| - 1] == a + b[..|b| - 1];
      EventsAppend(a, b[..|b| - 1]);
    }
  }

  lemma {:induction false} StampEvents(evs: seq<Ev>, clock: nat -> int)
    ensures Events(Stamp(evs, clock)) == evs
  {
    if evs != [] {
      StampEvents(evs[..|evs| - 1], clock);
      StampNext(evs, clock, |evs| - 1);
      assert evs[..|evs| - 1 + 1] == evs;
    }
  }

  /** The invariant of the pipeline, from a sink s on. */
  ghost predicate Faithful(keys: map<nat, nat>, s: Sink, l: Line) {
    && |l.queue| < EV_CAP && Events(l.trace) + l.queue == l.accepted
    && Alike(l.sink, Others(keys, s, l.trace))
  }

  /** b is a shifted by d, in both directions. */
  predicate Shifted(a: (int, int), d: (real, real), b: (int, int)) {
    b.0 as real == a.0 as real + d.0 && b.1 as real == a.1 as real + d.1
  }

  lemma ShiftTwice(a: (int, int), d: (real, real), b: (int, int), e: (real, real), c: (int, int))
    requires Shifted(a, d, b)
    ensures Shifted(b, e, c) <==> Shifted(a, (d.0 + e.0, d.1 + e.1), c)
  {
  }

  lemma ShiftBy(a: (int, int), b: (int, int), d: (real, real))
    ensures Shifted((0, 0), d, b) <==> Shifted(a, d, (a.0 + b.0, a.1 + b.1))
  {
  }

  ghost predicate Summed(s: Sink, l: Line) {
    Shifted(MoveTotal(s.calls), DeltaSum(l.trace), MoveTotal(l.sink.calls))
  }

  lemma WakeFaithful(keys: map<nat, nat>, s: Sink, l: Line, idle: int)
    requires Faithful(keys, s, l) && l.queue == []
    ensures Faithful(keys, s, l.(trace := l.trace + [Woke(idle)], sink := OnWake(l.sink, idle)))
  {
    WakeNext(keys, s, l.trace, idle);
    OneAlike(keys, l.sink, Others(keys, s, l.trace), Woke(idle));
  }

  lemma BatchEvents(l: Line, clock: nat -> int)
    requires Events(l.trace) + l.queue == l.accepted
    ensures Events(l.trace + Stamp(l.queue, clock)) + [] == l.accepted
  {
    EventsAppend(l.trace, Stamp(l.queue, clock));
    StampEvents(l.queue, clock);
  }

  lemma BatchAlike(keys: map<nat, nat>, s: Sink, a: Sink, trace: seq<Seen>, batch: seq<Seen>)
    requires Alike(a, Others(keys, s, trace))
    ensures Alike(OnBatch(keys, a, batch), Others(keys, s, trace + batch))
  {
    OthersAppend(keys, s, trace, batch);
    OthersAlike(keys, a, Others(keys, s, trace), batch);
    RestAppend(Others(keys, a, batch).calls, MoveCall(batch));
    MoveCallRest(batch);
  }

  lemma MoveCallRest(batch: seq<Seen>)
    ensures Rest(MoveCall(batch)) == []
  {
    var c := MoveCall(batch);
    if c != [] { assert c[..0] == []; }
  }

  lemma BatchFaithful(keys: map<nat, nat>, s: Sink, l: Line, clock: nat -> int)
    requires Faithful(keys, s, l) && l.queue != []
    ensures Faithful(keys, s, Do(keys, l, Turnover(clock, 0)))
  {
    BatchEvents(l, clock);
    BatchAlike(keys, s, l.sink, l.trace, Stamp(l.queue, clock));
  }

  /**
   Coalescing changes nothing but the number of moves: over any interleaving of
   taps and drains, the accepted events are handled exactly once and in push
   order, and everything except OnMove is as if they had been dispatched one by one.
   */
  lemma {:induction false} CoalescingIsFaithful(keys: map<nat, nat>, s: Sink, ops: seq<Op>)
    ensures Faithful(keys, s, DoAll(keys, Line([], [], [], s), ops))
  {
    if ops != [] {
      CoalescingIsFaithful(keys, s, ops[..|ops| - 1]);
      var l := DoAll(keys, Line([], [], [], s), ops[..|ops| - 1]);
      match ops[|ops| - 1]
      case Tap(e) =>
        assert Events(l.trace) + (l.queue + [e]) == Events(l.trace) + l.queue + [e];
      case Turnover(clock, idle) =>
        if l.queue == [] { WakeFaithful(keys, s, l, idle); } else { BatchFaithful(keys, s, l, clock); }
    }
  }

  lemma WakeSummed(keys: map<nat, nat>, s: Sink, l: Line, idle: int)
    requires Summed(s, l)
    ensures Summed(s, l.(trace := l.trace + [Woke(idle)], sink := OnWake(l.sink, idle)))
  {
    WakeNext(keys, s, l.trace, idle);
    WakeNext(keys, l.sink, [], idle);
    OthersTotal(keys, l.sink, [Woke(idle)]);
    assert [] + [Woke(idle)] == [Woke(idle)];
  }

  lemma BatchTotalIff(keys: map<nat, nat>, s: Sink, batch: seq<Seen>)
    ensures Shifted(MoveTotal(s.calls), DeltaSum(batch), MoveTotal(OnBatch(keys, s, batch).calls)) <==>
            Exact(DeltaSum(batch))
  {
    OthersTotal(keys, s, batch);
    TotalAppend(Others(keys, s, batch).calls, MoveCall(batch));
    BatchExactIff(batch);
    ShiftBy(MoveTotal(s.calls), MoveTotal(MoveCall(batch)), DeltaSum(batch));
  }

  lemma BatchSummedIff(keys: map<nat, nat>, s: Sink, l: Line, batch: seq<Seen>)
    requires Summed(s, l)
    ensures Summed(s, l.(queue := [], trace := l.trace + batch, sink := OnBatch(keys, l.sink, batch))) <==>
            Exact(DeltaSum(batch))
  {
    BatchTotalIff(keys, l.sink, batch);
    DeltaSumAppend(l.trace, batch);
    ShiftTwice(MoveTotal(s.calls), DeltaSum(l.trace), MoveTotal(l.sink.calls), DeltaSum(batch),
               MoveTotal(OnBatch(keys, l.sink, batch).calls));
  }

  /** At every point of the run the OnMove deltas add up to those of the moves handled. */
  ghost predicate AlwaysSummed(keys: map<nat, nat>, s: Sink, ops: seq<Op>) {
    Summed(s, DoAll(keys, Line([], [], [], s), ops)) && (ops != [] ==> AlwaysSummed(keys, s, ops[..|ops| - 1]))
  }

  /** The summed deltas of every batch drained in the run are integers that fit in int32. */
  ghost predicate AllExact(keys: map<nat, nat>, s: Sink, ops: seq<Op>) {
    ops != [] ==>
      var front, op := ops[..|ops| - 1], ops[|ops| - 1];
      && AllExact(keys, s, front)
      && (op.Turnover? ==> Exact(DeltaSum(Stamp(DoAll(keys, Line([], [], [], s), front).queue, op.clock))))
  }

  lemma TurnoverSummedIff(keys: map<nat, nat>, s: Sink, l: Line, clock: nat -> int, idle: int)
    requires Summed(s, l)
    ensures Summed(s, Do(keys, l, Turnover(clock, idle))) <==> Exact(DeltaSum(Stamp(l.queue, clock)))
  {
    if l.queue == [] {
      WakeSummed(keys, s, l, idle);
      assert Exact((0.0, 0.0));
    } else {
      BatchSummedIff(keys, s, l, Stamp(l.queue, clock));
    }
  }

  /**
   No movement is lost: at every point the OnMove deltas add up to those of the
   moves handled, if and only if every batch sums to integers that fit in int32.
   */
  lemma {:induction false} MovesAddUpIff(keys: map<nat, nat>, s: Sink, ops: seq<Op>)
    ensures AlwaysSummed(keys, s, ops) <==> AllExact(keys, s, ops)
  {
    if ops != [] {
      var front := ops[..|ops| - 1];
      var l := DoAll(keys, Line([], [], [], s), front);
      MovesAddUpIff(keys, s, front);
      if AlwaysSummed(keys, s, front) {
        match ops[|ops| - 1]
        case Tap(e) =>
        case Turnover(clock, idle) => TurnoverSummedIff(keys, s, l, clock, idle);
      }
    }
  }

  /** In particular when every delta is an integer, and small enough that a full ring cannot exceed int32. */
  lemma {:induction false} WholeDeltasAddUp(keys: map<nat, nat>, s: Sink, ops: seq<Op>)
    requires forall e :: e in DoAll(keys, Line([], [], [], s), ops).accepted ==> Whole(e)
    ensures AllExact(keys, s, ops) && AlwaysSummed(keys, s, ops)
  {
    if ops != [] {
      var front, l := ops[..|ops| - 1], DoAll(keys, Line([], [], [], s), ops[..|ops| - 1]);
      var l' := DoAll(keys, Line([], [], [], s), ops);
      assert forall e :: e in l.accepted ==> e in l'.accepted;
      WholeDeltasAddUp(keys, s, front);
      CoalescingIsFaithful(keys, s, front);
      assert forall e :: e in l.queue ==> e in l.accepted;
      if ops[|ops| - 1].Turnover? { WholeIsExact(l.queue, ops[|ops| - 1].clock); }
    }
    MovesAddUpIff(keys, s, ops);
  }
}
