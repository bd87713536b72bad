/**
 What the capture pipeline calls, read off the events it accepted: buttons,
 keys, scroll units and positions, whatever the batches.
 */
module Handlings {
  import opened Common
  import opened Scrolls
  import opened Captures

  /** Whether the modifier key was down by its latest flags event. */
  function Pressed(evs: seq<Ev>, code: nat): bool {
    if evs == [] then false
    else
      var e := evs[|evs| - 1];
      if e.Flags? && e.code == code && e.bit.Some? then e.bit.value else Pressed(evs[..|evs| - 1], code)
  }

  /**
   The call an event stands for after the events before it: the three mouse
   buttons, the keys of the table, and a modifier whose bit has changed.
   */
  function CallFor(keys: map<nat, nat>, before: seq<Ev>, e: Ev): seq<Call> {
    match e
    case Button(b, pressed) => if b == 1 || b == 2 || b == 3 then [OnButton(b, pressed)] else []
    case Key(code, down) => if code in keys then [OnKey(keys[code], down)] else []
    case Flags(code, Some(bit)) =>
      if bit != Pressed(before, code) && code in keys then [OnKey(keys[code], bit)] else []
    case _ => []
  }

  function CallsFor(keys: map<nat, nat>, evs: seq<Ev>): seq<Call> {
    if evs == [] then []
    else CallsFor(keys, evs[..|evs| - 1]) + CallFor(keys, evs[..|evs| - 1], evs[|evs| - 1])
  }

  /** The button and key calls among these. */
  function Presses(calls: seq<Call>): seq<Call> {
    if calls == [] then []
    else
      var c := calls[|calls| - 1];
      Presses(calls[..|calls| - 1]) + if c.OnButton? || c.OnKey? then [c] else []
  }

  /** The scroll units called out. */
  function UnitsOf(calls: seq<Call>): seq<(i32, i32)> {
    if calls == [] then []
    else
      var c := calls[|calls| - 1];
      UnitsOf(calls[..|calls| - 1]) + if c.OnScroll? then [(c.dx, c.dy)] else []
  }

  /** What the scroll state is shown: wheel and trackpad events, and the wakeups. */
  function ItemsOf(e: Seen): seq<Item> {
    match e
    case Woke(now) => [Idle(now)]
    case Seen(Wheel(d1, d2, true), now) => [Pixels(d1, d2, now)]
    case Seen(Wheel(d1, d2, false), now) => [Notch(d1, d2, now)]
    case _ => []
  }

  function ScrollItems(trace: seq<Seen>): seq<Item> {
    if trace == [] then [] else ScrollItems(trace[..|trace| - 1]) + ItemsOf(trace[|trace| - 1])
  }

  function Pairs(out: seq<Unit>): seq<(i32, i32)> { seq(|out|, i requires 0 <= i < |out| => (out[i].dx, out[i].dy)) }

  lemma {:induction false} CallsAppend(a: seq<Call>, b: seq<Call>)
    ensures Presses(a + b) == Presses(a) + Presses(b) && UnitsOf(a + b) == UnitsOf(a) + UnitsOf(b)
  {
    if b == [] {
      assert a + b == a;
    } else {
      assert (a + b)[..|a + b| - 1] == a + b[..|b| - 1];
      CallsAppend(a, b[..|b| - 1]);
    }
  }

  lemma OneCall(c: Call)
    ensures Presses([c]) == (if c.OnButton? || c.OnKey? then [c] else [])
    ensures UnitsOf([c]) == if c.OnScroll? then [(c.dx, c.dy)] else []
  {
    assert [c][..0] == [];
  }

  lemma {:induction false} RestSame(calls: seq<Call>)
    ensures Presses(Rest(calls)) == Presses(calls) && UnitsOf(Rest(calls)) == UnitsOf(calls)
  {
    if calls != [] {
      var front, c := calls[..|calls| - 1], calls[|calls| - 1];
      RestSame(front);
      OneCall(c);
      CallsAppend(Rest(front), [c]);
      assert Rest(front) + [] == Rest(front);
    }
  }

  lemma {:induction false} ScrolledUnits(out: seq<Unit>)
    ensures UnitsOf(Scrolled(out)) == Pairs(out) && Presses(Scrolled(out)) == []
  {
    if out != [] {
      var front, u := out[..|out| - 1], out[|out| - 1];
      ScrolledUnits(front);
      OneCall(OnScroll(u.dx, u.dy));
      CallsAppend(Scrolled(front), [OnScroll(u.dx, u.dy)]);
      assert Pairs(out) == Pairs(front) + [(u.dx, u.dy)];
    }
  }

  /** The presses of a sink that handled these events one by one. */
  ghost predicate Pressing(keys: map<nat, nat>, evs: seq<Ev>, d: Sink) {
    Presses(d.calls) == CallsFor(keys, evs) && forall code :: code in d.held <==> Pressed(evs, code)
  }

  /** Its scrolling. */
  ghost predicate Scrolling(s: Scroll, items: seq<Item>, d: Sink) {
    d.scroll == FeedAll(s, items).s && UnitsOf(d.calls) == Pairs(FeedAll(s, items).out)
  }

  lemma EmitAdds(d: Sink, t: Turn)
    ensures var e := Emit(d, t);
            && e.scroll == t.s && e.held == d.held && Presses(e.calls) == Presses(d.calls)
            && UnitsOf(e.calls) == UnitsOf(d.calls) + Pairs(t.out)
  {
    ScrolledUnits(t.out);
    CallsAppend(d.calls, Scrolled(t.out));
  }

  lemma FeedOne(s: Scroll, items: seq<Item>, item: Item)
    ensures var t := FeedAll(s, items); var u := Feed(t.s, item);
            FeedAll(s, items + [item]) == Turn(u.s, t.out + u.out) &&
              Pairs(t.out + u.out) == Pairs(t.out) + Pairs(u.out)
  {
    assert (items + [item])[..|items|] == items;
  }

  /** An item for the scroll state makes its scroll calls and no others. */
  lemma ScrollHandled(s: Scroll, items: seq<Item>, d: Sink, item: Item)
    requires Scrolling(s, items, d)
    ensures var e := Emit(d, Feed(d.scroll, item));
            Scrolling(s, items + [item], e) && e.held == d.held && Presses(e.calls) == Presses(d.calls)
  {
    EmitAdds(d, Feed(d.scroll, item));
    FeedOne(s, items, item);
  }

  /** One more event or wakeup, and what it adds to the history. */
  lemma TraceNext(trace: seq<Seen>, e: Seen)
    ensures Events(trace + [e]) == if e.Seen? then Events(trace) + [e.ev] else Events(trace)
    ensures ScrollItems(trace + [e]) == ScrollItems(trace) + ItemsOf(e)
  {
    assert (trace + [e])[..|trace|] == trace;
    assert Events(trace) + [] == Events(trace);
  }

  lemma EventNext(keys: map<nat, nat>, before: seq<Ev>, ev: Ev)
    ensures CallsFor(keys, before + [ev]) == CallsFor(keys, before) + CallFor(keys, before, ev)
    ensures !ev.Flags? ==> forall code :: Pressed(before + [ev], code) == Pressed(before, code)
  {
    assert (before + [ev])[..|before|] == before;
  }

  /** The event makes the call it stands for. */
  lemma CallMade(keys: map<nat, nat>, d: Sink, before: seq<Ev>, ev: Ev, now: int)
    requires !ev.Move? && !ev.Wheel? && forall code :: code in d.held <==> Pressed(before, code)
    ensures var e := Dispatched(keys, d, ev, now);
            e.scroll == d.scroll && e.calls == d.calls + CallFor(keys, before, ev)
  {
    assert d.calls + [] == d.calls;
  }

  /** And the modifier it is about is held as it says. */
  lemma HeldAfter(keys: map<nat, nat>, d: Sink, before: seq<Ev>, ev: Ev, now: int, code: nat)
    requires !ev.Move? && !ev.Wheel? && (code in d.held <==> Pressed(before, code))
    ensures code in Dispatched(keys, d, ev, now).held <==> Pressed(before + [ev], code)
  {
    assert (before + [ev])[..|before|] == before;
  }

  /** An event that is not scrolling makes the call it stands for, and only that. */
  lemma PressHandled(keys: map<nat, nat>, d: Sink, before: seq<Ev>, ev: Ev, now: int)
    requires !ev.Move? && !ev.Wheel? && forall code :: code in d.held <==> Pressed(before, code)
    ensures var e := Dispatched(keys, d, ev, now);
            && e.scroll == d.scroll && Presses(e.calls) == Presses(d.calls) + CallFor(keys, before, ev)
            && UnitsOf(e.calls) == UnitsOf(d.calls)
            && forall code :: code in e.held <==> Pressed(before + [ev], code)
  {
    CallMade(keys, d, before, ev, now);
    var c := CallFor(keys, before, ev);
    CallsAppend(d.calls, c);
    OwnCalls(keys, before, ev);
    assert UnitsOf(d.calls) + [] == UnitsOf(d.calls);
    forall code ensures code in Dispatched(keys, d, ev, now).held <==> Pressed(before + [ev], code) {
      HeldAfter(keys, d, before, ev, now, code);
    }
  }

  lemma OwnCalls(keys: map<nat, nat>, before: seq<Ev>, ev: Ev)
    ensures var c := CallFor(keys, before, ev); Presses(c) == c && UnitsOf(c) == []
  {
    var c := CallFor(keys, before, ev);
    if c != [] {
      OneCall(c[0]);
      assert c == [c[0]];
    }
  }

  lemma EventPresses(keys: map<nat, nat>, s: Scroll, items: seq<Item>, evs: seq<Ev>, d: Sink, ev: Ev, now: int)
    requires Pressing(keys, evs, d) && Scrolling(s, items, d) && !ev.Move?
    ensures Pressing(keys, evs + [ev], Dispatched(keys, d, ev, now))
    ensures Scrolling(s, items + ItemsOf(Seen(ev, now)), Dispatched(keys, d, ev, now))
  {
    EventNext(keys, evs, ev);
    assert CallsFor(keys, evs) + [] == CallsFor(keys, evs) && items + [] == items;
    match ev
    case Wheel(d1, d2, continuous) =>
      ScrollHandled(s, items, d, if continuous then Pixels(d1, d2, now) else Notch(d1, d2, now));
    case _ => PressHandled(keys, d, evs, ev, now);
  }

  lemma MovePresses(keys: map<nat, nat>, evs: seq<Ev>, d: Sink, ev: Ev)
    requires Pressing(keys, evs, d) && ev.Move?
    ensures Pressing(keys, evs + [ev], d)
  {
    EventNext(keys, evs, ev);
    assert CallsFor(keys, evs) + [] == CallsFor(keys, evs);
  }

  lemma ItemHandled(keys: map<nat, nat>, s: Scroll, trace: seq<Seen>, d: Sink, e: Seen)
    requires Pressing(keys, Events(trace), d) && Scrolling(s, ScrollItems(trace), d)
    ensures Pressing(keys, Events(trace + [e]), One(keys, d, e))
    ensures Scrolling(s, ScrollItems(trace + [e]), One(keys, d, e))
  {
    TraceNext(trace, e);
    match e
    case Woke(now) => ScrollHandled(s, ScrollItems(trace), d, Idle(now));
    case Seen(ev, now) =>
      if ev.Move? {
        MovePresses(keys, Events(trace), d, ev);
        assert ScrollItems(trace) + [] == ScrollItems(trace);
      } else {
        EventPresses(keys, s, ScrollItems(trace), Events(trace), d, ev, now);
      }
  }

  lemma {:induction false} OthersHandled(keys: map<nat, nat>, s: Sink, trace: seq<Seen>)
    requires s.held == {} && s.calls == []
    ensures var d := Others(keys, s, trace);
            Pressing(keys, Events(trace), d) && Scrolling(s.scroll, ScrollItems(trace), d)
  {
    if trace == [] {
      NothingHandled(keys, s, trace);
    } else {
      OthersHandled(keys, s, trace[..|trace| - 1]);
      OneMoreHandled(keys, s, trace);
    }
  }

  lemma NothingHandled(keys: map<nat, nat>, s: Sink, trace: seq<Seen>)
    requires trace == [] && s.held == {} && s.calls == []
    ensures var d := Others(keys, s, trace);
            Pressing(keys, Events(trace), d) && Scrolling(s.scroll, ScrollItems(trace), d)
  {
  }

  lemma OneMoreHandled(keys: map<nat, nat>, s: Sink, trace: seq<Seen>)
    requires trace != []
    requires var front := trace[..|trace| - 1]; var d := Others(keys, s, front);
             Pressing(keys, Events(front), d) && Scrolling(s.scroll, ScrollItems(front), d)
    ensures var d := Others(keys, s, trace);
            Pressing(keys, Events(trace), d) && Scrolling(s.scroll, ScrollItems(trace), d)
  {
    var front, e := trace[..|trace| - 1], trace[|trace| - 1];
    assert front + [e] == trace;
    assert Others(keys, s, trace) == One(keys, Others(keys, s, front), e);
    ItemHandled(keys, s.scroll, front, Others(keys, s, front), e);
  }

  /**
   Over any interleaving of taps and drains, the button and key calls are those
   the accepted events stand for, in order, and the scroll calls are the units
   the scroll state yields for the wheel and trackpad events and wakeups alone.
   */
  lemma CallsAreMeant(keys: map<nat, nat>, s: Sink, ops: seq<Op>)
    requires s.held == {} && s.calls == []
    ensures var l := DoAll(keys, Line([], [], [], s), ops);
            && Events(l.trace) + l.queue == l.accepted
            && Presses(l.sink.calls) == CallsFor(keys, Events(l.trace))
            && UnitsOf(l.sink.calls) == Pairs(FeedAll(s.scroll, ScrollItems(l.trace)).out)
  {
    var l := DoAll(keys, Line([], [], [], s), ops);
    CoalescingIsFaithful(keys, s, ops);
    OthersHandled(keys, s, l.trace);
    RestSame(l.sink.calls);
    RestSame(Others(keys, s, l.trace).calls);
  }

  /** The latest move event. */
  function LatestMove(evs: seq<Ev>): Option<Ev> {
    if evs == [] then None
    else if evs[|evs| - 1].Move? then Some(evs[|evs| - 1])
    else LatestMove(evs[..|evs| - 1])
  }

  /** Where the latest OnMove call puts the pointer. */
  function Reported(calls: seq<Call>): Option<(i32, i32)> {
    if calls == [] then None
    else
      var c := calls[|calls| - 1];
      if c.OnMove? then Some((c.x, c.y)) else Reported(calls[..|calls| - 1])
  }

  lemma {:induction false} ReportedAppend(a: seq<Call>, b: seq<Call>)
    ensures Reported(a + b) == if Reported(b).Some? then Reported(b) else Reported(a)
  {
    if b == [] {
      assert a + b == a;
    } else {
      assert (a + b)[..|a + b| - 1] == a + b[..|b| - 1];
      ReportedAppend(a, b[..|b| - 1]);
    }
  }

  lemma {:induction false} NothingReported(calls: seq<Call>)
    requires NoMoves(calls)
    ensures Reported(calls).None?
  {
    if calls != [] { NothingReported(calls[..|calls| - 1]); }
  }

  lemma {:induction false} LatestAppend(a: seq<Ev>, b: seq<Ev>)
    ensures LatestMove(a + b) == if LatestMove(b).Some? then LatestMove(b) else LatestMove(a)
  {
    if b == [] {
      assert a + b == a;
    } else {
      assert (a + b)[..|a + b| - 1] == a + b[..|b| - 1];
      LatestAppend(a, b[..|b| - 1]);
    }
  }

  lemma {:induction false} LatestInBatch(evs: seq<Ev>, clock: nat -> int)
    ensures LastMove(Stamp(evs, clock)) == LatestMove(evs)
  {
    if evs != [] {
      LatestInBatch(evs[..|evs| - 1], clock);
      StampNext(evs, clock, |evs| - 1);
      assert evs[..|evs| - 1 + 1] == evs;
    }
  }

  /** Position and last move agree. */
  ghost predicate AtMove(p: Option<(i32, i32)>, e: Option<Ev>) {
    && (p.Some? <==> e.Some?)
    && (e.Some? ==> e.value.Move? && p == Some((Int32(e.value.x), Int32(e.value.y))))
  }

  /** Calls other than moves do not change where the pointer was reported. */
  lemma OthersReport(keys: map<nat, nat>, s: Sink, batch: seq<Seen>)
    ensures Reported(Others(keys, s, batch).calls) == Reported(s.calls)
  {
    var mid := OthersAdds(keys, s, batch);
    NothingReported(mid);
    ReportedAppend(s.calls, mid);
  }

  lemma BatchReports(keys: map<nat, nat>, s: Sink, evs: seq<Ev>, clock: nat -> int)
    ensures var r := Reported(OnBatch(keys, s, Stamp(evs, clock)).calls);
            if LatestMove(evs).Some? then AtMove(r, LatestMove(evs)) else r == Reported(s.calls)
  {
    var batch := Stamp(evs, clock);
    OthersReport(keys, s, batch);
    LatestInBatch(evs, clock);
    NoMoveNoSum(batch);
    ReportedAppend(Others(keys, s, batch).calls, MoveCall(batch));
  }

  /** Whatever is summed, the pointer is always reported where the latest handled move event left it. */
  lemma {:induction false} PointerIsWhereItWent(keys: map<nat, nat>, s: Sink, ops: seq<Op>)
    requires s.calls == []
    ensures var l := DoAll(keys, Line([], [], [], s), ops);
            AtMove(Reported(l.sink.calls), LatestMove(Events(l.trace)))
  {
    if ops != [] {
      var front := ops[..|ops| - 1];
      PointerIsWhereItWent(keys, s, front);
      var l := DoAll(keys, Line([], [], [], s), front);
      match ops[|ops| - 1]
      case Tap(e) =>
      case Turnover(clock, idle) =>
        if l.queue == [] {
          WakeNext(keys, s, l.trace, idle);
          WakeReports(l.sink, idle);
        } else {
          BatchReports(keys, l.sink, l.queue, clock);
          EventsAppend(l.trace, Stamp(l.queue, clock));
          StampEvents(l.queue, clock);
          LatestAppend(Events(l.trace), l.queue);
        }
    }
  }

  lemma WakeReports(s: Sink, idle: int)
    ensures Reported(OnWake(s, idle).calls) == Reported(s.calls)
  {
    var out := OnIdle(s.scroll, idle).out;
    ScrolledNoMoves(out);
    NothingReported(Scrolled(out));
    ReportedAppend(s.calls, Scrolled(out));
  }

  /** A batch of one move is that move dispatched on its own. */
  lemma OneMoveAlone(keys: map<nat, nat>, s: Sink, x: real, y: real, dx: real, dy: real, now: int)
    ensures OnBatch(keys, s, [Seen(Move(x, y, dx, dy), now)]) == Dispatched(keys, s, Move(x, y, dx, dy), now)
  {
    var e := Seen(Move(x, y, dx, dy), now);
    BatchNext(keys, s, [], e);
    assert [] + [e] == [e];
  }
}
