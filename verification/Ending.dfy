/**
 What ends a transfer ends it for good: an ended transfer never changes again, a
 cancel by its sender stops it, Detach stops them all, and a manager that is not
 attached says nothing.
 */
module Endings {
  import opened Common
  import opened Names
  import opened Paths
  import opened Transfers
  import opened Inboxes

  /** An ended transfer holds nothing open, so no step finds anything to change. */
  lemma StepFrozen(m: Inbox, a: Action, r: nat)
    requires Inv(m) && r < |m.arena| && m.arena[r].state.Terminal()
    ensures r < |Step(m, a).arena| && Step(m, a).arena[r] == m.arena[r]
  {
    assert Good(m, r);
    match a
    case Work(io) =>
      if m.queue != [] && m.queue[0].0 == r { InertIgnores(m.arena[r], m.disk, m.queue[0].1, io); }
    case Offer(man, up) => OfferAdds(m, man, up);
    case _ =>
  }

  /** Once ended, a transfer is as it was left, whatever comes. */
  lemma {:induction false} EndedIsFrozen(m: Inbox, steps: seq<Action>, r: nat)
    requires Inv(m) && AllFit(steps) && r < |m.arena| && m.arena[r].state.Terminal()
    ensures r < |Run(m, steps).arena| && Run(m, steps).arena[r] == m.arena[r]
    decreases |steps|
  {
    if steps != [] {
      AllFitSplit(steps);
      StepKeeps(m, steps[0]);
      StepFrozen(m, steps[0], r);
      EndedIsFrozen(Step(m, steps[0]), steps[1..], r);
    }
  }

  /** The step by itself. */
  lemma CanceledOnce(m: Inbox, tid: TID, from: string, to: string, reason: string)
    requires Inv(m) && tid in m.live
    ensures var r := m.live[tid]; var t := m.arena[r]; var m1 := HandleCancel(m, tid, from, to, reason);
            && |m1.arena| == |m.arena| && r < |m.arena| && m1.arena[r].state.Terminal() == (
               (to == m.self && from == t.from) || t.state.Terminal())
            && var e := m1.arena[r];
               if to != m.self || from != t.from then m1 == m
               else if t.state.Terminal() then e == t
               else e == t.(handle := None, err := Some(Remote(reason)),
                            state := if reason == "declined" then Declined else Canceled)
  {
    assert Good(m, m.live[tid]);
  }

  /**
   A cancel from the transfer's own sender, addressed to this node, ends it for
   good with the reason given, whatever is still queued for it; from anyone else
   it changes nothing.
   */
  lemma CancelStops(m: Inbox, tid: TID, from: string, to: string, reason: string, steps: seq<Action>)
    requires Inv(m) && AllFit(steps) && tid in m.live
    ensures var r := m.live[tid]; var t := m.arena[r]; var m1 := Step(m, CancelIn(tid, from, to, reason));
            && r < |Run(m1, steps).arena|
            && var e := Run(m1, steps).arena[r];
               if to != m.self || from != t.from then m1 == m
               else if t.state.Terminal() then e == t
               else
                 && (e.state == if reason == "declined" then Declined else Canceled) && e.handle.None?
                 && e.err == Some(Remote(reason)) && e.accepted == t.accepted && e.done == t.done
  {
    var r := m.live[tid];
    var m1 := HandleCancel(m, tid, from, to, reason);
    CanceledOnce(m, tid, from, to, reason);
    CancelInKeeps(m, tid, from, to, reason);
    RunKeeps(m1, steps);
    if to == m.self && from == m.arena[r].from { EndedIsFrozen(m1, steps, r); }
  }

  /** Nothing is registered and nothing is under way. */
  ghost predicate Stopped(m: Inbox) {
    Inv(m) && m.live == map[] && m.order == [] && forall r :: 0 <= r < |m.arena| ==> Inert(m.arena[r])
  }

  lemma StoppedStep(m: Inbox, a: Action)
    requires Stopped(m) && !a.Offer?
    ensures var m' := Step(m, a);
            Stopped(m') && m'.arena == m.arena && m'.disk == m.disk && (a.Attach? || m'.attached == false || m.attached)
    ensures Step(m, a).sent == m.sent
  {
    StepKeeps(m, a);
    if a.Work? && m.queue != [] {
      InertIgnores(m.arena[m.queue[0].0], m.disk, m.queue[0].1, a.io);
      assert m.sent + [] == m.sent;
    }
  }

  lemma {:induction false} StoppedRun(m: Inbox, steps: seq<Action>)
    requires Stopped(m) && forall a :: a in steps ==> !a.Offer?
    ensures var e := Run(m, steps); Stopped(e) && e.arena == m.arena && e.disk == m.disk && e.sent == m.sent
    decreases |steps|
  {
    if steps != [] {
      StoppedStep(m, steps[0]);
      StoppedRun(Step(m, steps[0]), steps[1..]);
    }
  }

  /** What Detach makes of a transfer. */
  predicate LeftBehind(t: Inbound, e: Inbound) {
    e == t.(handle := None, state := if t.state.Receiving? then Canceled else t.state)
  }

  lemma DetachLeaves(m: Inbox, r: nat)
    requires Inv(m) && r < |m.arena|
    ensures LeftBehind(m.arena[r], HandleDetach(m).arena[r]) && Inert(HandleDetach(m).arena[r])
  {
    assert Good(m, r);
  }

  /**
   Detach cancels every transfer under way and closes its file; until the next
   offer nothing is written, sent or changed, however many chunks are queued.
   */
  lemma DetachStops(m: Inbox, steps: seq<Action>)
    requires Inv(m) && AllFit(steps) && forall a :: a in steps ==> !a.Offer?
    ensures var e := Run(HandleDetach(m), steps);
            && |e.arena| == |m.arena| && (forall r :: 0 <= r < |m.arena| ==> LeftBehind(m.arena[r], e.arena[r]))
            && e.live == map[] && e.order == [] && e.disk == m.disk && e.sent == m.sent
  {
    StepKeeps(m, Action.Detach);
    forall r | 0 <= r < |m.arena|
      ensures LeftBehind(m.arena[r], HandleDetach(m).arena[r]) && Inert(HandleDetach(m).arena[r])
    {
      DetachLeaves(m, r);
    }
    StoppedRun(HandleDetach(m), steps);
  }

  /** Whether the node runs, by the last attach or detach. */
  function Running(steps: seq<Action>, before: bool): bool
    decreases |steps|
  {
    if steps == [] then before
    else Running(steps[1..], if steps[0].Attach? then true else if steps[0].Detach? then false else before)
  }

  lemma AttachedNext(m: Inbox, a: Action)
    requires Typed(m)
    ensures Step(m, a).attached == if a.Attach? then true else if a.Detach? then false else m.attached
    ensures !m.attached ==> Step(m, a).sent == m.sent
  {
    assert m.sent + [] == m.sent;
  }

  /** A manager is attached as its last attach or detach says; while it is not, it sends nothing. */
  lemma {:induction false} SilentUntilAttached(m: Inbox, steps: seq<Action>)
    requires Typed(m)
    ensures Run(m, steps).attached == Running(steps, m.attached)
    ensures !m.attached && Attach !in steps ==> Run(m, steps).sent == m.sent
    decreases |steps|
  {
    if steps != [] {
      TypedKept(m, steps[0]);
      AttachedNext(m, steps[0]);
      SilentUntilAttached(Step(m, steps[0]), steps[1..]);
    }
  }

  /** From k on the transfers are registered, and the last thirty-two of them are listed in order. */
  ghost predicate Newest(m: Inbox, k: nat) {
    && k <= |m.arena|
    && (forall r :: 0 <= r < |m.arena| ==> (IsLive(m, r) <==> k <= r))
    && (forall tid :: tid in m.live ==> m.live[tid] < |m.arena| && m.arena[m.live[tid]].tid == tid)
    && |m.order| == (if |m.arena| - k < 32 then |m.arena| - k else 32)
    && forall j :: 0 <= j < |m.order| ==> m.order[j] == m.arena[|m.arena| - |m.order| + j].tid
  }

  lemma RegisterNewest(m: Inbox, t: Inbound, k: nat)
    requires Newest(m, k) && t.tid !in m.live
    ensures Newest(Register(m, t), k)
  {
    var m' := Register(m, t);
    forall r | 0 <= r < |m'.arena| ensures IsLive(m', r) <==> k <= r {
      if r < |m.arena| { assert m'.arena[r] == m.arena[r] && (IsLive(m, r) <==> k <= r); }
    }
  }

  /** Same ids, registry and order. */
  lemma SameNewest(m: Inbox, m': Inbox, k: nat)
    requires Newest(m, k) && m'.live == m.live && m'.order == m.order && |m'.arena| == |m.arena|
    requires forall r :: 0 <= r < |m.arena| ==> m'.arena[r].tid == m.arena[r].tid
    ensures Newest(m', k)
  {
    forall r | 0 <= r < |m'.arena| ensures IsLive(m', r) <==> k <= r {
      assert IsLive(m, r) <==> k <= r;
    }
  }

  lemma OfferNewest(m: Inbox, man: Manifest, up: bool, k: nat)
    requires Newest(m, k)
    ensures Newest(HandleOffer(m, man, up), k)
  {
    if Draft(m, man).Some? {
      RegisterNewest(m, Draft(m, man).value, k);
      SameNewest(Register(m, Draft(m, man).value), HandleOffer(m, man, up), k);
    }
  }

  lemma StepNewest(m: Inbox, a: Action, k: nat)
    requires Inv(m) && Fits(a) && Newest(m, k)
    ensures Newest(Step(m, a), if a == Detach then |m.arena| else k)
  {
    StepKeeps(m, a);
    var m' := Step(m, a);
    match a
    case Offer(man, up) => OfferNewest(m, man, up, k);
    case Detach =>
    case Work(io) => SameIds(m, a); SameNewest(m, m', k);
    case Answer(_, _, _, _) => SameIds(m, a); SameNewest(m, m', k);
    case CancelIn(_, _, _, _) => SameIds(m, a); SameNewest(m, m', k);
    case _ => SameNewest(m, m', k);
  }

  lemma SameOrder(m: Inbox, a: Action)
    requires Typed(m) && (a.Work? || a.Answer? || a.CancelIn?)
    ensures |Step(m, a).arena| == |m.arena| && Step(m, a).order == m.order
  {
    match a
    case Work(io) =>
    case Answer(tid, accept, mkdir, up) =>
    case CancelIn(tid, from, to, reason) =>
  }

  lemma SameIds(m: Inbox, a: Action)
    requires Inv(m) && (a.Work? || a.Answer? || a.CancelIn?) && ArenaExtends(m, Step(m, a))
    ensures var m' := Step(m, a); |m'.arena| == |m.arena| && m'.order == m.order && m'.live == m.live
    ensures forall r :: 0 <= r < |m.arena| ==> Step(m, a).arena[r].tid == m.arena[r].tid
  {
    SameOrder(m, a);
    OthersKeepRegistry(m, a);
    var m' := Step(m, a);
    forall r | 0 <= r < |m.arena| ensures m'.arena[r].tid == m.arena[r].tid {
      assert Extends(m.arena[r], m'.arena[r]);
    }
  }

  lemma {:induction false} RunNewest(m: Inbox, steps: seq<Action>, k: nat) returns (k': nat)
    requires Inv(m) && AllFit(steps) && Newest(m, k)
    ensures Newest(Run(m, steps), k')
    decreases |steps|
  {
    k' := k;
    if steps != [] {
      AllFitSplit(steps);
      StepKeeps(m, steps[0]);
      StepNewest(m, steps[0], k);
      k' := RunNewest(Step(m, steps[0]), steps[1..], if steps[0] == Detach then |m.arena| else k);
    }
  }

  /**
   In every reachable state the transfers since the last Detach are the
   registered ones, and the status list shows the newest thirty-two of them, in
   the order in which they came.
   */
  lemma ListsTheNewest(self: string, staging: Dir, autoMax: i64, disk: Disk, steps: seq<Action>)
    requires AllFit(steps)
    ensures exists k :: Newest(Run(Empty(self, staging, autoMax, disk), steps), k)
  {
    var k := RunNewest(Empty(self, staging, autoMax, disk), steps, 0);
  }
}
