/**
 What the sender of an offer hears: every message a receiver sends says what has
 just become of one transfer, and over a whole run the sender can tell from the
 messages alone how its offer fared.
 */
module Notices {
  import opened Common
  import opened Names
  import opened Paths
  import opened Transfers
  import opened Inboxes

  /** The message a change calls for; was is None when the transfer is new. */
  function News(was: Option<Inbound>, now: Inbound): seq<Control> {
    match was
    case None => if now.state.Receiving? then [FileAccept(now.tid, now.from)] else []
    case Some(t) =>
      if t.state.Pending? && now.state.Receiving? then [FileAccept(t.tid, t.from)]
      else if t.state.Pending? && now.state.Declined? && now.err.None? then [FileCancel(t.tid, t.from, "declined")]
      else if t.state.Receiving? && now.state.Done? then [FileDone(t.tid, t.from)]
      else if t.state.Receiving? && now.state.Failed? then [FileCancel(t.tid, t.from, "receive failed")]
      else []
  }

  /** What became of transfer r in a step. */
  function NewsOf(m: Inbox, m': Inbox, r: nat): seq<Control>
    requires r < |m'.arena|
  {
    News(if r < |m.arena| then Some(m.arena[r]) else None, m'.arena[r])
  }

  /** A failure is recorded with its reason, and nothing else is before the end. */
  predicate Explained(t: Inbound) {
    && (t.state.Failed? ==> t.err.Some? && !t.err.value.Remote?)
    && (t.state.Pending? || t.state.Receiving? || t.state.Done? ==> t.err.None?) && (t.state.Pending? ==> !t.auto)
    && (t.state.Declined? || t.state.Canceled? ==> t.err.Some? ==> t.err.value.Remote?)
  }

  ghost predicate AllExplained(m: Inbox) { forall r :: 0 <= r < |m.arena| ==> Explained(m.arena[r]) }

  /** The connection takes what the step sends. */
  predicate Delivers(a: Action) {
    match a
    case Offer(_, up) => up
    case Answer(_, _, _, up) => up
    case Work(io) => io.told
    case _ => true
  }

  /** The step sends what became of one transfer, or nothing when nothing became of any. */
  ghost predicate Notified(m: Inbox, m': Inbox) {
    && (forall r :: 0 <= r < |m'.arena| && NewsOf(m, m', r) != [] ==> m'.sent == m.sent + NewsOf(m, m', r))
    && ((forall r :: 0 <= r < |m'.arena| ==> NewsOf(m, m', r) == []) ==> m'.sent == m.sent)
  }

  /** An unchanged transfer is no news. */
  lemma NoNews(t: Inbound)
    ensures News(Some(t), t) == []
  {
  }

  /** Only transfer r changed, and what was sent is its news. */
  lemma OneNotified(m: Inbox, m': Inbox, r: nat)
    requires |m.arena| <= |m'.arena| <= |m.arena| + 1 && r < |m'.arena| && (|m'.arena| > |m.arena| ==> r == |m.arena|)
    requires forall q :: 0 <= q < |m.arena| && q != r ==> m'.arena[q] == m.arena[q]
    requires m'.sent == m.sent + NewsOf(m, m', r)
    ensures Notified(m, m')
  {
    forall q | 0 <= q < |m'.arena| && q != r ensures NewsOf(m, m', q) == [] {
      NoNews(m.arena[q]);
    }
    assert NewsOf(m, m', r) == [] ==> m'.sent == m.sent;
  }

  lemma QuietNotified(m: Inbox, m': Inbox)
    requires m'.arena == m.arena && m'.sent == m.sent
    ensures Notified(m, m')
  {
    forall r | 0 <= r < |m.arena| ensures NewsOf(m, m', r) == [] {
      NoNews(m.arena[r]);
    }
  }

  lemma OfferNotified(m: Inbox, man: Manifest)
    requires m.attached
    ensures Notified(m, HandleOffer(m, man, true))
  {
    var m' := HandleOffer(m, man, true);
    if Draft(m, man).Some? { OneNotified(m, m', |m.arena|); } else { QuietNotified(m, m'); }
  }

  lemma AnswerNotified(m: Inbox, tid: TID, accept: bool, mkdir: bool)
    requires Typed(m) && AllExplained(m) && m.attached
    ensures Notified(m, HandleAnswer(m, tid, accept, mkdir, true))
  {
    var m' := HandleAnswer(m, tid, accept, mkdir, true);
    if tid in m.live && m.arena[m.live[tid]].state.Pending? {
      assert Explained(m.arena[m.live[tid]]);
      assert m.sent + [] == m.sent;
      OneNotified(m, m', m.live[tid]);
    } else {
      QuietNotified(m, m');
    }
  }

  lemma ProcessNews(t: Inbound, disk: Disk, c: Chunk, io: Io)
    requires |t.files| == |t.names|
    ensures var o := Process(t, disk, c, io); ControlFor(o.t, o.reply) == News(Some(t), o.t)
  {
    if t.state.Receiving? {
      if |c.data| <= CHUNK_SIZE && t.curIdx <= c.idx <= |t.files| && !c.fin && Refusal(t, c).None? {
        StoreNews(t, disk, c, io);
      }
    }
  }

  lemma StoreNews(t: Inbound, disk: Disk, c: Chunk, io: Io)
    requires t.state.Receiving? && t.curIdx < |t.files| == |t.names| && |c.data| <= CHUNK_SIZE
    ensures var o := Store(t, disk, c, io); ControlFor(o.t, o.reply) == News(Some(t), o.t)
  {
  }

  lemma WorkNotified(m: Inbox, io: Io)
    requires Typed(m) && m.attached && io.told
    ensures Notified(m, HandleWork(m, io))
  {
    if m.queue == [] {
      QuietNotified(m, m);
    } else {
      var (r, c) := m.queue[0];
      ProcessNews(m.arena[r], m.disk, c, io);
      OneNotified(m, HandleWork(m, io), r);
    }
  }

  lemma CancelNotified(m: Inbox, tid: TID, from: string, to: string, reason: string)
    requires Typed(m)
    ensures Notified(m, HandleCancel(m, tid, from, to, reason))
  {
    var m' := HandleCancel(m, tid, from, to, reason);
    if to == m.self && tid in m.live {
      assert m.sent + [] == m.sent;
      OneNotified(m, m', m.live[tid]);
    } else {
      QuietNotified(m, m');
    }
  }

  lemma DetachNotified(m: Inbox)
    ensures Notified(m, HandleDetach(m))
  {
    var m' := HandleDetach(m);
    forall r | 0 <= r < |m'.arena| ensures NewsOf(m, m', r) == [] {
      NoNews(m.arena[r]);
    }
  }

  /**
   Every step of an attached manager sends exactly the news: an accept when a
   transfer starts, a decline when the user declines it, done or a failure when
   it ends so, and nothing when it is canceled or nothing changes.
   */
  lemma StepNotified(m: Inbox, a: Action)
    requires Typed(m) && AllExplained(m) && m.attached && Delivers(a)
    ensures Notified(m, Step(m, a))
  {
    match a
    case Offer(man, _) => OfferNotified(m, man);
    case Answer(tid, accept, mkdir, _) => AnswerNotified(m, tid, accept, mkdir);
    case Work(io) => WorkNotified(m, io);
    case CancelIn(tid, from, to, reason) => CancelNotified(m, tid, from, to, reason);
    case Detach => DetachNotified(m);
    case _ => QuietNotified(m, Step(m, a));
  }

  lemma StoreExplained(t: Inbound, disk: Disk, c: Chunk, io: Io)
    requires t.state.Receiving? && Explained(t) && t.curIdx < |t.files| == |t.names| && |c.data| <= CHUNK_SIZE
    ensures Explained(Store(t, disk, c, io).t)
  {
  }

  lemma ProcessExplained(t: Inbound, disk: Disk, c: Chunk, io: Io)
    requires |t.files| == |t.names| && Explained(t)
    ensures Explained(Process(t, disk, c, io).t)
  {
    if t.state.Receiving? {
      if |c.data| <= CHUNK_SIZE && t.curIdx <= c.idx <= |t.files| && !c.fin && Refusal(t, c).None? {
        StoreExplained(t, disk, c, io);
      }
    }
  }

  lemma WorkExplained(m: Inbox, io: Io)
    requires Typed(m) && AllExplained(m)
    ensures AllExplained(HandleWork(m, io))
  {
    if m.queue != [] {
      var (r, c) := m.queue[0];
      ProcessExplained(m.arena[r], m.disk, c, io);
    }
  }

  lemma OfferExplained(m: Inbox, man: Manifest, up: bool)
    requires Typed(m) && AllExplained(m)
    ensures AllExplained(HandleOffer(m, man, up))
  {
    if Draft(m, man).Some? { assert Explained(Draft(m, man).value); }
  }

  lemma StepExplained(m: Inbox, a: Action)
    requires Typed(m) && AllExplained(m)
    ensures AllExplained(Step(m, a))
  {
    match a
    case Offer(man, up) => OfferExplained(m, man, up);
    case Work(io) => WorkExplained(m, io);
    case _ =>
  }

  lemma {:induction false} RunExplained(m: Inbox, steps: seq<Action>)
    requires Typed(m) && AllExplained(m)
    ensures AllExplained(Run(m, steps))
    decreases |steps|
  {
    if steps != [] {
      TypedKept(m, steps[0]);
      StepExplained(m, steps[0]);
      RunExplained(Step(m, steps[0]), steps[1..]);
    }
  }

  /** What was sent about an id, in order. */
  function About(sent: seq<Control>, tid: TID): seq<Control> {
    if sent == [] then []
    else About(sent[..|sent| - 1], tid) + if sent[|sent| - 1].tid == tid then [sent[|sent| - 1]] else []
  }

  /** The messages that can have been sent about a transfer in this state. */
  predicate Story(t: Inbound, told: seq<Control>) {
    var accept := FileAccept(t.tid, t.from);
    match t.state
    case Pending => told == []
    case Receiving => told == [accept]
    case Done => told == [accept, FileDone(t.tid, t.from)]
    case Failed => told == [accept, FileCancel(t.tid, t.from, "receive failed")] ||
      (told == [] && t.err == Some(MkdirFailed))
    case Declined =>
      if t.err.None? then told == [FileCancel(t.tid, t.from, "declined")] else told == [] || told == [accept]
    case Canceled => told == [] || told == [accept]
  }

  /** Every registered transfer has its story, and nothing was sent about other ids. */
  ghost predicate Storied(m: Inbox) {
    && (forall tid :: tid in m.live ==> m.live[tid] < |m.arena| && Story(m.arena[m.live[tid]], About(m.sent, tid)))
    && (forall tid :: tid !in m.live ==> About(m.sent, tid) == [])
  }

  lemma AboutOne(sent: seq<Control>, c: Control, tid: TID)
    ensures About(sent + [c], tid) == if c.tid == tid then About(sent, tid) + [c] else About(sent, tid)
  {
    assert (sent + [c])[..|sent|] == sent;
    assert About(sent, tid) + [] == About(sent, tid);
  }

  /** The ways a step can take a transfer. */
  predicate Moves(was: Option<Inbound>, now: Inbound) {
    match was
    case None => now.state.Pending? || now.state.Receiving?
    case Some(t) =>
      && now.tid == t.tid && now.from == t.from
      && (|| (now.state == t.state && now.err == t.err)
          || (t.state.Pending? && now.state.Receiving?)
          || (t.state.Pending? && now.state.Failed? && now.err == Some(MkdirFailed))
          || (t.state.Pending? && (now.state.Declined? || now.state.Canceled?))
          || (t.state.Receiving? && (now.state.Done? || now.state.Failed?))
          || (t.state.Receiving? && (now.state.Canceled? || (now.state.Declined? && now.err.Some?))))
  }

  lemma StoreMoves(t: Inbound, disk: Disk, c: Chunk, io: Io)
    requires t.state.Receiving? && t.curIdx < |t.files| == |t.names| && |c.data| <= CHUNK_SIZE
    ensures Moves(Some(t), Store(t, disk, c, io).t)
  {
  }

  lemma ProcessMoves(t: Inbound, disk: Disk, c: Chunk, io: Io)
    requires |t.files| == |t.names|
    ensures Moves(Some(t), Process(t, disk, c, io).t)
  {
    if t.state.Receiving? {
      if |c.data| <= CHUNK_SIZE && t.curIdx <= c.idx <= |t.files| && !c.fin && Refusal(t, c).None? {
        StoreMoves(t, disk, c, io);
      }
    }
  }

  /** The story goes on by the news. */
  lemma StoryGoesOn(t: Inbound, t': Inbound, told: seq<Control>)
    requires Story(t, told) && Moves(Some(t), t') && Explained(t) && Explained(t')
    ensures Story(t', told + News(Some(t), t'))
  {
    assert told + [] == told;
  }

  lemma WorkMoves(m: Inbox, io: Io, r: nat)
    requires Typed(m) && r < |m.arena|
    ensures r < |HandleWork(m, io).arena| && Moves(Some(m.arena[r]), HandleWork(m, io).arena[r])
  {
    if m.queue != [] && m.queue[0].0 == r { ProcessMoves(m.arena[r], m.disk, m.queue[0].1, io); }
  }

  lemma AnswerMoves(m: Inbox, tid: TID, accept: bool, mkdir: bool, up: bool, r: nat)
    requires Typed(m) && r < |m.arena|
    ensures var m' := HandleAnswer(m, tid, accept, mkdir, up);
            r < |m'.arena| && Moves(Some(m.arena[r]), m'.arena[r])
  {
  }

  lemma StaysPut(t: Inbound)
    ensures Moves(Some(t), t)
  {
  }

  lemma OfferMoves(m: Inbox, man: Manifest, up: bool, r: nat)
    requires Typed(m) && r < |m.arena|
    ensures r < |HandleOffer(m, man, up).arena| && Moves(Some(m.arena[r]), HandleOffer(m, man, up).arena[r])
  {
    OfferAdds(m, man, up);
    StaysPut(m.arena[r]);
  }

  lemma CancelMoves(m: Inbox, tid: TID, from: string, to: string, reason: string, r: nat)
    requires Typed(m) && r < |m.arena|
    ensures var m' := HandleCancel(m, tid, from, to, reason);
            r < |m'.arena| && Moves(Some(m.arena[r]), m'.arena[r])
  {
  }

  lemma DetachMoves(m: Inbox, r: nat)
    requires r < |m.arena|
    ensures Moves(Some(m.arena[r]), HandleDetach(m).arena[r])
  {
  }

  lemma StepMoves(m: Inbox, a: Action, r: nat)
    requires Typed(m) && r < |m.arena|
    ensures r < |Step(m, a).arena| && Moves(Some(m.arena[r]), Step(m, a).arena[r])
  {
    match a
    case Work(io) => WorkMoves(m, io, r);
    case Offer(man, up) => OfferMoves(m, man, up, r);
    case Answer(tid, accept, mkdir, up) => AnswerMoves(m, tid, accept, mkdir, up, r);
    case CancelIn(tid, from, to, reason) => CancelMoves(m, tid, from, to, reason, r);
    case Detach => DetachMoves(m, r);
    case _ => StaysPut(m.arena[r]);
  }

  lemma OthersKeepCount(m: Inbox, a: Action)
    requires Typed(m) && !a.Offer?
    ensures |Step(m, a).arena| == |m.arena|
  {
    match a
    case Work(io) =>
    case Answer(tid, accept, mkdir, up) =>
    case _ =>
  }

  lemma OfferRegistry(m: Inbox, man: Manifest, up: bool)
    requires Typed(m)
    ensures var m' := HandleOffer(m, man, up);
            if |m'.arena| == |m.arena| then m'.live == m.live
            else
              && |m'.arena| == |m.arena| + 1 && man.tid !in m.live && m'.live == m.live[man.tid := |m.arena|]
              && Moves(None, m'.arena[|m.arena|]) && m'.arena[|m.arena|].tid == man.tid
  {
    DraftShape(m, man);
  }

  /** The registry but for Detach: ids stay, at most one joins, for a transfer that has just begun. */
  lemma Registry(m: Inbox, a: Action)
    requires Typed(m) && a != Detach
    ensures var m' := Step(m, a);
            && (forall tid :: tid in m.live ==> tid in m'.live && m'.live[tid] == m.live[tid])
            && (forall tid :: tid in m'.live && tid !in m.live ==>
                  m'.live[tid] == |m.arena| == |m'.arena| - 1 && Moves(None, m'.arena[|m.arena|]))
            && (|m'.arena| == |m.arena| || (|m'.arena| == |m.arena| + 1 && m'.arena[|m.arena|].tid in m'.live &&
                                            m'.arena[|m.arena|].tid !in m.live))
  {
    if a.Offer? {
      OfferRegistry(m, a.man, a.up);
    } else {
      OthersKeepRegistry(m, a);
      OthersKeepCount(m, a);
    }
  }

  lemma NewsNames(was: Option<Inbound>, now: Inbound)
    requires Moves(was, now)
    ensures News(was, now) != [] ==> |News(was, now)| == 1 && News(was, now)[0].tid == now.tid
  {
  }

  /** At most one message is sent in a step. */
  lemma OneNews(m: Inbox, m': Inbox, q: nat, r: nat)
    requires Notified(m, m') && q < |m'.arena| && r < |m'.arena|
    ensures NewsOf(m, m', q) != [] && NewsOf(m, m', r) != [] ==> NewsOf(m, m', q) == NewsOf(m, m', r)
  {
    var x, y := NewsOf(m, m', q), NewsOf(m, m', r);
    if x != [] && y != [] {
      assert (m.sent + x)[|m.sent|..] == x && (m.sent + y)[|m.sent|..] == y;
    }
  }

  lemma UnregisteredStays(m: Inbox, a: Action, r: nat)
    requires Inv(m) && r < |m.arena| && !IsLive(m, r)
    ensures r < |Step(m, a).arena| && NewsOf(m, Step(m, a), r) == []
  {
    assert Good(m, r);
    match a
    case Work(io) =>
      if m.queue != [] && m.queue[0].0 == r { InertIgnores(m.arena[r], m.disk, m.queue[0].1, io); }
    case Offer(man, up) => OfferAdds(m, man, up);
    case _ =>
  }

  lemma RegisteredStays(m: Inbox, a: Action, r: nat)
    requires Typed(m) && a != Detach && r < |m.arena| && IsLive(m, r)
    ensures r < |Step(m, a).arena| && IsLive(Step(m, a), r)
  {
    StepMoves(m, a, r);
    StepKeepsId(m, a, m.arena[r].tid);
  }

  lemma JoinedMoves(m: Inbox, a: Action)
    requires Typed(m) && a != Detach && |Step(m, a).arena| != |m.arena|
    ensures |Step(m, a).arena| == |m.arena| + 1 && Moves(None, Step(m, a).arena[|m.arena|])
  {
    match a
    case Offer(man, up) =>
    case Work(io) =>
    case _ =>
  }

  /** How every transfer came to be as it is. */
  ghost predicate AllMove(m: Inbox, m': Inbox) {
    forall q :: 0 <= q < |m'.arena| ==> Moves(if q < |m.arena| then Some(m.arena[q]) else None, m'.arena[q])
  }

  lemma AllMoveFrom(m: Inbox, m': Inbox)
    requires forall q :: 0 <= q < |m.arena| ==> q < |m'.arena| && Moves(Some(m.arena[q]), m'.arena[q])
    requires |m'.arena| != |m.arena| ==> |m'.arena| == |m.arena| + 1 && Moves(None, m'.arena[|m.arena|])
    ensures AllMove(m, m')
  {
  }

  lemma StepAllMove(m: Inbox, a: Action)
    requires Typed(m) && a != Detach
    ensures AllMove(m, Step(m, a))
  {
    forall q | 0 <= q < |m.arena| ensures q < |Step(m, a).arena| && Moves(Some(m.arena[q]), Step(m, a).arena[q]) {
      StepMoves(m, a, q);
    }
    if |Step(m, a).arena| != |m.arena| { JoinedMoves(m, a); }
    AllMoveFrom(m, Step(m, a));
  }

  /** Registered transfers stay registered, and only they make news. */
  ghost predicate LiveNews(m: Inbox, m': Inbox) {
    forall r :: 0 <= r < |m'.arena| && NewsOf(m, m', r) != [] ==> IsLive(m', r)
  }

  lemma NewestLive(m: Inbox, a: Action)
    requires Typed(m) && a != Detach && |Step(m, a).arena| != |m.arena|
    ensures |Step(m, a).arena| == |m.arena| + 1 && IsLive(Step(m, a), |m.arena|)
  {
    match a
    case Offer(man, up) =>
    case Work(io) =>
    case _ =>
  }

  lemma LiveNewsFrom(m: Inbox, m': Inbox)
    requires forall r :: 0 <= r < |m.arena| ==> r < |m'.arena| && (IsLive(m', r) || NewsOf(m, m', r) == [])
    requires |m'.arena| != |m.arena| ==> |m'.arena| == |m.arena| + 1 && IsLive(m', |m.arena|)
    ensures LiveNews(m, m')
  {
  }

  lemma StepLiveNews(m: Inbox, a: Action)
    requires Inv(m) && a != Detach
    ensures LiveNews(m, Step(m, a))
  {
    forall r | 0 <= r < |m.arena|
      ensures r < |Step(m, a).arena| && (IsLive(Step(m, a), r) || NewsOf(m, Step(m, a), r) == [])
    {
      if IsLive(m, r) { RegisteredStays(m, a, r); } else { UnregisteredStays(m, a, r); }
    }
    if |Step(m, a).arena| != |m.arena| { NewestLive(m, a); }
    LiveNewsFrom(m, Step(m, a));
  }

  /** The one message of a step is about the transfer it is news of. */
  lemma NewsAbout(m: Inbox, m': Inbox, r: nat, tid: TID)
    requires Typed(m') && Notified(m, m') && r < |m'.arena| && NewsOf(m, m', r) != [] && IsLive(m', r)
    requires AllMove(m, m')
    ensures About(m'.sent, tid) ==
            About(m.sent, tid) + if tid in m'.live then NewsOf(m, m', m'.live[tid]) else []
  {
    var c := NewsOf(m, m', r)[0];
    NewsNames(if r < |m.arena| then Some(m.arena[r]) else None, m'.arena[r]);
    assert NewsOf(m, m', r) == [c];
    AboutOne(m.sent, c, tid);
    assert About(m.sent, tid) + [] == About(m.sent, tid);
    if tid in m'.live {
      var q := m'.live[tid];
      NewsNames(if q < |m.arena| then Some(m.arena[q]) else None, m'.arena[q]);
      OneNews(m, m', q, r);
    }
  }

  /** What a step adds about an id is the news of its transfer, if it has one. */
  lemma AddsAbout(m: Inbox, a: Action, tid: TID)
    requires Inv(m) && AllExplained(m) && m.attached && Delivers(a) && a != Detach
    ensures var m' := Step(m, a);
            && Typed(m')
            && About(m'.sent, tid) == About(m.sent, tid) + if tid in m'.live then NewsOf(m, m', m'.live[tid]) else []
  {
    var m' := Step(m, a);
    StepNotified(m, a);
    TypedKept(m, a);
    if r :| 0 <= r < |m'.arena| && NewsOf(m, m', r) != [] {
      StepLiveNews(m, a);
      StepAllMove(m, a);
      NewsAbout(m, m', r, tid);
    } else {
      assert About(m.sent, tid) + [] == About(m.sent, tid);
    }
  }

  /** One step further in the story of an id. */
  lemma StepStoried(m: Inbox, a: Action)
    requires Inv(m) && AllExplained(m) && m.attached && Delivers(a) && a != Detach && Storied(m)
    ensures Storied(Step(m, a))
  {
    var m' := Step(m, a);
    TypedKept(m, a);
    Registry(m, a);
    StepExplained(m, a);
    forall tid | tid in m'.live ensures Story(m'.arena[m'.live[tid]], About(m'.sent, tid)) {
      AddsAbout(m, a, tid);
      var r := m'.live[tid];
      if tid in m.live {
        StepMoves(m, a, r);
        assert Explained(m.arena[r]) && Explained(m'.arena[r]);
        StoryGoesOn(m.arena[r], m'.arena[r], About(m.sent, tid));
      } else {
        assert [] + NewsOf(m, m', r) == NewsOf(m, m', r);
      }
    }
    forall tid | tid !in m'.live ensures About(m'.sent, tid) == [] {
      AddsAbout(m, a, tid);
    }
  }

  lemma StepAttached(m: Inbox, a: Action)
    requires Typed(m) && m.attached && a != Detach
    ensures Step(m, a).attached
  {
  }

  /**
   Over any run while the node runs and its connections take what is sent: the
   messages about an id are those of its transfer's story, from the acceptance
   or refusal to the end, and nothing is ever sent about an id without one.
   */
  lemma {:induction false} RunStoried(m: Inbox, steps: seq<Action>)
    requires Inv(m) && AllExplained(m) && m.attached && Storied(m) && AllFit(steps)
    requires forall a :: a in steps ==> Delivers(a) && a != Detach
    ensures Storied(Run(m, steps)) && AllExplained(Run(m, steps))
    decreases |steps|
  {
    if steps != [] {
      AllFitSplit(steps);
      var m1 := Step(m, steps[0]);
      StepKeeps(m, steps[0]);
      StepExplained(m, steps[0]);
      StepStoried(m, steps[0]);
      StepAttached(m, steps[0]);
      RunStoried(m1, steps[1..]);
    }
  }

  /** From a new manager: what each sender has heard determines, and is determined by, how its transfer stands. */
  lemma SendersKnow(self: string, staging: Dir, autoMax: i64, disk: Disk, steps: seq<Action>, tid: TID)
    requires AllFit(steps) && forall a :: a in steps ==> Delivers(a) && a != Detach
    ensures var m := Run(Empty(self, staging, autoMax, disk), [Attach] + steps);
            if tid in m.live then Story(m.arena[m.live[tid]], About(m.sent, tid)) else About(m.sent, tid) == []
  {
    var m0 := Empty(self, staging, autoMax, disk);
    assert ([Attach] + steps)[1..] == steps;
    RunStoried(Step(m0, Attach), steps);
  }
}
