/**
 The receiving side of a transfer manager (platform/filexfer/filexfer.go) as a
 value, and what every interleaving of offers, answers, chunks, write-loop
 steps, cancellations, attaches and detaches keeps.
 */
module Inboxes {
  import opened Common
  import opened Names
  import opened Paths
  import opened Transfers

  const ORDER_CAP: nat := 32

  datatype Manifest = Manifest(tid: TID, from: string, files: seq<Meta>)

  datatype Control =
    | FileAccept(tid: TID, to: string)
    | FileCancel(tid: TID, to: string, reason: string)
    | FileDone(tid: TID, to: string)

  /** What becomes of an offer. */
  datatype Verdict = Ignored | BadCount | UnsafeName | Duplicate | Taken(auto: bool)

  /**
   The inbound half of Manager. Transfers live in an arena because a queued
   chunk keeps its transfer after Detach has dropped it from the registry.
   */
  datatype Inbox = Inbox(
    self: string, staging: Dir, autoMax: i64, attached: bool,
    arena: seq<Inbound>, live: map<TID, nat>, order: seq<TID>,
    queue: seq<(nat, Chunk)>, disk: Disk, sent: seq<Control>)

  datatype Action =
    | Offer(man: Manifest, up: bool)
    | Answer(tid: TID, accept: bool, mkdir: bool, up: bool)
    | ChunkIn(tid: TID, from: string, to: string, chunk: Chunk)
    | Work(io: Io)
    | CancelIn(tid: TID, from: string, to: string, reason: string)
    | Attach
    | Detach

  predicate Acceptable(f: Meta) { SanitizeName(f.name).Some? && f.size >= 0 }

  /** The accepted names of the offered files, unless one is unsafe or has a negative size. */
  function Vet(files: seq<Meta>): (r: Option<seq<string>>)
    ensures r.Some? <==> forall i :: 0 <= i < |files| ==> Acceptable(files[i])
    ensures r.Some? ==>
              |r.value| == |files| && forall i :: 0 <= i < |files| ==> SanitizeName(files[i].name) == Some(r.value[i])
  {
    if forall i :: 0 <= i < |files| ==> Acceptable(files[i]) then
      Some(seq(|files|, i requires 0 <= i < |files| => SanitizeName(files[i].name).value))
    else None
  }

  /** The file would be taken under this name. */
  predicate NamedSo(f: Meta, name: string) { Acceptable(f) && SanitizeName(f.name) == Some(name) }

  lemma VettedAs(files: seq<Meta>, names: seq<string>)
    requires |names| == |files| && forall i :: 0 <= i < |files| ==> NamedSo(files[i], names[i])
    ensures Vet(files) == Some(names)
  {
    forall i | 0 <= i < |files| ensures Acceptable(files[i]) && SanitizeName(files[i].name) == Some(names[i]) {
      assert NamedSo(files[i], names[i]);
    }
    assert Vet(files).value == names;
  }

  lemma NamesOfVetted(files: seq<Meta>, i: nat)
    requires Vet(files).Some? && i < |files|
    ensures |Vet(files).value| == |files| && NamedSo(files[i], Vet(files).value[i])
  {
  }

  /** The int64 sum of the sizes. */
  function TotalOf(files: seq<Meta>): i64 {
    if files == [] then 0 else Add64(TotalOf(files[..|files| - 1]), files[|files| - 1].size)
  }

  function Judge(m: Inbox, man: Manifest): Verdict {
    if man.tid == "" || man.from == "" || man.from == m.self then Ignored
    else if |man.files| == 0 || |man.files| > MAX_FILES then BadCount
    else if Vet(man.files).None? then UnsafeName
    else if man.tid in m.live then Duplicate
    else Taken(TotalOf(man.files) <= m.autoMax)
  }

  /** The transfer a taken offer becomes; its directory is the one its id names, names are the staged ones. */
  function NewInbound(man: Manifest, dir: Dir, names: seq<string>, auto: bool): Inbound {
    Inbound(man.tid, dir, man.from, man.files, names, auto, TotalOf(man.files),
            if auto then Receiving else Pending, 0, 0, 0, None, None, [])
  }

  function LastOf<T>(s: seq<T>, n: nat): seq<T> { if |s| <= n then s else s[|s| - n..] }

  /** A control message leaves when the manager is attached and the connection is up; otherwise the send fails. */
  function Send(m: Inbox, c: Control, up: bool): Inbox { if m.attached && up then m.(sent := m.sent + [c]) else m }

  /** A transfer with a new id joins the registry. */
  function Register(m: Inbox, t: Inbound): Inbox {
    m.(arena := m.arena + [t], live := m.live[t.tid := |m.arena|], order := LastOf(m.order + [t.tid], ORDER_CAP))
  }

  /** The registered transfer; its sender hears at once if it starts without asking. */
  function Admit(m: Inbox, t: Inbound, up: bool): Inbox {
    if t.auto then Send(Register(m, t), FileAccept(t.tid, t.from), up) else Register(m, t)
  }

  /** The transfer an offer becomes, if it is taken. */
  function Draft(m: Inbox, man: Manifest): Option<Inbound> {
    match Judge(m, man)
    case Taken(auto) => 
      Some(NewInbound(man, Join(m.staging, man.tid), Stage(Vet(man.files).value), auto))
    case _ => None
  }

  function Settle(m: Inbox, draft: Option<Inbound>, up: bool): Inbox {
    match draft
    case Some(t) => Admit(m, t, up)
    case None => m
  }

  function HandleOffer(m: Inbox, man: Manifest, up: bool): Inbox { Settle(m, Draft(m, man), up) }

  /** References point into the arena, and names and files have the same length. */
  ghost predicate Typed(m: Inbox) {
    && (forall tid :: tid in m.live ==> m.live[tid] < |m.arena| && m.arena[m.live[tid]].tid == tid)
    && (forall k :: 0 <= k < |m.queue| ==> m.queue[k].0 < |m.arena|)
    && (forall r :: 0 <= r < |m.arena| ==> |m.arena[r].names| == |m.arena[r].files|)
  }

  /** Whether the sender of an offer gets an error: it was malformed, or its acceptance could not be sent. */
  predicate OfferFails(m: Inbox, man: Manifest, up: bool) {
    match Judge(m, man)
    case Taken(auto) => auto && !(m.attached && up)
    case BadCount => true
    case UnsafeName => true
    case _ => false
  }

  datatype AnswerError = UnknownTransfer | NotPending(state: State) | NoDirectory | NotSent

  /** What an answer reports as its error, if anything. */
  function AnswerFails(m: Inbox, tid: TID, accept: bool, mkdir: bool, up: bool): Option<AnswerError>
    requires Typed(m)
  {
    if tid !in m.live then Some(UnknownTransfer)
    else if !m.arena[m.live[tid]].state.Pending? then Some(NotPending(m.arena[m.live[tid]].state))
    else if accept && !mkdir then Some(NoDirectory)
    else if !(m.attached && up) then Some(NotSent)
    else None
  }

  function HandleAnswer(m: Inbox, tid: TID, accept: bool, mkdir: bool, up: bool): Inbox
    requires Typed(m)
  {
    if tid !in m.live || !m.arena[m.live[tid]].state.Pending? then m
    else
      var t := Respond(m.arena[m.live[tid]], accept, mkdir);
      var m1 := m.(arena := m.arena[m.live[tid] := t]);
      if t.state.Receiving? then Send(m1, FileAccept(tid, t.from), up)
      else if t.state.Declined? then Send(m1, FileCancel(tid, t.from, "declined"), up)
      else m1
  }

  /** A chunk for a full queue stays with its sender, who tries again. */
  function HandleChunk(m: Inbox, tid: TID, from: string, to: string, c: Chunk): Inbox
    requires Typed(m)
  {
    if to != m.self || tid !in m.live || from != m.arena[m.live[tid]].from || |m.queue| == QUEUE_CAP then m
    else m.(queue := m.queue + [(m.live[tid], c)])
  }

  function ControlFor(t: Inbound, reply: Reply): seq<Control> {
    match reply
    case NoReply => []
    case SendCancel => [FileCancel(t.tid, t.from, "receive failed")]
    case SendDone => [FileDone(t.tid, t.from)]
  }

  /** One turn of the write loop. */
  function HandleWork(m: Inbox, io: Io): Inbox
    requires Typed(m)
  {
    if m.queue == [] then m
    else
      var (r, c) := m.queue[0];
      var o := Process(m.arena[r], m.disk, c, io);
      m.(queue := m.queue[1..], arena := m.arena[r := o.t], disk := o.disk,
         sent := m.sent + if m.attached && io.told then ControlFor(o.t, o.reply) else [])
  }

  function HandleCancel(m: Inbox, tid: TID, from: string, to: string, reason: string): Inbox
    requires Typed(m)
  {
    if to != m.self || tid !in m.live then m
    else m.(arena := m.arena[m.live[tid] := CancelBy(m.arena[m.live[tid]], from, reason)])
  }

  predicate IsLive(m: Inbox, r: nat)
    requires r < |m.arena|
  {
    m.arena[r].tid in m.live && m.live[m.arena[r].tid] == r
  }

  function HandleDetach(m: Inbox): Inbox {
    m.(attached := false, live := map[], order := [],
       arena := seq(|m.arena|, r requires 0 <= r < |m.arena| =>
         if IsLive(m, r) then Release(m.arena[r]) else m.arena[r]))
  }

  function Step(m: Inbox, a: Action): Inbox
    requires Typed(m)
  {
    match a
    case Offer(man, up) => HandleOffer(m, man, up)
    case Answer(tid, accept, mkdir, up) => HandleAnswer(m, tid, accept, mkdir, up)
    case ChunkIn(tid, from, to, c) => HandleChunk(m, tid, from, to, c)
    case Work(io) => HandleWork(m, io)
    case CancelIn(tid, from, to, reason) => HandleCancel(m, tid, from, to, reason)
    case Attach => m.(attached := true)
    case Detach => HandleDetach(m)
  }

  /** The offered sizes can be summed in int64 with a chunk to spare. */
  ghost predicate Fits(a: Action) {
    a.Offer? && Vet(a.man.files).Some? ==> SumSizes(a.man.files) + CHUNK_SIZE < TWO63
  }

  /** A vetted offer has no negative size, and every name it will stage is safe. */
  lemma VettedSizes(files: seq<Meta>)
    requires Vet(files).Some?
    ensures forall f :: f in files ==> f.size >= 0
    ensures forall n :: n in Vet(files).value ==> Safe(n)
  {
    forall i | 0 <= i < |files| ensures Safe(Vet(files).value[i]) {
      SanitizeAcceptsSafe(files[i].name);
    }
    assert forall i :: 0 <= i < |files| ==> Acceptable(files[i]);
  }

  predicate Congruent(a: i64, s: int) { (a - s) % TWO64 == 0 }

  /** The total is the sum of the sizes modulo 2 to the 64. */
  lemma {:induction false} TotalIsModular(files: seq<Meta>)
    ensures Congruent(TotalOf(files), SumSizes(files))
  {
    if files != [] {
      TotalIsModular(files[..|files| - 1]);
      WrapIsModular(0, 0, TotalOf(files[..|files| - 1]), files[|files| - 1].size);
    }
  }

  /** The recorded total is the true one exactly when the true one fits in int64. */
  lemma TotalExact(files: seq<Meta>)
    requires Vet(files).Some?
    ensures TotalOf(files) == SumSizes(files) <==> SumSizes(files) < TWO63
  {
    var a, s := VettedTotal(files);
    SameResidue(a, s);
  }

  lemma WrappedValue(a: i64, s: int)
    requires Congruent(a, s)
    ensures a == (s + TWO63) % TWO64 - TWO63
  {
  }

  /** A true size above the limit that does not fit in int64 and wraps to at most the limit. */
  predicate WrapsBelow(size: int, limit: i64) {
    limit < size && size >= TWO63 && (size + TWO63) % TWO64 - TWO63 <= limit
  }

  lemma VettedIsNonNegative(files: seq<Meta>)
    requires Vet(files).Some?
    ensures SumSizes(files) >= 0
  {
    VettedSizes(files);
    SumNonNegative(files);
  }

  lemma VettedTotal(files: seq<Meta>) returns (a: i64, s: int)
    requires Vet(files).Some?
    ensures a == TotalOf(files) && s == SumSizes(files) && s >= 0 && Congruent(a, s)
  {
    a, s := TotalOf(files), SumSizes(files);
    TotalIsModular(files);
    VettedIsNonNegative(files);
  }

  lemma OverLimitIff(files: seq<Meta>, limit: i64)
    requires Vet(files).Some?
    ensures TotalOf(files) <= limit < SumSizes(files) <==> WrapsBelow(SumSizes(files), limit)
  {
    var a, s := VettedTotal(files);
    WrapsIff(a, s, limit);
  }

  lemma WrapsIff(a: i64, s: int, limit: i64)
    requires s >= 0 && Congruent(a, s)
    ensures a <= limit < s <==> WrapsBelow(s, limit)
  {
    WrappedValue(a, s);
    SameResidue(a, s);
  }

  lemma TakenWhen(m: Inbox, man: Manifest)
    ensures Judge(m, man).Taken? ==>
              Vet(man.files).Some? && (Judge(m, man).auto <==> TotalOf(man.files) <= m.autoMax)
  {
  }

  /** Exactly when a taken offer above the limit starts without asking. */
  lemma AutoOverLimitIff(m: Inbox, man: Manifest, v: Verdict)
    requires v == Judge(m, man) && v.Taken?
    ensures v.auto && m.autoMax < SumSizes(man.files) <==> WrapsBelow(SumSizes(man.files), m.autoMax)
  {
    TakenWhen(m, man);
    OverLimitIff(man.files, m.autoMax);
  }

  lemma TwoSizes(files: seq<Meta>)
    requires |files| == 2
    ensures TotalOf(files) == Add64(files[0].size, files[1].size) && SumSizes(files) == files[0].size + files[1].size
  {
    assert files[..1] == [files[0]] && [files[0]][..0] == [];
    assert TotalOf([files[0]]) == files[0].size && SumSizes([files[0]]) == files[0].size;
  }

  /** Two files of the largest size wrap to -2, which is below any limit. */
  lemma LargestFilesStart(m: Inbox, man: Manifest)
    requires Judge(m, man).Taken? && m.autoMax > 0
    requires |man.files| == 2 && man.files[0].size == man.files[1].size == TWO63 - 1
    ensures Judge(m, man) == Taken(true) && SumSizes(man.files) > m.autoMax
  {
    TakenWhen(m, man);
    TwoSizes(man.files);
  }

  lemma SameResidue(a: i64, s: int)
    requires s >= 0 && Congruent(a, s)
    ensures a == s <==> s < TWO63
  {
  }

  /** The transfer stages under plain names in the directory its id names. */
  ghost predicate InOwnDir(staging: Dir, t: Inbound) {
    t.dir == Join(staging, t.tid) && forall n :: n in t.names ==> Plain(n)
  }

  /** A transfer that is right, in the directory its id names; one that is not registered is inert. */
  ghost predicate Good(m: Inbox, r: nat)
    requires r < |m.arena|
  {
    && Sane(m.arena[r]) && InOwnDir(m.staging, m.arena[r])
    && (!IsLive(m, r) ==> Inert(m.arena[r]))
  }

  /**
   The invariant of every run: transfers are right, and the status order lists
   registered transfers once. What the disk holds is not part of it, because
   two ids may name one directory.
   */
  ghost predicate Inv(m: Inbox) {
    && Typed(m)
    && (forall r :: 0 <= r < |m.arena| ==> Good(m, r))
    && |m.queue| <= QUEUE_CAP && |m.order| <= ORDER_CAP
    && Distinct(m.order) && (forall tid :: tid in m.order ==> tid in m.live)
  }

  /** Nothing a chunk does can affect it. */
  predicate Inert(t: Inbound) { !t.state.Receiving? && t.handle.None? }

  /** Each transfer keeps its identity, only advances, and stays ended once ended. */
  predicate ArenaExtends(m: Inbox, m': Inbox) {
    |m.arena| <= |m'.arena| && forall r :: 0 <= r < |m.arena| ==> Extends(m.arena[r], m'.arena[r])
  }

  lemma FreshIsGood(t: Inbound, disk: Disk)
    requires |t.names| == |t.files| > 0 && Distinct(t.names) && SizesFit(t.files) && t.total == SumSizes(t.files)
    requires t.curIdx == 0 && t.curDone == 0 && t.done == 0 && t.handle.None? && t.accepted == [] && !t.state.Done?
    ensures Sane(t) && OnDisk(t, disk)
  {
    assert t.files[..0] == [];
    assert t.files[0] in t.files;
    forall i | 0 <= i < |t.files| ensures |FileBytes(t.accepted, i)| == Received(t, i) {
    }
  }

  lemma PickPlain(name: string, used: set<string>)
    requires Safe(name)
    ensures Plain(Pick(name, used))
  {
    if name in used {
      var i :| i >= 2 && Pick(name, used) == Candidate(name, i);
      CandidateClean(name, i);
      NumberedShape(i);
    }
  }

  /** Staged names are plain: numbering a safe name makes no path of it. */
  lemma {:induction false} StagePlain(names: seq<string>)
    requires forall n :: n in names ==> Safe(n)
    ensures forall n :: n in Stage(names) ==> Plain(n)
  {
    if names != [] {
      StagePlain(names[..|names| - 1]);
      PickPlain(names[|names| - 1], Members(Stage(names[..|names| - 1])));
    }
  }

  lemma NewIsGood(man: Manifest, dir: Dir, auto: bool, disk: Disk)
    requires man.files != [] && Vet(man.files).Some? && SumSizes(man.files) + CHUNK_SIZE < TWO63
    ensures var t := NewInbound(man, dir, Stage(Vet(man.files).value), auto);
            Sane(t) && OnDisk(t, disk) && forall n :: n in t.names ==> Plain(n)
  {
    VettedSizes(man.files);
    TotalExact(man.files);
    StageDistinct(Vet(man.files).value);
    StagePlain(Vet(man.files).value);
    FreshIsGood(NewInbound(man, dir, Stage(Vet(man.files).value), auto), disk);
  }

  /** Queueing, sending and attaching touch nothing the invariant is about. */
  lemma FrameKeeps(m: Inbox, m': Inbox)
    requires Inv(m) && Typed(m') && |m'.queue| <= QUEUE_CAP
    requires m'.arena == m.arena && m'.live == m.live && m'.order == m.order && m'.staging == m.staging
    ensures Inv(m') && ArenaExtends(m, m')
  {
    forall r | 0 <= r < |m'.arena| ensures Good(m', r) {
      assert Good(m, r) && (IsLive(m', r) <==> IsLive(m, r));
    }
  }

  lemma RegisterKeeps(m: Inbox, t: Inbound)
    requires Inv(m) && t.tid !in m.live && Sane(t) && InOwnDir(m.staging, t)
    ensures Inv(Register(m, t)) && ArenaExtends(m, Register(m, t))
  {
    var m' := Register(m, t);
    forall r | 0 <= r < |m'.arena| ensures Good(m', r) {
      if r < |m.arena| {
        assert m'.arena[r] == m.arena[r] && Good(m, r);
        assert !IsLive(m', r) ==> !IsLive(m, r);
      }
    }
    OrderKept(m.order, t.tid);
  }

  /** A new transfer that is right joins, and the accept is sent if there is a link. */
  lemma AdmitKeeps(m: Inbox, t: Inbound, up: bool)
    requires Inv(m) && t.tid !in m.live && Sane(t) && InOwnDir(m.staging, t)
    ensures Inv(Admit(m, t, up)) && ArenaExtends(m, Admit(m, t, up))
  {
    RegisterKeeps(m, t);
    FrameKeeps(Register(m, t), Admit(m, t, up));
  }

  /** A drafted transfer is right, its id is free, and nothing of it is staged yet. */
  ghost predicate Admissible(m: Inbox, draft: Option<Inbound>) {
    draft.Some? ==>
      && draft.value.tid !in m.live && InOwnDir(m.staging, draft.value)
      && Sane(draft.value) && OnDisk(draft.value, m.disk)
  }

  lemma DraftAdmissible(m: Inbox, man: Manifest, up: bool)
    requires Fits(Offer(man, up))
    ensures Admissible(m, Draft(m, man))
  {
    if Draft(m, man).Some? { NewIsGood(man, Join(m.staging, man.tid), Judge(m, man).auto, m.disk); }
  }

  lemma SettleKeeps(m: Inbox, draft: Option<Inbound>, up: bool)
    requires Inv(m) && Admissible(m, draft)
    ensures Inv(Settle(m, draft, up)) && ArenaExtends(m, Settle(m, draft, up))
  {
    match draft
    case Some(t) => AdmitKeeps(m, t, up);
    case None => FrameKeeps(m, m);
  }

  lemma OfferKeeps(m: Inbox, man: Manifest, up: bool)
    requires Inv(m) && Fits(Offer(man, up))
    ensures Inv(HandleOffer(m, man, up)) && ArenaExtends(m, HandleOffer(m, man, up))
  {
    DraftAdmissible(m, man, up);
    SettleKeeps(m, Draft(m, man), up);
  }

  lemma OrderKept(order: seq<TID>, tid: TID)
    requires Distinct(order) && tid !in order
    ensures var o := LastOf(order + [tid], ORDER_CAP);
            Distinct(o) && |o| <= ORDER_CAP && forall x :: x in o ==> x in order || x == tid
  {
  }

  /** Replacing one registered transfer leaves the others right. */
  lemma UpdateKeeps(m: Inbox, r: nat, t: Inbound, disk: Disk)
    requires Inv(m) && r < |m.arena| && IsLive(m, r) && Sane(t) && Extends(m.arena[r], t)
    ensures var m' := m.(arena := m.arena[r := t], disk := disk); Inv(m') && ArenaExtends(m, m')
  {
    var m' := m.(arena := m.arena[r := t], disk := disk);
    forall q | 0 <= q < |m'.arena| ensures Good(m', q) {
      assert Good(m, q) && (IsLive(m', q) <==> IsLive(m, q));
    }
  }

  lemma AnswerKeeps(m: Inbox, tid: TID, accept: bool, mkdir: bool, up: bool)
    requires Inv(m)
    ensures var m' := HandleAnswer(m, tid, accept, mkdir, up); Inv(m') && ArenaExtends(m, m')
  {
    if tid in m.live && m.arena[m.live[tid]].state.Pending? {
      var r := m.live[tid];
      assert Good(m, r);
      var t := Respond(m.arena[r], accept, mkdir);
      RespondKeeps(m.arena[r], m.disk, accept, mkdir);
      UpdateKeeps(m, r, t, m.disk);
      FrameKeeps(m.(arena := m.arena[r := t]), HandleAnswer(m, tid, accept, mkdir, up));
    }
  }

  lemma CancelInKeeps(m: Inbox, tid: TID, from: string, to: string, reason: string)
    requires Inv(m)
    ensures var m' := HandleCancel(m, tid, from, to, reason); Inv(m') && ArenaExtends(m, m')
  {
    if tid in m.live {
      var r := m.live[tid];
      assert Good(m, r);
      CancelKeeps(m.arena[r], m.disk, from, reason);
      UpdateKeeps(m, r, CancelBy(m.arena[r], from, reason), m.disk);
    }
  }

  /** What the write loop does to the transfer and the disk. */
  lemma ProcessQueued(m: Inbox, r: nat, c: Chunk, io: Io)
    requires Inv(m) && r < |m.arena|
    ensures var o := Process(m.arena[r], m.disk, c, io);
            var m' := m.(arena := m.arena[r := o.t], disk := o.disk);
            Inv(m') && ArenaExtends(m, m')
  {
    assert Good(m, r);
    if IsLive(m, r) {
      ProcessKeeps(m.arena[r], m.disk, c, io);
      UpdateKeeps(m, r, Process(m.arena[r], m.disk, c, io).t, Process(m.arena[r], m.disk, c, io).disk);
    } else {
      InertIgnores(m.arena[r], m.disk, c, io);
      assert m.arena[r := m.arena[r]] == m.arena;
    }
  }

  /** A queued chunk of a dropped transfer does nothing. */
  lemma InertIgnores(t: Inbound, disk: Disk, c: Chunk, io: Io)
    requires |t.names| == |t.files| && Inert(t)
    ensures Process(t, disk, c, io) == Outcome(t, disk, NoReply)
  {
  }

  lemma WorkKeeps(m: Inbox, io: Io)
    requires Inv(m)
    ensures Inv(HandleWork(m, io)) && ArenaExtends(m, HandleWork(m, io))
  {
    if m.queue != [] {
      var (r, c) := m.queue[0];
      ProcessQueued(m, r, c, io);
      var o := Process(m.arena[r], m.disk, c, io);
      FrameKeeps(m.(arena := m.arena[r := o.t], disk := o.disk), HandleWork(m, io));
    }
  }

  lemma DetachKeeps(m: Inbox)
    requires Inv(m)
    ensures Inv(HandleDetach(m)) && ArenaExtends(m, HandleDetach(m))
  {
    var m' := HandleDetach(m);
    forall r | 0 <= r < |m.arena| ensures Good(m', r) && Extends(m.arena[r], m'.arena[r]) {
      assert Good(m, r);
      ReleaseKeeps(m.arena[r], m.disk);
    }
  }

  lemma StepKeeps(m: Inbox, a: Action)
    requires Inv(m) && Fits(a)
    ensures Inv(Step(m, a)) && ArenaExtends(m, Step(m, a))
  {
    match a
    case Offer(man, up) => OfferKeeps(m, man, up);
    case Answer(tid, accept, mkdir, up) => AnswerKeeps(m, tid, accept, mkdir, up);
    case Work(io) => WorkKeeps(m, io);
    case CancelIn(tid, from, to, reason) => CancelInKeeps(m, tid, from, to, reason);
    case Detach => DetachKeeps(m);
    case _ => FrameKeeps(m, Step(m, a));
  }

  /** New. */
  function Empty(self: string, staging: Dir, autoMax: i64, disk: Disk): Inbox {
    Inbox(self, staging, if autoMax <= 0 then AUTO_ACCEPT_MAX else autoMax, false, [], map[], [], [], disk, [])
  }

  predicate Same(t: Inbound, t': Inbound) {
    t'.tid == t.tid && t'.dir == t.dir && t'.names == t.names && t'.files == t.files
  }

  lemma StoreSame(t: Inbound, disk: Disk, c: Chunk, io: Io)
    requires t.curIdx < |t.files| == |t.names| && |c.data| <= CHUNK_SIZE
    ensures Same(t, Store(t, disk, c, io).t)
  {
  }

  /** Processing a chunk never renames anything, whatever the state. */
  lemma ProcessSame(t: Inbound, disk: Disk, c: Chunk, io: Io)
    requires |t.names| == |t.files|
    ensures Same(t, Process(t, disk, c, io).t)
  {
    if t.curIdx < |t.files| && |c.data| <= CHUNK_SIZE { StoreSame(t, disk, c, io); }
  }

  lemma WorkTyped(m: Inbox, io: Io)
    requires Typed(m)
    ensures Typed(HandleWork(m, io))
  {
    if m.queue != [] {
      var (r, c) := m.queue[0];
      ProcessSame(m.arena[r], m.disk, c, io);
    }
  }

  /** A drafted transfer has a name for each file and a free id. */
  ghost predicate Drafted(m: Inbox, man: Manifest, draft: Option<Inbound>) {
    draft.Some? ==> draft.value.tid == man.tid && man.tid !in m.live && |draft.value.names| == |draft.value.files|
  }

  lemma DraftShape(m: Inbox, man: Manifest)
    ensures Drafted(m, man, Draft(m, man))
  {
  }

  /** An offer adds at most an id that was not registered. */
  lemma SettleAdds(m: Inbox, man: Manifest, draft: Option<Inbound>, up: bool)
    requires Typed(m) && Drafted(m, man, draft)
    ensures var m' := Settle(m, draft, up);
            && Typed(m') && m.arena <= m'.arena && m'.queue == m.queue && m'.disk == m.disk
            && (m'.live == m.live || (man.tid !in m.live && m'.live == m.live[man.tid := |m.arena|]))
  {
  }

  lemma OfferAdds(m: Inbox, man: Manifest, up: bool)
    requires Typed(m)
    ensures var m' := HandleOffer(m, man, up);
            && Typed(m') && m.arena <= m'.arena && m'.queue == m.queue && m'.disk == m.disk
            && (m'.live == m.live || (man.tid !in m.live && m'.live == m.live[man.tid := |m.arena|]))
  {
    DraftShape(m, man);
    SettleAdds(m, man, Draft(m, man), up);
  }

  lemma AnswerTyped(m: Inbox, tid: TID, accept: bool, mkdir: bool, up: bool)
    requires Typed(m)
    ensures Typed(HandleAnswer(m, tid, accept, mkdir, up))
  {
  }

  lemma CancelTyped(m: Inbox, tid: TID, from: string, to: string, reason: string)
    requires Typed(m)
    ensures Typed(HandleCancel(m, tid, from, to, reason))
  {
  }

  lemma TypedKept(m: Inbox, a: Action)
    requires Typed(m)
    ensures Typed(Step(m, a))
  {
    match a
    case Work(io) => WorkTyped(m, io);
    case Offer(man, up) => OfferAdds(m, man, up);
    case Answer(tid, accept, mkdir, up) => AnswerTyped(m, tid, accept, mkdir, up);
    case CancelIn(tid, from, to, reason) => CancelTyped(m, tid, from, to, reason);
    case _ =>
  }

  ghost function Run(m: Inbox, steps: seq<Action>): Inbox
    requires Typed(m)
    ensures Typed(Run(m, steps))
    decreases |steps|
  {
    if steps == [] then m
    else
      TypedKept(m, steps[0]);
      Run(Step(m, steps[0]), steps[1..])
  }

  ghost predicate AllFit(steps: seq<Action>) { forall a :: a in steps ==> Fits(a) }

  lemma AllFitSplit(steps: seq<Action>)
    requires AllFit(steps) && steps != []
    ensures Fits(steps[0]) && AllFit(steps[1..])
  {
    assert steps[0] in steps && forall a :: a in steps[1..] ==> a in steps;
  }

  /**
   Over any interleaving: the invariant holds, every transfer keeps its
   identity and what it accepted, and Done, Failed, Declined and Canceled are
   absorbing.
   */
  lemma {:induction false} RunKeeps(m: Inbox, steps: seq<Action>)
    requires Inv(m) && AllFit(steps)
    ensures Inv(Run(m, steps)) && ArenaExtends(m, Run(m, steps))
    decreases |steps|
  {
    if steps != [] {
      AllFitSplit(steps);
      var m1 := Step(m, steps[0]);
      StepKeeps(m, steps[0]);
      RunKeeps(m1, steps[1..]);
    }
  }

  /** An open handle is the current file of a receiving, registered transfer. */
  lemma OpenHandleIsReceiving(m: Inbox, r: nat)
    requires Inv(m) && r < |m.arena| && m.arena[r].handle.Some?
    ensures var t := m.arena[r];
            && IsLive(m, r) && t.state.Receiving? && t.curIdx < |t.files|
            && t.handle.value == Path(t.dir, t.names[t.curIdx])
  {
    assert Good(m, r);
  }

  /**
   What an error of an answer means: an unknown or no longer pending transfer is
   left alone; one without a directory has failed; one whose reply could not be
   sent is Receiving or Declined all the same, and its sender does not know.
   */
  lemma AnswerErrors(m: Inbox, tid: TID, accept: bool, mkdir: bool, up: bool)
    requires Typed(m)
    ensures var e := AnswerFails(m, tid, accept, mkdir, up); var m' := HandleAnswer(m, tid, accept, mkdir, up);
            && (e.Some? && (e.value.UnknownTransfer? || e.value.NotPending?) ==> m' == m)
            && (e == Some(NoDirectory) ==> m'.arena[m.live[tid]].state.Failed? && m'.sent == m.sent)
            && (e == Some(NotSent) || e.None? ==> m'.arena[m.live[tid]].state == if accept then Receiving else Declined)
            && (m'.sent != m.sent <==> e.None?)
  {
    if AnswerFails(m, tid, accept, mkdir, up).None? {
      assert |HandleAnswer(m, tid, accept, mkdir, up).sent| == |m.sent| + 1;
    }
  }

  ghost predicate NoDetach(steps: seq<Action>) { Detach !in steps }

  /** Only offers and Detach change the registry. */
  lemma OthersKeepRegistry(m: Inbox, a: Action)
    requires Typed(m) && !a.Offer? && a != Detach
    ensures Step(m, a).live == m.live
  {
  }

  lemma StepKeepsId(m: Inbox, a: Action, tid: TID)
    requires Typed(m) && tid in m.live && a != Detach
    ensures tid in Step(m, a).live && Step(m, a).live[tid] == m.live[tid]
  {
    if a.Offer? { OfferAdds(m, a.man, a.up); } else { OthersKeepRegistry(m, a); }
  }

  /** An id stays with the transfer it was first registered for, until Detach: repeated offers are ignored. */
  lemma {:induction false} OfferNeverReplaces(m: Inbox, steps: seq<Action>, tid: TID)
    requires Typed(m) && tid in m.live && NoDetach(steps)
    ensures tid in Run(m, steps).live && Run(m, steps).live[tid] == m.live[tid]
    decreases |steps|
  {
    if steps != [] {
      assert steps[0] in steps && forall a :: a in steps[1..] ==> a in steps;
      StepKeepsId(m, steps[0], tid);
      TypedKept(m, steps[0]);
      OfferNeverReplaces(Step(m, steps[0]), steps[1..], tid);
    }
  }
}
