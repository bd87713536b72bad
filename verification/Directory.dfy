/**
 Transfers and their directories. A manager tells transfers apart by their
 ids, the disk by the directories those ids name; what a transfer staged
 stays its own exactly as long as no other registered one writes there.
 */
module Directories {
  import opened Common
  import opened Names
  import opened Paths
  import opened Transfers
  import opened Inboxes
  import opened Staging

  /** No other registered transfer has r's directory. */
  ghost predicate Alone(m: Inbox, r: nat)
    requires r < |m.arena|
  {
    forall q :: 0 <= q < |m.arena| && IsLive(m, q) && m.arena[q].dir == m.arena[r].dir ==> q == r
  }

  /** The step is an offer that is taken and whose id names dir. */
  predicate Enters(m: Inbox, a: Action, dir: Dir) {
    a.Offer? && Judge(m, a.man).Taken? && Join(m.staging, a.man.tid) == dir
  }

  ghost predicate NoneEnters(m: Inbox, steps: seq<Action>, dir: Dir)
    requires Typed(m)
    decreases |steps|
  {
    steps == [] || (
      TypedKept(m, steps[0]);
      !Enters(m, steps[0], dir) && NoneEnters(Step(m, steps[0]), steps[1..], dir))
  }

  /** The disk holds what transfer r has received. */
  ghost predicate Held(m: Inbox, r: nat)
    requires Inv(m) && r < |m.arena|
  {
    assert Good(m, r);
    OnDisk(m.arena[r], m.disk)
  }

  lemma OnlyTakenRegister(m: Inbox, man: Manifest, up: bool)
    ensures HandleOffer(m, man, up).live != m.live ==> Judge(m, man).Taken?
  {
  }

  /** An id registered after a step was registered before, or came with an offer that was taken. */
  lemma LiveFrom(m: Inbox, a: Action, tid: TID)
    requires Typed(m) && tid in Step(m, a).live
    ensures || (tid in m.live && Step(m, a).live[tid] == m.live[tid])
            || (a.Offer? && Judge(m, a.man).Taken? && a.man.tid == tid && Step(m, a).live[tid] == |m.arena|)
  {
    if a.Offer? {
      OfferAdds(m, a.man, a.up);
      OnlyTakenRegister(m, a.man, a.up);
    } else if a != Detach {
      OthersKeepRegistry(m, a);
    }
  }

  lemma StagingKept(m: Inbox, a: Action)
    requires Typed(m)
    ensures Step(m, a).staging == m.staging
  {
  }

  /** And its transfer was registered before, or entered the directory. */
  lemma NewlyLive(m: Inbox, a: Action, m': Inbox, q: nat)
    requires Inv(m) && m' == Step(m, a) && Inv(m') && q < |m'.arena| && IsLive(m', q)
    ensures (q < |m.arena| && IsLive(m, q)) || (q == |m.arena| && Enters(m, a, m'.arena[q].dir))
  {
    var tid := m'.arena[q].tid;
    LiveFrom(m, a, tid);
    StagingKept(m, a);
    assert Good(m', q);
    if tid in m.live && m'.live[tid] == m.live[tid] { assert m.arena[q].tid == tid; }
  }

  lemma StepKeepsAlone(m: Inbox, a: Action, r: nat)
    requires Inv(m) && Fits(a) && r < |m.arena| && Alone(m, r) && !Enters(m, a, m.arena[r].dir)
    ensures r < |Step(m, a).arena| && Alone(Step(m, a), r)
  {
    StepKeeps(m, a);
    var m' := Step(m, a);
    assert Extends(m.arena[r], m'.arena[r]);
    forall q | 0 <= q < |m'.arena| && IsLive(m', q) && m'.arena[q].dir == m'.arena[r].dir ensures q == r {
      NewlyLive(m, a, m', q);
      assert Extends(m.arena[q], m'.arena[q]);
    }
  }

  /** p is a file transfer t has received, or is receiving. */
  predicate Claims(t: Inbound, p: Path) {
    (exists i :: 0 <= i < t.curIdx && i < |t.names| && p == Path(t.dir, t.names[i])) || t.handle == Some(p)
  }

  /** The write loop changes a file of transfer r on behalf of another one. */
  ghost predicate Intrudes(m: Inbox, a: Action, r: nat)
    requires Typed(m) && r < |m.arena|
  {
    a.Work? && m.queue != [] && m.queue[0].0 != r && exists p :: Claims(m.arena[r], p) && Changes(m, a, p)
  }

  /** Any other step leaves what was received where it is. */
  lemma OtherStepKeepsHeld(m: Inbox, a: Action, r: nat)
    requires Inv(m) && Fits(a) && r < |m.arena| && Held(m, r) && !a.Work?
    ensures Inv(Step(m, a)) && r < |Step(m, a).arena| && Held(Step(m, a), r)
  {
    StepKeeps(m, a);
    OnlyWorkWrites(m, a);
    assert Good(m, r);
    var t := m.arena[r];
    var t' := OtherStepOf(m, a, r);
    match a {
      case Answer(_, accept, mkdir, _) => RespondKeeps(t, m.disk, accept, mkdir);
      case CancelIn(_, from, _, reason) => CancelKeeps(t, m.disk, from, reason);
      case Detach => ReleaseKeeps(t, m.disk);
      case _ =>
    }
  }

  lemma OtherStepOf(m: Inbox, a: Action, r: nat) returns (t: Inbound)
    requires Typed(m) && r < |m.arena| && !a.Work?
    ensures r < |Step(m, a).arena| && t == Step(m, a).arena[r]
    ensures t == m.arena[r] || match a
                               case Answer(_, accept, mkdir, _) => t == Respond(m.arena[r], accept, mkdir)
                               case CancelIn(_, from, _, reason) => t == CancelBy(m.arena[r], from, reason)
                               case Detach => t == Release(m.arena[r])
                               case _ => false
  {
    if a.Offer? { OfferAdds(m, a.man, a.up); }
    t := Step(m, a).arena[r];
  }

  lemma HeldAt(t: Inbound, disk: Disk, p: Path) returns (i: nat)
    requires Sane(t) && OnDisk(t, disk) && Claims(t, p)
    ensures i <= t.curIdx && At(disk, p) == Some(FileBytes(t.accepted, i))
    ensures forall d: Disk :: OnDisk(t, d) ==> At(d, p) == Some(FileBytes(t.accepted, i))
  {
    if t.handle == Some(p) {
      i := t.curIdx;
    } else {
      i :| 0 <= i < t.curIdx && i < |t.names| && p == Path(t.dir, t.names[i]);
    }
  }

  /** A transfer that nobody intruded on still has its bytes; one that was intruded on has not. */
  lemma SameBytesIff(t: Inbound, disk: Disk, disk': Disk)
    requires Sane(t) && OnDisk(t, disk)
    ensures OnDisk(t, disk') <==> forall p :: Claims(t, p) ==> At(disk', p) == At(disk, p)
  {
    if OnDisk(t, disk') {
      forall p | Claims(t, p) ensures At(disk', p) == At(disk, p) {
        var i := HeldAt(t, disk, p);
      }
    }
    if forall p :: Claims(t, p) ==> At(disk', p) == At(disk, p) {
      forall i | 0 <= i < t.curIdx ensures At(disk', Path(t.dir, t.names[i])) == Some(FileBytes(t.accepted, i)) {
        assert Claims(t, Path(t.dir, t.names[i]));
      }
      if t.handle.Some? { assert Claims(t, t.handle.value); }
    }
  }

  lemma WorkLosesIff(m: Inbox, io: Io, r: nat)
    requires Inv(m) && r < |m.arena| && Held(m, r)
    ensures var m' := HandleWork(m, io);
            Inv(m') && r < |m'.arena| && (Held(m', r) <==> !Intrudes(m, Action.Work(io), r))
  {
    WorkKeeps(m, io);
    assert Good(m, r);
    if m.queue != [] {
      var (q, c) := m.queue[0];
      if q == r {
        ProcessKeeps(m.arena[r], m.disk, c, io);
      } else {
        SameBytesIff(m.arena[r], m.disk, HandleWork(m, io).disk);
        forall p ensures At(HandleWork(m, io).disk, p) != At(m.disk, p) <==> Changes(m, Action.Work(io), p) {
          WorkChangesIff(m, io, p);
        }
      }
    }
  }

  /** Exactly when a step costs a transfer bytes it had received. */
  lemma StepLosesIff(m: Inbox, a: Action, r: nat)
    requires Inv(m) && Fits(a) && r < |m.arena| && Held(m, r)
    ensures Inv(Step(m, a)) && r < |Step(m, a).arena|
    ensures Held(Step(m, a), r) <==> !Intrudes(m, a, r)
  {
    if a.Work? { WorkLosesIff(m, a.io, r); } else { OtherStepKeepsHeld(m, a, r); }
  }

  /** Only registered transfers write, each in its own directory. */
  lemma WriterIsLive(m: Inbox, a: Action, p: Path)
    requires Inv(m) && Changes(m, a, p)
    ensures var q := m.queue[0].0;
            && IsLive(m, q) && m.arena[q].curIdx < |m.arena[q].names|
            && p == Path(m.arena[q].dir, m.arena[q].names[m.arena[q].curIdx])
  {
    assert Good(m, m.queue[0].0);
  }

  lemma ClaimsOwnDir(m: Inbox, r: nat, p: Path)
    requires Inv(m) && r < |m.arena| && Claims(m.arena[r], p)
    ensures p.dir == m.arena[r].dir
  {
    assert Good(m, r);
  }

  /** Nobody intrudes on a transfer alone in its directory. */
  lemma AloneNotIntruded(m: Inbox, a: Action, r: nat)
    requires Inv(m) && r < |m.arena| && Alone(m, r)
    ensures !Intrudes(m, a, r)
  {
    if Intrudes(m, a, r) {
      var p :| Claims(m.arena[r], p) && Changes(m, a, p);
      WriterIsLive(m, a, p);
      ClaimsOwnDir(m, r, p);
    }
  }

  /**
   What a transfer received stays on disk, over any interleaving, Detach
   included, as long as it is alone in its directory and no offer that is taken
   names that directory.
   */
  lemma {:induction false} RunKeepsHeld(m: Inbox, steps: seq<Action>, r: nat)
    requires Inv(m) && AllFit(steps) && r < |m.arena| && Held(m, r)
    requires Alone(m, r) && NoneEnters(m, steps, m.arena[r].dir)
    ensures var m' := Run(m, steps); Inv(m') && r < |m'.arena| && Held(m', r) && Alone(m', r)
    decreases |steps|
  {
    if steps != [] {
      AllFitSplit(steps);
      var m1 := Step(m, steps[0]);
      StepKeeps(m, steps[0]);
      AloneNotIntruded(m, steps[0], r);
      StepLosesIff(m, steps[0], r);
      StepKeepsAlone(m, steps[0], r);
      assert Extends(m.arena[r], m1.arena[r]);
      RunKeepsHeld(m1, steps[1..], r);
    }
  }

  /** Nothing intrudes on transfer r in any step of a run. */
  ghost predicate NoneIntrudes(m: Inbox, steps: seq<Action>, r: nat)
    requires Inv(m) && AllFit(steps) && r < |m.arena|
    decreases |steps|
  {
    steps == [] || (
      AllFitSplit(steps);
      StepKeeps(m, steps[0]);
      !Intrudes(m, steps[0], r) && NoneIntrudes(Step(m, steps[0]), steps[1..], r))
  }

  /** The disk holds what transfer r has received, after every step of a run. */
  ghost predicate AlwaysHeld(m: Inbox, steps: seq<Action>, r: nat)
    requires Inv(m) && AllFit(steps) && r < |m.arena|
    decreases |steps|
  {
    steps == [] || (
      AllFitSplit(steps);
      StepKeeps(m, steps[0]);
      Held(Step(m, steps[0]), r) && AlwaysHeld(Step(m, steps[0]), steps[1..], r))
  }

  /** Exactly when a transfer keeps what it received throughout a run, whatever directories the ids name. */
  lemma {:induction false} AlwaysHeldIff(m: Inbox, steps: seq<Action>, r: nat)
    requires Inv(m) && AllFit(steps) && r < |m.arena| && Held(m, r)
    ensures AlwaysHeld(m, steps, r) <==> NoneIntrudes(m, steps, r)
    decreases |steps|
  {
    if steps != [] {
      AllFitSplit(steps);
      StepLosesIff(m, steps[0], r);
      StepKeeps(m, steps[0]);
      if !Intrudes(m, steps[0], r) { AlwaysHeldIff(Step(m, steps[0]), steps[1..], r); }
    }
  }

  /**
   Two transfers have the same file open exactly when they share a directory and
   have come to the same name in it, so never when one is alone in its directory.
   */
  lemma HandlesApart(m: Inbox, q: nat, r: nat)
    requires Inv(m) && q < |m.arena| && r < |m.arena| && q != r
    requires m.arena[q].handle.Some? && m.arena[r].handle.Some?
    ensures var t, u := m.arena[q], m.arena[r];
            && t.curIdx < |t.names| && u.curIdx < |u.names|
            && (t.handle == u.handle <==> t.dir == u.dir && t.names[t.curIdx] == u.names[u.curIdx])
    ensures Alone(m, r) ==> m.arena[q].handle != m.arena[r].handle
  {
    OpenHandleIsReceiving(m, q);
    OpenHandleIsReceiving(m, r);
  }

  /** When it is Done it has every file on disk, complete and in order. */
  lemma DoneFilesOnDisk(m: Inbox, steps: seq<Action>, r: nat, i: nat)
    requires Inv(m) && AllFit(steps) && r < |m.arena| && Held(m, r)
    requires Alone(m, r) && NoneEnters(m, steps, m.arena[r].dir)
    requires r < |Run(m, steps).arena| && i < |Run(m, steps).arena[r].files| && Run(m, steps).arena[r].state.Done?
    ensures var m' := Run(m, steps); var t := m'.arena[r];
            && i < |t.names| && t.done == t.total
            && var p := Path(t.dir, t.names[i]);
               p in m'.disk && m'.disk[p] == FileBytes(t.accepted, i) && |m'.disk[p]| == t.files[i].size
  {
    RunKeepsHeld(m, steps, r);
    var m' := Run(m, steps);
    assert Good(m', r);
    DoneIsComplete(m'.arena[r], m'.disk, i);
  }

  /** File k of transfer r is complete and on disk. */
  ghost predicate Staged(m: Inbox, r: nat, k: nat) {
    r < |m.arena| && k < m.arena[r].curIdx && k < |m.arena[r].names| && StagedPath(m, r, k) in m.disk
  }

  function StagedPath(m: Inbox, r: nat, k: nat): Path
    requires r < |m.arena| && k < |m.arena[r].names|
  {
    Path(m.arena[r].dir, m.arena[r].names[k])
  }

  /** A completely received file of a transfer alone in its directory is never what a step changes. */
  lemma StagedNotChanged(m: Inbox, a: Action, r: nat, k: nat)
    requires Inv(m) && Staged(m, r, k) && Alone(m, r)
    ensures !Changes(m, a, StagedPath(m, r, k))
  {
    assert Good(m, r);
    if Changes(m, a, StagedPath(m, r, k)) { WriterIsLive(m, a, StagedPath(m, r, k)); }
  }

  lemma StepKeepsStaged(m: Inbox, a: Action, r: nat, k: nat)
    requires Inv(m) && Fits(a) && Staged(m, r, k) && Alone(m, r)
    ensures var m' := Step(m, a); Inv(m') && Staged(m', r, k) && StagedPath(m', r, k) == StagedPath(m, r, k)
    ensures Step(m, a).disk[StagedPath(m, r, k)] == m.disk[StagedPath(m, r, k)]
  {
    var p := StagedPath(m, r, k);
    StepKeeps(m, a);
    StagedNotChanged(m, a, r, k);
    StepChangesIff(m, a, p);
    assert At(Step(m, a).disk, p) == At(m.disk, p);
    assert Extends(m.arena[r], Step(m, a).arena[r]);
  }

  /**
   A completely received file is never written again: over any interleaving,
   Detach included, as long as its transfer is alone in its directory and no
   offer that is taken names that directory.
   */
  lemma {:induction false} StagedFilesAreFinal(m: Inbox, steps: seq<Action>, r: nat, k: nat)
    requires Inv(m) && AllFit(steps) && Staged(m, r, k) && Alone(m, r) && NoneEnters(m, steps, m.arena[r].dir)
    ensures var p := StagedPath(m, r, k); p in Run(m, steps).disk && Run(m, steps).disk[p] == m.disk[p]
    decreases |steps|
  {
    if steps != [] {
      AllFitSplit(steps);
      StepKeepsStaged(m, steps[0], r, k);
      StepKeepsAlone(m, steps[0], r);
      StagedFilesAreFinal(Step(m, steps[0]), steps[1..], r, k);
    }
  }

  /** Every registered transfer is alone in its directory, and has what it received on disk. */
  ghost predicate Apart(m: Inbox) {
    Inv(m) && forall r :: 0 <= r < |m.arena| && IsLive(m, r) ==> Alone(m, r) && Held(m, r)
  }

  /** An offer that is taken names no directory a registered transfer has. */
  ghost predicate NewDir(m: Inbox, a: Action) {
    forall r :: 0 <= r < |m.arena| && IsLive(m, r) ==> !Enters(m, a, m.arena[r].dir)
  }

  ghost predicate NewDirs(m: Inbox, steps: seq<Action>)
    requires Typed(m)
    decreases |steps|
  {
    steps == [] || (
      TypedKept(m, steps[0]);
      NewDir(m, steps[0]) && NewDirs(Step(m, steps[0]), steps[1..]))
  }

  /** A transfer just registered has everything on disk: nothing. */
  lemma EntrantHeld(m: Inbox, a: Action)
    requires Inv(m) && Fits(a) && a.Offer? && Inv(Step(m, a)) && |Step(m, a).arena| > |m.arena|
    ensures Held(Step(m, a), |m.arena|)
  {
    DraftAdmissible(m, a.man, a.up);
    SettledDraft(m, Draft(m, a.man), a.up);
  }

  lemma SettledDraft(m: Inbox, draft: Option<Inbound>, up: bool)
    ensures var m' := Settle(m, draft, up);
            m'.disk == m.disk && m'.arena == m.arena + if draft.Some? then [draft.value] else []
  {
  }

  lemma StepKeepsApart(m: Inbox, a: Action)
    requires Apart(m) && Fits(a) && NewDir(m, a)
    ensures Apart(Step(m, a))
  {
    StepKeeps(m, a);
    var m' := Step(m, a);
    forall q | 0 <= q < |m'.arena| && IsLive(m', q) ensures Alone(m', q) && Held(m', q) {
      NewlyLive(m, a, m', q);
      if q < |m.arena| && IsLive(m, q) {
        StepKeepsAlone(m, a, q);
        AloneNotIntruded(m, a, q);
        StepLosesIff(m, a, q);
      } else {
        EntrantHeld(m, a);
        EntrantAlone(m, a, m', q);
      }
    }
  }

  lemma EntrantAlone(m: Inbox, a: Action, m': Inbox, q: nat)
    requires Inv(m) && m' == Step(m, a) && Inv(m') && ArenaExtends(m, m') && NewDir(m, a)
    requires q == |m.arena| < |m'.arena| && Enters(m, a, m'.arena[q].dir)
    ensures Alone(m', q)
  {
    forall r | 0 <= r < |m'.arena| && IsLive(m', r) && m'.arena[r].dir == m'.arena[q].dir ensures r == q {
      NewlyLive(m, a, m', r);
    }
  }

  /** So registered transfers keep to themselves as long as no taken offer names a directory in use. */
  lemma {:induction false} RunKeepsApart(m: Inbox, steps: seq<Action>)
    requires Apart(m) && AllFit(steps) && NewDirs(m, steps)
    ensures Apart(Run(m, steps))
    decreases |steps|
  {
    if steps != [] {
      AllFitSplit(steps);
      StepKeepsApart(m, steps[0]);
      RunKeepsApart(Step(m, steps[0]), steps[1..]);
    }
  }

  ghost predicate PlainOffers(steps: seq<Action>) { forall a :: a in steps && a.Offer? ==> Plain(a.man.tid) }

  ghost predicate PlainLive(m: Inbox) { forall tid :: tid in m.live ==> Plain(tid) }

  lemma PlainNewDir(m: Inbox, a: Action)
    requires Inv(m) && PlainLive(m) && (a.Offer? ==> Plain(a.man.tid))
    ensures NewDir(m, a)
  {
    forall r | 0 <= r < |m.arena| && IsLive(m, r) ensures !Enters(m, a, m.arena[r].dir) {
      assert Good(m, r);
      if a.Offer? { PlainDirsDiffer(m.staging, m.arena[r].tid, a.man.tid); }
    }
  }

  lemma PlainKept(m: Inbox, a: Action)
    requires Inv(m) && Fits(a) && PlainLive(m) && (a.Offer? ==> Plain(a.man.tid))
    ensures PlainLive(Step(m, a))
  {
    forall tid | tid in Step(m, a).live ensures Plain(tid) {
      LiveFrom(m, a, tid);
    }
  }

  lemma {:induction false} PlainRun(m: Inbox, steps: seq<Action>)
    requires Inv(m) && AllFit(steps) && PlainLive(m) && PlainOffers(steps)
    ensures NewDirs(m, steps)
    decreases |steps|
  {
    if steps != [] {
      AllFitSplit(steps);
      assert steps[0] in steps && forall a :: a in steps[1..] ==> a in steps;
      PlainNewDir(m, steps[0]);
      PlainKept(m, steps[0]);
      StepKeeps(m, steps[0]);
      PlainRun(Step(m, steps[0]), steps[1..]);
    }
  }

  /** A file's place on disk, from the root down. */
  function Place(p: Path): Dir { Join(p.dir, p.name) }

  /** A step writes below the staging directory exactly when the id it writes for stays below. */
  lemma WriteBelowIff(m: Inbox, a: Action, p: Path)
    requires Inv(m) && Changes(m, a, p)
    ensures m.staging < Place(p) <==> StaysBelow(m.staging, m.arena[m.queue[0].0].tid)
  {
    var q := m.queue[0].0;
    WriterIsLive(m, a, p);
    assert Good(m, q);
    BelowIff(m.staging, m.arena[q].tid, p.name);
  }

  ghost predicate LiveStayBelow(m: Inbox) { forall tid :: tid in m.live ==> StaysBelow(m.staging, tid) }

  ghost predicate OffersStayBelow(staging: Dir, steps: seq<Action>) {
    forall a :: a in steps && a.Offer? ==> StaysBelow(staging, a.man.tid)
  }

  lemma StepStaysBelow(m: Inbox, a: Action, p: Path)
    requires Inv(m) && LiveStayBelow(m) && (a.Offer? ==> StaysBelow(m.staging, a.man.tid))
    ensures LiveStayBelow(Step(m, a))
    ensures !(m.staging < Place(p)) ==> At(Step(m, a).disk, p) == At(m.disk, p)
  {
    StagingKept(m, a);
    forall tid | tid in Step(m, a).live ensures StaysBelow(m.staging, tid) {
      LiveFrom(m, a, tid);
    }
    StepChangesIff(m, a, p);
    if Changes(m, a, p) {
      WriterIsLive(m, a, p);
      WriteBelowIff(m, a, p);
    }
  }

  /** So as long as the offered ids stay below the staging directory, nothing outside it changes. */
  lemma {:induction false} RunStaysBelow(m: Inbox, steps: seq<Action>, p: Path)
    requires Inv(m) && AllFit(steps) && LiveStayBelow(m) && OffersStayBelow(m.staging, steps)
    requires !(m.staging < Place(p))
    ensures At(Run(m, steps).disk, p) == At(m.disk, p)
    decreases |steps|
  {
    if steps != [] {
      AllFitSplit(steps);
      assert steps[0] in steps && forall a :: a in steps[1..] ==> a in steps;
      StepStaysBelow(m, steps[0], p);
      StepKeeps(m, steps[0]);
      StagingKept(m, steps[0]);
      RunStaysBelow(Step(m, steps[0]), steps[1..], p);
    }
  }

  lemma PlainStayBelow(staging: Dir, steps: seq<Action>)
    requires PlainOffers(steps)
    ensures OffersStayBelow(staging, steps)
  {
    forall a | a in steps && a.Offer? ensures StaysBelow(staging, a.man.tid) {
      PlainStays(staging, a.man.tid);
    }
  }

  /**
   In every run from a new manager whose offers have plain ids, registered
   transfers keep to themselves, and nothing outside the staging directory changes.
   */
  lemma PlainIdsKeepApart(self: string, staging: Dir, autoMax: i64, disk: Disk, steps: seq<Action>)
    requires AllFit(steps) && PlainOffers(steps)
    ensures var m := Run(Empty(self, staging, autoMax, disk), steps);
            Apart(m) && forall p :: !(staging < Place(p)) ==> At(m.disk, p) == At(disk, p)
  {
    var m0 := Empty(self, staging, autoMax, disk);
    PlainRun(m0, steps);
    RunKeepsApart(m0, steps);
    PlainStayBelow(staging, steps);
    forall p | !(staging < Place(p)) ensures At(Run(m0, steps).disk, p) == At(disk, p) {
      RunStaysBelow(m0, steps, p);
    }
  }

  /** Such as those newTransferID makes, of hexadecimal digits and a dash. */
  lemma OwnIdsArePlain(tid: TID)
    requires tid != "" && forall c :: c in tid ==> c in "0123456789abcdef-"
    ensures Plain(tid)
  {
    assert tid[0] in tid;
  }
}
