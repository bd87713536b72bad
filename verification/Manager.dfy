/**
 The transfer manager's objects (platform/filexfer/filexfer.go): inbound
 transfers updated in place, and the registry, queue and disk around them, each
 method proved against its step on values.
 */
module Managers {
  import opened Common
  import opened Names
  import opened Paths
  import opened Transfers
  import opened Inboxes
  import Notices

  class InTransfer {
    ghost const ref: nat
    const tid: TID
    const dir: Dir
    const from: string
    const files: seq<Meta>
    const names: seq<string>
    const auto: bool
    const total: i64
    var state: State
    var done: i64
    var curIdx: nat
    var curDone: i64
    var handle: Option<Path>
    var err: Option<Reason>
    ghost var accepted: seq<Chunk>

    ghost function View(): Inbound
      reads this
    {
      Inbound(tid, dir, from, files, names, auto, total, state, done, curIdx, curDone, handle, err, accepted)
    }

    constructor (ghost ref: nat, man: Manifest, dir: Dir, names: seq<string>, auto: bool, total: i64)
      ensures this.ref == ref && this.tid == man.tid && this.files == man.files && this.names == names
      ensures View() == Inbound(man.tid, dir, man.from, man.files, names, auto, total,
                                if auto then Receiving else Pending, 0, 0, 0, None, None, [])
    {
      this.ref, tid, this.dir, from, files := ref, man.tid, dir, man.from, man.files;
      this.names, this.auto, this.total := names, auto, total;
      state := if auto then Receiving else Pending;
      done, curIdx, curDone, handle, err, accepted := 0, 0, 0, None, None, [];
    }

    /** The closure fail: the transfer is over and its file closed. */
    method Fail(why: Reason) returns (reply: Reply)
      modifies this
      ensures View() == old(View()).(state := Failed, err := Some(why), handle := None) && reply == SendCancel
    {
      state, err, handle := Failed, Some(why), None;
      reply := SendCancel;
    }

    /** The terminating chunk. */
    method Finish(ev: Chunk, io: Io, disk: Disk) returns (reply: Reply)
      modifies this
      ensures Outcome(View(), disk, reply) == Transfers.Finish(old(View()), disk, ev, io)
    {
      if ev.idx != |files| || curIdx != |files| {
        reply := Fail(EarlyFin);
        return;
      }
      state := Done;
      if !io.writer {
        reply := Fail(NoClipboard);
      } else if !io.clip {
        reply := Fail(ClipboardFailed);
      } else {
        reply := SendDone;
      }
    }

    /** Open the current file if need be, write, and close it when complete. */
    method Store(ev: Chunk, io: Io, disk: Disk) returns (disk': Disk, reply: Reply)
      requires curIdx < |files| == |names| && |ev.data| <= CHUNK_SIZE
      modifies this
      ensures Outcome(View(), disk', reply) == Transfers.Store(old(View()), disk, ev, io)
    {
      disk' := disk;
      if handle.None? {
        if !io.mkdir {
          reply := Fail(MkdirFailed);
          return;
        }
        if !io.create {
          reply := Fail(CreateFailed);
          return;
        }
        var p := Path(dir, names[curIdx]);
        handle, disk' := Some(p), disk'[p := []];
      }
      var p := handle.value;
      if io.write.Some? {
        var k := io.write.value;
        disk' := Put(disk', p, curDone, if k < |ev.data| then ev.data[..k] else ev.data);
        reply := Fail(WriteFailed);
        return;
      }
      disk' := Put(disk', p, curDone, ev.data);
      accepted := accepted + [ev];
      curDone := Add64(curDone, |ev.data|);
      done := Add64(done, |ev.data|);
      reply := NoReply;
      if curDone == files[curIdx].size {
        if !io.close {
          reply := Fail(CloseFailed);
          return;
        }
        handle, curIdx, curDone := None, curIdx + 1, 0;
      }
    }

    method ProcessChunk(ev: Chunk, io: Io, disk: Disk) returns (disk': Disk, reply: Reply)
      requires |files| == |names|
      modifies this
      ensures Outcome(View(), disk', reply) == Process(old(View()), disk, ev, io)
    {
      disk', reply := disk, NoReply;
      if !state.Receiving? {
        return;
      }
      if |ev.data| > CHUNK_SIZE {
        reply := Fail(ChunkTooLarge);
      } else if ev.idx < curIdx || ev.idx > |files| {
        reply := Fail(IndexOutOfRange);
      } else if ev.fin {
        reply := Finish(ev, io, disk);
      } else if ev.idx >= |files| {
        reply := Fail(PastEnd);
      } else if ev.idx != curIdx {
        reply := Fail(WrongFile);
      } else if ev.off != curDone {
        reply := Fail(WrongOffset);
      } else if Add64(curDone, |ev.data|) > files[ev.idx].size {
        reply := Fail(ExceedsSize);
      } else {
        disk', reply := Store(ev, io, disk);
      }
    }

    /** The inbound half of onCanceled. */
    method Cancel(peer: string, reason: string)
      modifies this
      ensures View() == CancelBy(old(View()), peer, reason)
    {
      if peer != from {
        return;
      }
      handle := None;
      if state.Receiving? || state.Pending? {
        state := if reason == "declined" then Declined else Canceled;
        err := Some(Remote(reason));
      }
    }

    /** Respond, once the transfer is found. */
    method Answer(accept: bool, mkdir: bool)
      requires state.Pending?
      modifies this
      ensures View() == Respond(old(View()), accept, mkdir)
    {
      if !accept {
        state := Declined;
      } else if !mkdir {
        state, err := Failed, Some(MkdirFailed);
      } else {
        state := Receiving;
      }
    }

    /** One entry of Statuses. */
    method Snapshot() returns (s: Status)
      ensures s == StatusOf(View())
    {
      var lines: seq<FileStatus> := [];
      var i := 0;
      while i < |files|
        invariant 0 <= i <= |files| && |lines| == i
        invariant forall k :: 0 <= k < i ==>
                    lines[k] == FileStatus(files[k].name, files[k].size, FileProgress(View(), k))
      {
        var part := files[i].size;
        if !state.Done? {
          if i < curIdx {
          } else if i == curIdx {
            part := curDone;
          } else {
            part := 0;
          }
        }
        lines := lines + [FileStatus(files[i].name, files[i].size, part)];
        i := i + 1;
      }
      s := Status(tid, from, state, auto, lines, total, done, err);
    }

    /** What Detach does to one transfer. */
    method Close()
      modifies this
      ensures View() == Release(old(View()))
    {
      handle := None;
      if state.Receiving? {
        state := Canceled;
      }
    }
  }

  datatype FileStatus = FileStatus(name: string, size: i64, done: i64)

  datatype Status = Status(tid: TID, from: string, state: State, auto: bool, files: seq<FileStatus>, total: i64,
      done: i64, err: Option<Reason>)

  /** The snapshot of one transfer. */
  function StatusOf(t: Inbound): Status {
    Status(t.tid, t.from, t.state, t.auto,
           seq(|t.files|, i requires 0 <= i < |t.files| =>
             FileStatus(t.files[i].name, t.files[i].size, FileProgress(t, i))),
           t.total, t.done, t.err)
  }

  /** One snapshot for each listed transfer that is registered. */
  function StatusList(m: Inbox, ids: seq<TID>): seq<Status>
    requires Typed(m)
  {
    if ids == [] then []
    else
      var last := ids[|ids| - 1];
      StatusList(m, ids[..|ids| - 1]) + if last in m.live then [StatusOf(m.arena[m.live[last]])] else []
  }

  function SumDone(lines: seq<FileStatus>): int {
    if lines == [] then 0 else SumDone(lines[..|lines| - 1]) + lines[|lines| - 1].done
  }

  lemma {:induction false} LinesAddUp(t: Inbound, n: nat)
    requires n <= |t.files|
    ensures SumDone(StatusOf(t).files[..n]) == SumProgress(t, n)
  {
    if n > 0 {
      LinesAddUp(t, n - 1);
      assert StatusOf(t).files[..n][..n - 1] == StatusOf(t).files[..n - 1];
    }
  }

  /**
   In every reachable state the per-file progress of a snapshot adds up to its
   done count, which never exceeds its total.
   */
  lemma StatusesAddUp(self: string, staging: Dir, autoMax: i64, disk: Disk, steps: seq<Action>, tid: TID)
    requires AllFit(steps) && tid in Run(Empty(self, staging, autoMax, disk), steps).live
    ensures var m := Run(Empty(self, staging, autoMax, disk), steps); var s := StatusOf(m.arena[m.live[tid]]);
            SumDone(s.files) == s.done <= s.total && (s.state.Done? ==> s.done == s.total)
  {
    var m := Run(Empty(self, staging, autoMax, disk), steps);
    RunKeeps(Empty(self, staging, autoMax, disk), steps);
    var t := m.arena[m.live[tid]];
    assert Good(m, m.live[tid]);
    ProgressAddsUp(t);
    ProgressBounded(t);
    LinesAddUp(t, |t.files|);
    assert StatusOf(t).files[..|t.files|] == StatusOf(t).files;
    assert t.state.Done? ==> t.files[..t.curIdx] == t.files;
  }

  /**
   A snapshot shows the offered names and sizes, a reason when the transfer has
   failed and none before it ends, and that a transfer started unasked only if it
   never had to wait.
   */
  lemma StatusesExplain(self: string, staging: Dir, autoMax: i64, disk: Disk, steps: seq<Action>, tid: TID)
    requires AllFit(steps) && tid in Run(Empty(self, staging, autoMax, disk), steps).live
    ensures var m := Run(Empty(self, staging, autoMax, disk), steps);
            var t := m.arena[m.live[tid]]; var s := StatusOf(t);
            && s.tid == tid && s.from == t.from && s.state == t.state && |s.files| == |t.files|
            && (forall i :: 0 <= i < |s.files| ==>
                  && s.files[i].name == t.files[i].name && s.files[i].size == t.files[i].size
                  && 0 <= s.files[i].done <= s.files[i].size)
            && (s.state.Failed? ==> s.err.Some?) && (s.state.Pending? ==> !s.auto)
            && (s.state.Pending? || s.state.Receiving? || s.state.Done? ==> s.err.None?)
  {
    var m0 := Empty(self, staging, autoMax, disk);
    RunKeeps(m0, steps);
    Notices.RunExplained(m0, steps);
    var m := Run(m0, steps);
    var t := m.arena[m.live[tid]];
    assert Good(m, m.live[tid]) && Notices.Explained(t);
    forall i | 0 <= i < |t.files| ensures 0 <= FileProgress(t, i) <= t.files[i].size {
      assert t.files[i] in t.files;
    }
  }

  class Manager {
    const self: string
    const staging: Dir
    const autoMax: i64
    var attached: bool
    var live: map<TID, InTransfer>
    var order: seq<TID>
    var queue: seq<(InTransfer, Chunk)>
    var disk: Disk
    var sent: seq<Control>
    ghost var made: seq<InTransfer>

    ghost predicate Known(t: InTransfer)
      reads this
    {
      t.ref < |made| && made[t.ref] == t
    }

    ghost predicate Valid()
      reads this, made
    {
      && (forall r :: 0 <= r < |made| ==> made[r].ref == r && |made[r].names| == |made[r].files|)
      && (forall tid :: tid in live ==> Known(live[tid]) && live[tid].tid == tid)
      && (forall k :: 0 <= k < |queue| ==> Known(queue[k].0))
    }

    ghost function Arena(): seq<Inbound>
      reads this, made
    {
      seq(|made|, r requires 0 <= r < |made| reads this, made => made[r].View())
    }

    ghost function Live(): map<TID, nat>
      reads this
    {
      map tid | tid in live :: live[tid].ref
    }

    ghost function Queue(): seq<(nat, Chunk)>
      reads this
    {
      seq(|queue|, k requires 0 <= k < |queue| reads this => (queue[k].0.ref, queue[k].1))
    }

    ghost function View(): (v: Inbox)
      requires Valid()
      reads this, made
      ensures Typed(v)
    {
      Inbox(self, staging, autoMax, attached, Arena(), Live(), order, Queue(), disk, sent)
    }

    constructor (self: string, staging: Dir, autoMax: i64, disk: Disk)
      ensures Valid() && View() == Empty(self, staging, autoMax, disk)
    {
      this.self, this.staging := self, staging;
      this.autoMax := if autoMax <= 0 then AUTO_ACCEPT_MAX else autoMax;
      attached, live, order, queue, sent, made := false, map[], [], [], [], [];
      this.disk := disk;
    }

    method SendControl(c: Control, up: bool) returns (ok: bool)
      requires Valid()
      modifies this`sent
      ensures Valid() && View() == Send(old(View()), c, up) && ok == (attached && up)
    {
      ok := attached && up;
      if ok {
        sent := sent + [c];
      }
    }

    /** Checks every name and size of an offer and picks the staged names. */
    static method Inspect(files: seq<Meta>) returns (names: Option<seq<string>>, total: i64)
      ensures names == match Vet(files) case Some(ns) => Some(Stage(ns)) case None => None
      ensures names.Some? ==> total == TotalOf(files)
    {
      var safe, used := [], {};
      ghost var vetted := [];
      total := 0;
      var i := 0;
      while i < |files|
        invariant 0 <= i <= |files|
        invariant Vet(files[..i]) == Some(vetted) && safe == Stage(vetted) && used == Members(safe)
        invariant total == TotalOf(files[..i])
      {
        var name := SanitizeName(files[i].name);
        if name.None? || files[i].size < 0 {
          assert !Acceptable(files[i]);
          return None, 0;
        }
        InspectNext(files, i, vetted);
        TotalNext(files, i);
        StageNext(vetted, name.value);
        var unique;
        unique, used := UniqueName(name.value, used);
        safe, vetted := safe + [unique], vetted + [name.value];
        total := Add64(total, files[i].size);
        i := i + 1;
      }
      assert files[..i] == files;
      names := Some(safe);
    }

    /** A transfer under a new id joins the registry. */
    method Add(man: Manifest, names: seq<string>, auto: bool, total: i64)
      requires Valid() && man.tid !in live && |names| == |man.files|
      modifies this`live, this`order, this`made
      ensures Valid() && Queue() == old(Queue())
      ensures Arena() == old(Arena()) +
                         [Inbound(man.tid, Join(staging, man.tid), man.from, man.files, names, auto, total,
                                  if auto then Receiving else Pending, 0, 0, 0, None, None, [])]
      ensures Live() == old(Live())[man.tid := |old(Arena())|] && order == LastOf(old(order) + [man.tid], ORDER_CAP)
    {
      var t := new InTransfer(|made|, man, Join(staging, man.tid), names, auto, total);
      live := live[man.tid := t];
      order := LastOf(order + [man.tid], ORDER_CAP);
      made := made + [t];
    }

    /** Registers a vetted offer, and starts it at once when it is small. */
    method Take(man: Manifest, names: seq<string>, auto: bool, total: i64, up: bool) returns (ok: bool)
      requires Valid() && Judge(View(), man) == Taken(auto)
      requires names == Stage(Vet(man.files).value) && total == TotalOf(man.files)
      modifies this`live, this`order, this`made, this`sent
      ensures Valid() && View() == Inboxes.HandleOffer(old(View()), man, up) && ok == !OfferFails(old(View()), man, up)
    {
      Add(man, names, auto, total);
      ok := true;
      if auto {
        ok := SendControl(FileAccept(man.tid, man.from), up);
      }
    }

    /** The checks of HandleOffer; names and total are those of a taken offer. */
    method Examine(man: Manifest) returns (v: Verdict, names: seq<string>, total: i64)
      requires Valid()
      ensures v == Judge(View(), man)
      ensures v.Taken? ==> names == Stage(Vet(man.files).value) && total == TotalOf(man.files)
    {
      names, total := [], 0;
      if man.tid == "" || man.from == "" || man.from == self {
        return Ignored, names, total;
      }
      if |man.files| == 0 || |man.files| > MAX_FILES {
        return BadCount, names, total;
      }
      var staged, sum := Inspect(man.files);
      if staged.None? {
        return UnsafeName, names, total;
      }
      if man.tid in live {
        return Duplicate, names, total;
      }
      return Taken(sum <= autoMax), staged.value, sum;
    }

    /** up says whether the connection takes the acceptance; err is the error returned to the offer's sender. */
    method HandleOffer(man: Manifest, up: bool) returns (v: Verdict, err: bool)
      requires Valid()
      modifies this`live, this`order, this`made, this`sent
      ensures Valid() && v == Judge(old(View()), man) && err == OfferFails(old(View()), man, up)
      ensures View() == Inboxes.HandleOffer(old(View()), man, up)
    {
      var names, total;
      v, names, total := Examine(man);
      err := v.BadCount? || v.UnsafeName?;
      if v.Taken? {
        var ok := Take(man, names, v.auto, total, up);
        err := !ok;
      }
    }

    /** The user's decision on a pending transfer, before anyone is told. */
    method Decide(tid: TID, accept: bool, mkdir: bool)
      requires Valid() && tid in live && live[tid].state.Pending?
      modifies made
      ensures Valid()
      ensures View() == var v := old(View()); var r := v.live[tid];
                        v.(arena := v.arena[r := Respond(v.arena[r], accept, mkdir)])
    {
      ghost var v := View();
      live[tid].Answer(accept, mkdir);
      assert Arena() == v.arena[live[tid].ref := live[tid].View()];
    }

    /** Respond. */
    method Answer(tid: TID, accept: bool, mkdir: bool, up: bool) returns (err: Option<AnswerError>)
      requires Valid()
      modifies this`sent, made
      ensures Valid() && View() == HandleAnswer(old(View()), tid, accept, mkdir, up)
      ensures err == AnswerFails(old(View()), tid, accept, mkdir, up)
    {
      if tid !in live {
        return Some(UnknownTransfer);
      }
      if !live[tid].state.Pending? {
        return Some(NotPending(live[tid].state));
      }
      var from := live[tid].from;
      Decide(tid, accept, mkdir);
      if accept && !mkdir {
        return Some(NoDirectory);
      }
      var ok := SendControl(if accept then FileAccept(tid, from) else FileCancel(tid, from, "declined"), up);
      err := if ok then None else Some(NotSent);
    }

    /** A chunk addressed to this node; a full queue makes the sender wait. */
    method OnChunk(tid: TID, from: string, to: string, c: Chunk)
      requires Valid()
      modifies this`queue
      ensures Valid() && View() == HandleChunk(old(View()), tid, from, to, c)
    {
      if to == self && tid in live && from == live[tid].from && |queue| != QUEUE_CAP {
        ghost var v := View();
        queue := queue + [(live[tid], c)];
        assert Queue() == v.queue + [(v.live[tid], c)];
      }
    }

    /** Tells the sender how its transfer ended. */
    method Report(t: InTransfer, reply: Reply, up: bool)
      requires Valid()
      modifies this`sent
      ensures Valid()
      ensures View() == var v := old(View());
                        v.(sent := v.sent + if v.attached && up then ControlFor(t.View(), reply) else [])
    {
      if attached && up {
        match reply
        case NoReply =>
        case SendCancel => sent := sent + [FileCancel(t.tid, t.from, "receive failed")];
        case SendDone => sent := sent + [FileDone(t.tid, t.from)];
      }
    }

    /** Takes the oldest queued chunk, with the transfer it was queued for. */
    method TakeChunk() returns (t: InTransfer, c: Chunk)
      requires Valid() && queue != []
      modifies this`queue
      ensures Valid() && Known(t)
      ensures var v := old(View()); (t.ref, c) == v.queue[0] && View() == v.(queue := v.queue[1..])
    {
      ghost var v := View();
      t, c := queue[0].0, queue[0].1;
      queue := queue[1..];
      assert Queue() == v.queue[1..];
    }

    /** Processes a chunk against a transfer, registered or not. */
    method ProcessFor(t: InTransfer, c: Chunk, io: Io) returns (reply: Reply)
      requires Valid() && Known(t)
      modifies this`disk, made
      ensures Valid() && Known(t)
      ensures var v := old(View()); var o := Process(v.arena[t.ref], v.disk, c, io);
              t.View() == o.t && reply == o.reply && View() == v.(arena := v.arena[t.ref := o.t], disk := o.disk)
    {
      ghost var v := View();
      disk, reply := t.ProcessChunk(c, io, disk);
      assert Arena() == v.arena[t.ref := t.View()];
    }

    /** One turn of the write loop. */
    method Work(io: Io)
      requires Valid()
      modifies this`queue, this`disk, this`sent, made
      ensures Valid() && View() == HandleWork(old(View()), io)
    {
      if queue == [] {
        return;
      }
      var t, c := TakeChunk();
      var reply := ProcessFor(t, c, io);
      Report(t, reply, io.told);
    }

    /** onCanceled, for inbound transfers. */
    method OnCanceled(tid: TID, from: string, to: string, reason: string)
      requires Valid()
      modifies made
      ensures Valid() && View() == HandleCancel(old(View()), tid, from, to, reason)
    {
      if to != self || tid !in live {
        return;
      }
      ghost var v := View();
      live[tid].Cancel(from, reason);
      assert Arena() == v.arena[live[tid].ref := live[tid].View()];
    }

    method Attach()
      requires Valid()
      modifies this`attached
      ensures Valid() && View() == old(View()).(attached := true)
    {
      attached := true;
    }

    /** Closes every registered transfer, in whatever order the map yields them. */
    method CloseAll()
      requires Valid()
      modifies made
      ensures Valid()
      ensures forall r :: 0 <= r < |made| ==>
                made[r].View() == if made[r] in live.Values then Release(old(made[r].View())) else old(made[r].View())
    {
      var rest := live.Keys;
      while rest != {}
        invariant Valid() && rest <= live.Keys
        invariant forall r :: 0 <= r < |made| ==>
                    made[r].View() ==
                    if made[r] in live.Values && made[r].tid !in rest then Release(old(made[r].View()))
                    else old(made[r].View())
        decreases rest
      {
        var tid :| tid in rest;
        live[tid].Close();
        rest := rest - {tid};
      }
    }

    method Detach()
      requires Valid()
      modifies this`attached, this`live, this`order, made
      ensures Valid() && View() == HandleDetach(old(View()))
    {
      ghost var v := View();
      attached := false;
      CloseAll();
      assert Arena() == HandleDetach(v).arena;
      live, order := map[], [];
      assert Live() == map[] && Queue() == v.queue;
    }

    /** The inbound half of Statuses. */
    method Statuses() returns (out: seq<Status>)
      requires Valid()
      ensures out == StatusList(View(), order)
    {
      ghost var v := View();
      out := [];
      var k := 0;
      while k < |order|
        invariant 0 <= k <= |order| && out == StatusList(v, order[..k])
      {
        assert order[..k + 1][..k] == order[..k];
        if order[k] in live {
          var one := live[order[k]].Snapshot();
          out := out + [one];
        }
        k := k + 1;
      }
      assert order[..k] == order;
    }
  }

  lemma StageNext(vetted: seq<string>, name: string)
    ensures var one := Pick(name, Members(Stage(vetted)));
            && Stage(vetted + [name]) == Stage(vetted) + [one]
            && Members(Stage(vetted) + [one]) == Members(Stage(vetted)) + {one}
  {
    assert (vetted + [name])[..|vetted|] == vetted;
  }

  /** What one more acceptable file of an offer adds. */
  lemma InspectNext(files: seq<Meta>, i: nat, vetted: seq<string>)
    requires i < |files| && Vet(files[..i]) == Some(vetted) && Acceptable(files[i])
    ensures Vet(files[..i + 1]) == Some(vetted + [SanitizeName(files[i].name).value])
  {
    var names := vetted + [SanitizeName(files[i].name).value];
    assert NamedSo(files[i], names[i]);
    forall k | 0 <= k < i ensures NamedSo(files[k], names[k]) {
      NamesOfVetted(files[..i], k);
    }
    VettedAs(files[..i + 1], names);
  }

  lemma TotalNext(files: seq<Meta>, i: nat)
    requires i < |files|
    ensures TotalOf(files[..i + 1]) == Add64(TotalOf(files[..i]), files[i].size)
  {
    assert files[..i + 1][..i] == files[..i];
  }
}
