/**
 What the receiver makes of one chunk and of one offer: exactly when each is
 taken, and that the reason it records for a failure is a true one.
 */
module Rulings {
  import opened Common
  import opened Names
  import opened Paths
  import opened Transfers
  import opened Inboxes

  /** The next bytes of the current file, within its declared size, and the calls up to the write succeed. */
  predicate Written(t: Inbound, c: Chunk, io: Io) {
    && !c.fin && c.idx == t.curIdx < |t.files| && c.off == t.curDone && |c.data| <= 256 * 1024
    && t.curDone + |c.data| <= t.files[t.curIdx].size
    && (t.handle.None? ==> io.mkdir && io.create) && io.write.None?
  }

  /** If they complete the file, it can be closed. */
  predicate Stored(t: Inbound, c: Chunk, io: Io) {
    Written(t, c, io) && (t.curDone + |c.data| == t.files[t.curIdx].size ==> io.close)
  }

  /** The terminating chunk after the last file, and the clipboard takes the files. */
  predicate Finishes(t: Inbound, c: Chunk, io: Io) {
    c.fin && c.idx == t.curIdx == |t.files| && |c.data| <= 256 * 1024 && io.writer && io.clip
  }

  /** What each reason claims. */
  predicate True(why: Reason, t: Inbound, c: Chunk, io: Io) {
    match why
    case ChunkTooLarge => |c.data| > 256 * 1024
    case IndexOutOfRange => c.idx < t.curIdx || c.idx > |t.files|
    case EarlyFin => c.fin && t.curIdx < |t.files|
    case NoClipboard => c.fin && !io.writer
    case ClipboardFailed => c.fin && io.writer && !io.clip
    case PastEnd => !c.fin && c.idx == |t.files|
    case WrongFile => !c.fin && t.curIdx < c.idx < |t.files|
    case WrongOffset => !c.fin && c.idx == t.curIdx && c.off != t.curDone
    case ExceedsSize => !c.fin && c.idx == t.curIdx < |t.files| && t.curDone + |c.data| > t.files[t.curIdx].size
    case MkdirFailed => t.handle.None? && !io.mkdir
    case CreateFailed => t.handle.None? && io.mkdir && !io.create
    case WriteFailed => io.write.Some?
    case CloseFailed => Written(t, c, io) && t.curDone + |c.data| == t.files[t.curIdx].size && !io.close
    case Remote(_) => false
  }

  /** Three ways on: still receiving, done, or failed for a reason that is true. */
  ghost predicate Ruled(t: Inbound, o: Inbound, c: Chunk, io: Io) {
    && (o.state.Receiving? <==> Stored(t, c, io)) && (o.state.Done? <==> Finishes(t, c, io))
    && (if Stored(t, c, io) || Finishes(t, c, io) then o.err == t.err
        else o.state.Failed? && o.err.Some? && True(o.err.value, t, c, io))
    && o.accepted == if Written(t, c, io) then t.accepted + [c] else t.accepted
  }

  lemma FinishRuled(t: Inbound, disk: Disk, c: Chunk, io: Io)
    requires Sane(t) && t.state.Receiving? && c.fin && t.curIdx <= c.idx <= |t.files| && |c.data| <= CHUNK_SIZE
    ensures Ruled(t, Finish(t, disk, c, io).t, c, io)
  {
  }

  /** u is t, perhaps with its file just opened. */
  lemma WriteRuled(t: Inbound, u: Inbound, disk: Disk, p: Path, c: Chunk, io: Io)
    requires Sane(t) && t.state.Receiving? && !c.fin && c.idx == t.curIdx < |t.files| && c.off == t.curDone
    requires |c.data| <= CHUNK_SIZE && t.curDone + |c.data| <= t.files[t.curIdx].size
    requires t.handle.None? ==> io.mkdir && io.create
    requires u == t || u == t.(handle := Some(p))
    ensures Ruled(t, WriteData(u, disk, p, c, io).t, c, io)
  {
    NoOverflow(t, |c.data|);
  }

  lemma StoreRuled(t: Inbound, disk: Disk, c: Chunk, io: Io)
    requires Sane(t) && t.state.Receiving? && !c.fin && c.idx == t.curIdx < |t.files| && c.off == t.curDone
    requires |c.data| <= CHUNK_SIZE && t.curDone + |c.data| <= t.files[t.curIdx].size
    ensures Ruled(t, Store(t, disk, c, io).t, c, io)
  {
    match t.handle
    case Some(p) => WriteRuled(t, t, disk, p, c, io);
    case None =>
      var p := Path(t.dir, t.names[t.curIdx]);
      if io.mkdir && io.create { WriteRuled(t, t.(handle := Some(p)), disk[p := []], p, c, io); }
  }

  lemma RefusedRuled(t: Inbound, disk: Disk, c: Chunk, io: Io)
    requires Sane(t) && t.state.Receiving? && !c.fin && t.curIdx <= c.idx <= |t.files| && |c.data| <= CHUNK_SIZE
    ensures match Refusal(t, c)
            case Some(why) => Ruled(t, Fail(t, disk, why).t, c, io)
            case None => c.idx == t.curIdx < |t.files| && c.off == t.curDone &&
                         t.curDone + |c.data| <= t.files[t.curIdx].size
  {
    if t.curIdx < |t.files| { NoOverflow(t, |c.data|); }
  }

  /**
   One chunk for a receiving transfer, any chunk and any outcome of the calls: it
   is stored, or it finishes the transfer, exactly under these conditions;
   otherwise the transfer fails, and the reason it records is a true one.
   */
  lemma ChunkIsRuled(t: Inbound, disk: Disk, c: Chunk, io: Io)
    requires Sane(t) && t.state.Receiving?
    ensures Ruled(t, Process(t, disk, c, io).t, c, io)
  {
    if |c.data| > CHUNK_SIZE || c.idx < t.curIdx || c.idx > |t.files| {
    } else if c.fin {
      FinishRuled(t, disk, c, io);
    } else {
      RefusedRuled(t, disk, c, io);
      if Refusal(t, c).None? { StoreRuled(t, disk, c, io); }
    }
  }

  /** An offer from another node with one to sixty-four files, each with a safe name and a size. */
  ghost predicate WellFormed(man: Manifest) {
    1 <= |man.files| <= 64 && forall f :: f in man.files ==> Safe(TrimSpace(f.name)) && f.size >= 0
  }

  /** An offer meant for this node at all. */
  predicate Meant(m: Inbox, man: Manifest) { man.tid != "" && man.from != "" && man.from != m.self }

  /** The transfer an offer brings: nothing received, and started at once when its total is within the limit. */
  ghost predicate Opens(m: Inbox, man: Manifest, t: Inbound) {
    && t.tid == man.tid && t.from == man.from && t.files == man.files && t.dir == Join(m.staging, man.tid)
    && |t.names| == |man.files| && t.accepted == [] && t.done == 0 && t.handle.None? && t.err.None?
    && (if t.auto then t.state.Receiving? else t.state.Pending?)
    && (SumSizes(man.files) < TWO63 ==> t.total == SumSizes(man.files) && (t.auto <==> t.total <= m.autoMax))
  }

  lemma VetIff(files: seq<Meta>)
    ensures Vet(files).Some? <==> forall f :: f in files ==> Safe(TrimSpace(f.name)) && f.size >= 0
  {
    forall f | f in files ensures Acceptable(f) <==> Safe(TrimSpace(f.name)) && f.size >= 0 {
      SanitizeAcceptsSafe(f.name);
    }
    if Vet(files).Some? {
      forall f | f in files ensures Acceptable(f) {
        var i :| 0 <= i < |files| && files[i] == f;
      }
    } else {
      var i :| 0 <= i < |files| && !Acceptable(files[i]);
      assert files[i] in files;
    }
  }

  lemma TakenOpens(m: Inbox, man: Manifest)
    requires Judge(m, man).Taken?
    ensures Opens(m, man, NewInbound(man, Join(m.staging, man.tid), Stage(Vet(man.files).value), Judge(m, man).auto))
  {
    TakenWhen(m, man);
    NewOpens(m, man, Vet(man.files).value, Judge(m, man).auto);
  }

  lemma NewOpens(m: Inbox, man: Manifest, vetted: seq<string>, auto: bool)
    requires Vet(man.files) == Some(vetted) && (auto <==> TotalOf(man.files) <= m.autoMax)
    ensures Opens(m, man, NewInbound(man, Join(m.staging, man.tid), Stage(vetted), auto))
  {
    TotalExact(man.files);
    StageDistinct(vetted);
  }

  /** The three ways an offer can be judged. */
  lemma JudgedIff(m: Inbox, man: Manifest)
    ensures var v := Judge(m, man);
            && (v.Taken? <==> Meant(m, man) && WellFormed(man) && man.tid !in m.live)
            && (v.BadCount? || v.UnsafeName? <==> Meant(m, man) && !WellFormed(man))
  {
    VetIff(man.files);
  }

  lemma TakenJoins(m: Inbox, man: Manifest, up: bool)
    requires Judge(m, man).Taken?
    ensures var m' := HandleOffer(m, man, up);
            && |m'.arena| == |m.arena| + 1 && m.arena <= m'.arena && m'.live == m.live[man.tid := |m.arena|]
            && Opens(m, man, m'.arena[|m.arena|]) && m'.queue == m.queue && m'.disk == m.disk
            && m'.arena[|m.arena|].auto == Judge(m, man).auto
  {
    TakenOpens(m, man);
  }

  /**
   An offer is taken exactly when it is meant for this node, well formed and its
   id is free; then one transfer joins. Otherwise nothing changes. Its sender
   gets an error for a malformed offer, and when a small one cannot be accepted.
   */
  lemma OfferTakenIff(m: Inbox, man: Manifest, up: bool)
    requires Typed(m)
    ensures var m' := HandleOffer(m, man, up); var taken := Meant(m, man) && WellFormed(man) && man.tid !in m.live;
            && (if taken then
                  && |m'.arena| == |m.arena| + 1 && m.arena <= m'.arena && m'.live == m.live[man.tid := |m.arena|]
                  && Opens(m, man, m'.arena[|m.arena|]) && m'.queue == m.queue && m'.disk == m.disk
                else m' == m)
            && (OfferFails(m, man, up) <==>
                Meant(m, man) && (!WellFormed(man) || (taken && m'.arena[|m.arena|].auto && !(m.attached && up))))
  {
    JudgedIff(m, man);
    if Judge(m, man).Taken? { TakenJoins(m, man, up); }
  }
}
