/**
 Runs of a manager in which two transfers, or a transfer and the rest of the
 file system, get into each other's way: what the conditions on directories
 are there for.
 */
module Aliases {
  import opened Common
  import opened Names
  import opened Paths
  import opened Transfers
  import opened Inboxes
  import opened Staging
  import opened Directories

  /**
   An offer that starts at once in the directory of transfer r, under the name
   of a file r has completed, overwrites that file with its first chunk.
   */
  lemma EntrantOverwrites(m: Inbox, r: nat, k: nat, man: Manifest, u: Inbound, d: Chunk)
    requires Inv(m) && Fits(Offer(man, true)) && m.queue == [] && FirstChunk(man, d)
    requires Draft(m, man) == Some(u) && u.auto && Staged(m, r, k)
    requires u.dir == m.arena[r].dir && u.names != [] && u.names[0] == m.arena[r].names[k]
    ensures var m' := Run(m, Restart(man, m.self, d)); var p := StagedPath(m, r, k);
            && Inv(m') && m.arena <= m'.arena && p in m'.disk && m'.disk[p] == d.data
            && (IsLive(m, r) ==> IsLive(m', r))
  {
    ReofferOverwrites(m, man, u, d);
    DraftIsNew(m, man);
  }

  lemma DetachThen(m: Inbox, steps: seq<Action>)
    requires Typed(m)
    ensures Typed(HandleDetach(m)) && Run(m, [Detach] + steps) == Run(HandleDetach(m), steps)
  {
    TypedKept(m, Detach);
    assert ([Detach] + steps)[1..] == steps;
  }

  /** An offer of one file f of n bytes. */
  function OneFile(tid: TID, n: i64): Manifest { Manifest(tid, "a", [Meta("f", n)]) }

  function OneByte(b: byte): Chunk { Chunk(0, 0, [b], false) }

  lemma OneFileVetted(tid: TID, n: i64)
    requires n >= 0
    ensures Vet(OneFile(tid, n).files) == Some(["f"])
  {
    SafeIsAccepted("f");
    assert Acceptable(Meta("f", n));
    assert Vet(OneFile(tid, n).files).value == ["f"];
  }

  lemma OneFileTotals(tid: TID, n: i64)
    ensures TotalOf(OneFile(tid, n).files) == SumSizes(OneFile(tid, n).files) == n
  {
    assert OneFile(tid, n).files[..0] == [];
  }

  lemma StageOneName()
    ensures Stage(["f"]) == ["f"]
  {
    assert ["f"][..0] == [];
  }

  /** A manager that takes such offers without asking, and is not busy. */
  ghost predicate Waits(m: Inbox) { Inv(m) && m.self == "b" && m.queue == [] && m.autoMax >= 2 }

  lemma OneFileStarts(m: Inbox, tid: TID, n: i64)
    requires Waits(m) && tid != "" && tid !in m.live && 1 <= n <= 2
    ensures Fits(Offer(OneFile(tid, n), true))
    ensures var d := Draft(m, OneFile(tid, n));
            d.Some? && d.value.auto && d.value.dir == Join(m.staging, tid) && d.value.names == ["f"]
  {
    OneFileVetted(tid, n);
    OneFileTotals(tid, n);
    OneFileTaken(m, tid, n);
    StageOneName();
  }

  lemma OneFileTaken(m: Inbox, tid: TID, n: i64)
    requires Waits(m) && tid != "" && tid !in m.live && 1 <= n <= 2
    ensures Judge(m, OneFile(tid, n)) == Taken(true)
  {
    OneFileVetted(tid, n);
    OneFileTotals(tid, n);
  }

  /** The manager after such an offer and one byte of its file. */
  ghost function Began(m: Inbox, tid: TID, n: i64, b: byte): (m': Inbox)
    requires Typed(m)
    ensures Typed(m')
  {
    Run(m, Restart(OneFile(tid, n), m.self, OneByte(b)))
  }

  /** m' is m with the new transfer, which has finished its file or has it open. */
  predicate Begun(m: Inbox, m': Inbox, tid: TID, n: i64, b: byte) {
    var p, r := Path(Join(m.staging, tid), "f"), |m.arena|;
    && m.arena <= m'.arena && |m'.arena| == r + 1 && m'.live == m.live[tid := r]
    && m'.staging == m.staging && m'.disk == m.disk[p := [b]]
    && m'.arena[r].tid == tid && m'.arena[r].dir == p.dir && m'.arena[r].names == ["f"]
    && if n == 1 then m'.arena[r].curIdx == 1 else m'.arena[r].handle == Some(p)
  }

  lemma BeginsOne(m: Inbox, tid: TID, n: i64, b: byte)
    requires Waits(m) && tid != "" && tid !in m.live && 1 <= n <= 2
    ensures Waits(Began(m, tid, n, b)) && Begun(m, Began(m, tid, n, b), tid, n, b)
  {
    OneFileStarts(m, tid, n);
    var t := Draft(m, OneFile(tid, n)).value;
    ReofferOverwrites(m, OneFile(tid, n), t, OneByte(b));
  }

  /** Two ids that are free, and name one directory. */
  predicate Aliased(m: Inbox, tid: TID, other: TID) {
    && tid != "" && other != "" && tid != other && tid !in m.live && other !in m.live
    && Join(m.staging, tid) == Join(m.staging, other)
  }

  /** A second id of a registered transfer's directory overwrites its finished file, with no Detach in between. */
  lemma LostToAlias(m: Inbox, tid: TID, other: TID)
    requires Waits(m) && Aliased(m, tid, other)
    ensures var m1 := Began(m, tid, 1, 1); var m2 := Began(m1, other, 1, 2); var p := Path(Join(m.staging, tid), "f");
            && Staged(m1, |m.arena|, 0) && StagedPath(m1, |m.arena|, 0) == p && At(m1.disk, p) == Some([1])
            && tid in m2.live && m2.live[tid] == |m.arena| && At(m2.disk, p) == Some([2])
  {
    BeginsOne(m, tid, 1, 1);
    BeginsOne(Began(m, tid, 1, 1), other, 1, 2);
  }

  /** The transfer registered under this id has p open. */
  predicate HasOpen(m: Inbox, tid: TID, p: Path) {
    tid in m.live && m.live[tid] < |m.arena| && m.arena[m.live[tid]].handle == Some(p)
  }

  /** And if the first file is not finished, both transfers have it open at once. */
  lemma SharedHandle(m: Inbox, tid: TID, other: TID)
    requires Waits(m) && Aliased(m, tid, other)
    ensures var m2 := Began(Began(m, tid, 2, 1), other, 2, 2); var p := Path(Join(m.staging, tid), "f");
            HasOpen(m2, tid, p) && HasOpen(m2, other, p)
  {
    BeginsOne(m, tid, 2, 1);
    var m1 := Began(m, tid, 2, 1);
    BeginsOne(m1, other, 2, 2);
    BothOpen(m, m1, Began(m1, other, 2, 2), tid, other);
  }

  lemma BothOpen(m: Inbox, m1: Inbox, m2: Inbox, tid: TID, other: TID)
    requires Aliased(m, tid, other) && Begun(m, m1, tid, 2, 1) && Begun(m1, m2, other, 2, 2)
    ensures var p := Path(Join(m.staging, tid), "f"); HasOpen(m2, tid, p) && HasOpen(m2, other, p)
  {
    assert m2.arena[|m.arena|] == m1.arena[|m.arena|];
  }

  /** The manager detached, and offered the same file again with another byte. */
  ghost function Again(m: Inbox, tid: TID, b: byte): Inbox
    requires Typed(m)
  {
    Run(m, [Detach] + Restart(OneFile(tid, 1), m.self, OneByte(b)))
  }

  /** After Detach the same id does it. */
  lemma LostAfterDetach(m: Inbox, tid: TID)
    requires Waits(m) && tid != "" && tid !in m.live
    ensures var m1 := Began(m, tid, 1, 1); var p := Path(Join(m.staging, tid), "f");
            && Staged(m1, |m.arena|, 0) && StagedPath(m1, |m.arena|, 0) == p && At(m1.disk, p) == Some([1])
            && At(Again(m1, tid, 2).disk, p) == Some([2])
  {
    BeginsOne(m, tid, 1, 1);
    var m1 := Began(m, tid, 1, 1);
    DetachKeeps(m1);
    DetachThen(m1, Restart(OneFile(tid, 1), m.self, OneByte(2)));
    BeginsOne(HandleDetach(m1), tid, 1, 2);
  }

  /** Where the file of a taken offer is written: below the staging directory exactly when the id stays below. */
  lemma WrittenBelowIff(m: Inbox, tid: TID)
    requires Waits(m) && tid != "" && tid !in m.live
    ensures var p := Path(Join(m.staging, tid), "f");
            && At(Began(m, tid, 1, 1).disk, p) == Some([1])
            && (m.staging < Place(p) <==> StaysBelow(m.staging, tid))
  {
    BeginsOne(m, tid, 1, 1);
    BelowIff(m.staging, tid, "f");
  }

  lemma NewWaits(staging: Dir, disk: Disk)
    ensures Waits(Empty("b", staging, 0, disk)) && Empty("b", staging, 0, disk).live == map[]
  {
  }

  /** The ids t and ./t do all this to a new manager. */
  lemma DotSlashAliases(staging: Dir, disk: Disk)
    ensures var m := Empty("b", staging, 0, disk); var p := Path(staging + ["t"], "f");
            && At(Began(m, "t", 1, 1).disk, p) == Some([1])
            && At(Began(Began(m, "t", 1, 1), "./t", 1, 2).disk, p) == Some([2])
            && var m2 := Began(Began(m, "t", 2, 1), "./t", 2, 2); HasOpen(m2, "t", p) && HasOpen(m2, "./t", p)
  {
    var m := Empty("b", staging, 0, disk);
    NewWaits(staging, disk);
    DotSlash(staging);
    assert Aliased(m, "t", "./t");
    LostToAlias(m, "t", "./t");
    SharedHandle(m, "t", "./t");
  }

  /** The id .. makes it write into the directory above. */
  lemma DoubleDotEscapes(staging: Dir, disk: Disk)
    requires staging != []
    ensures var p := Path(staging[..|staging| - 1], "f");
            && At(Began(Empty("b", staging, 0, disk), "..", 1, 1).disk, p) == Some([1])
            && !(staging < Place(p))
  {
    NewWaits(staging, disk);
    DoubleDot(staging);
    WrittenBelowIff(Empty("b", staging, 0, disk), "..");
  }
}
