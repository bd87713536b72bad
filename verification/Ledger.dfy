/**
 What the sending side's registry says of a peer, read off the messages: the
 order in which peers were first heard from, the state of each, and the
 acceptances of offers that do not stand.
 */
module Ledgers {
  import opened Outboxes

  /** Accepts for ids that were not on offer when they came. */
  ghost function Strays(acts: seq<Act>): seq<(TID, string)> {
    if acts == [] then []
    else
      var front, a := acts[..|acts| - 1], acts[|acts| - 1];
      Strays(front) + if a.Accept? && !Offered(front, a.tid) then [(a.tid, a.from)] else []
  }

  /** The act is a message from a peer about this offer. */
  predicate Speaks(a: Act, tid: TID) { (a.Accept? || a.Cancel?) && a.tid == tid }

  /** The peers heard from on a standing offer, in the order they were first heard from. */
  ghost function Arrivals(acts: seq<Act>, tid: TID): seq<string> {
    if !Offered(acts, tid) then []
    else
      var front, a := acts[..|acts| - 1], acts[|acts| - 1];
      var before := Arrivals(front, tid);
      if Offered(front, tid) && Speaks(a, tid) && a.from !in before then before + [a.from] else before
  }

  /**
   How it stands with a peer: as its first message says, then as the stream's
   end marks it; a later cancel counts only while it is being sent to.
   */
  ghost function Standing(acts: seq<Act>, tid: TID, from: string): OutState
    requires Heard(acts, tid, from)
  {
    var front, a := acts[..|acts| - 1], acts[|acts| - 1];
    if !Heard(front, tid, from) then
      if a.Accept? then Sending else if a.Cancel? && a.reason == "declined" then Declined else Canceled
    else if a.Mark? && a.tid == tid && a.peer == from then a.state
    else if a.Cancel? && a.tid == tid && a.from == from && Standing(front, tid, from) == Sending then Canceled
    else Standing(front, tid, from)
  }

  lemma Split(acts: seq<Act>) returns (front: seq<Act>, a: Act)
    requires acts != []
    ensures front == acts[..|acts| - 1] && a == acts[|acts| - 1] && acts == front + [a]
    ensures Run(acts) == Step(Run(front), a) && (Run(front).crashed ==> Run(acts).crashed)
  {
    front, a := acts[..|acts| - 1], acts[|acts| - 1];
  }

  /** The sender answers exactly the accepts of offers that do not stand, in the order they came. */
  lemma {:induction false} StraysAreAnswered(acts: seq<Act>)
    requires !Run(acts).crashed
    ensures Run(acts).unknown == Strays(acts)
  {
    if acts != [] {
      var front, a := Split(acts);
      StraysAreAnswered(front);
      if a.Accept? { RunRecords(front, a.tid, a.from); }
    }
  }

  ghost predicate Listed(o: Outbox, acts: seq<Act>, tid: TID) {
    Offered(acts, tid) ==> tid in o.out && o.out[tid].order == Arrivals(acts, tid)
  }

  lemma {:induction false} HeardIsOffered(acts: seq<Act>, tid: TID, from: string)
    requires Heard(acts, tid, from)
    ensures Offered(acts, tid)
  {
    var front := acts[..|acts| - 1];
    if Heard(front, tid, from) { HeardIsOffered(front, tid, from); }
  }

  lemma {:induction false} ArrivedIff(acts: seq<Act>, tid: TID, from: string)
    ensures from in Arrivals(acts, tid) <==> Heard(acts, tid, from)
  {
    if Heard(acts, tid, from) { HeardIsOffered(acts, tid, from); }
    if acts != [] { ArrivedIff(acts[..|acts| - 1], tid, from); }
  }

  lemma {:induction false} ArrivedOnce(acts: seq<Act>, tid: TID)
    ensures forall i, j :: 0 <= i < j < |Arrivals(acts, tid)| ==> Arrivals(acts, tid)[i] != Arrivals(acts, tid)[j]
  {
    if acts != [] { ArrivedOnce(acts[..|acts| - 1], tid); }
  }

  lemma OthersKeepOrder(o: Outbox, a: Act, tid: TID)
    requires tid in o.out && o.out.Keys <= o.made && !Step(o, a).crashed && a != Detach && !Speaks(a, tid)
    ensures tid in Step(o, a).out && Step(o, a).out[tid].order == o.out[tid].order
  {
  }

  lemma SpeakerListed(o: Outbox, a: Act, tid: TID)
    requires tid in o.out && !o.crashed && Speaks(a, tid)
    requires forall from :: from in o.out[tid].peers <==> from in o.out[tid].order
    ensures var before := o.out[tid].order;
            && tid in Step(o, a).out
            && Step(o, a).out[tid].order == if a.from in before then before else before + [a.from]
  {
  }

  lemma ListedNext(front: seq<Act>, a: Act, tid: TID)
    requires !Step(Run(front), a).crashed && Listed(Run(front), front, tid)
    ensures Listed(Step(Run(front), a), front + [a], tid)
  {
    var o, acts := Run(front), front + [a];
    assert acts[..|acts| - 1] == front;
    RunRecords(front, tid, "");
    StreamedOnce(front);
    if Offered(acts, tid) && Offered(front, tid) {
      if Speaks(a, tid) {
        forall from ensures from in o.out[tid].peers <==> from in o.out[tid].order {
          RunRecords(front, tid, from);
          ArrivedIff(front, tid, from);
        }
        SpeakerListed(o, a, tid);
      } else {
        OthersKeepOrder(o, a, tid);
      }
    }
  }

  /** A transfer lists its peers, each once, in the order they were first heard from. */
  lemma {:induction false} ListedInOrder(acts: seq<Act>, tid: TID)
    requires !Run(acts).crashed
    ensures Listed(Run(acts), acts, tid)
  {
    if acts != [] {
      var front, a := Split(acts);
      ListedInOrder(front, tid);
      ListedNext(front, a, tid);
    }
  }

  ghost predicate StandsAs(o: Outbox, tid: TID, from: string, st: OutState) {
    tid in o.out && from in o.out[tid].peers && o.out[tid].peers[from].state == st
  }

  lemma StandsNext(front: seq<Act>, a: Act, tid: TID, from: string)
    requires !Step(Run(front), a).crashed && Heard(front + [a], tid, from)
    requires Heard(front, tid, from) ==> StandsAs(Run(front), tid, from, Standing(front, tid, from))
    ensures StandsAs(Step(Run(front), a), tid, from, Standing(front + [a], tid, from))
  {
    var acts := front + [a];
    assert acts[..|acts| - 1] == front;
    RunRecords(front, tid, from);
    StreamedOnce(front);
    if !Heard(front, tid, from) { assert Speaks(a, tid) && a.from == from; }
  }

  /** The recorded state of every peer heard from is how it stands by the messages. */
  lemma {:induction false} StatesAreRight(acts: seq<Act>, tid: TID, from: string)
    requires !Run(acts).crashed && Heard(acts, tid, from)
    ensures StandsAs(Run(acts), tid, from, Standing(acts, tid, from))
  {
    var front, a := Split(acts);
    if Heard(front, tid, from) { StatesAreRight(front, tid, from); }
    StandsNext(front, a, tid, from);
  }

  /** What a peer's record is worth: who is in it, in which order and how it stands. */
  lemma RegistryIsHistory(acts: seq<Act>, tid: TID)
    requires !Run(acts).crashed && Offered(acts, tid)
    ensures tid in Run(acts).out
    ensures var t := Run(acts).out[tid];
            && t.order == Arrivals(acts, tid)
            && (forall i, j :: 0 <= i < j < |t.order| ==> t.order[i] != t.order[j])
            && (forall from :: from in t.order <==> Heard(acts, tid, from))
            && (forall from :: from in t.peers <==> Heard(acts, tid, from))
            && (forall from :: Heard(acts, tid, from) ==> t.peers[from].state == Standing(acts, tid, from))
  {
    ListedInOrder(acts, tid);
    ArrivedOnce(acts, tid);
    forall from
      ensures from in Arrivals(acts, tid) <==> Heard(acts, tid, from)
      ensures from in Run(acts).out[tid].peers <==> Heard(acts, tid, from)
      ensures Heard(acts, tid, from) ==> Run(acts).out[tid].peers[from].state == Standing(acts, tid, from)
    {
      ArrivedIff(acts, tid, from);
      RunRecords(acts, tid, from);
      if Heard(acts, tid, from) { StatesAreRight(acts, tid, from); }
    }
  }
}
