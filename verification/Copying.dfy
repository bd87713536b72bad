/**
 One user's copy on a quiet star of clipboards (platform/clipboard/clipboard.go,
 core/session/server.go): exactly when it reaches everyone, and what left-over
 markers and empty texts do instead.
 */
module Copying {
  import opened Common
  import opened Clipboards

  /** A run of polls and deliveries in which nothing fails. */
  ghost predicate AllSmooth(n: Net, steps: seq<Step>)
    requires n.Shaped()
    decreases |steps|
  {
    steps == [] || (
      ShapeKept(n, steps[0]);
      !steps[0].Copy? && Smooth(n, steps[0]) && AllSmooth(Apply(n, steps[0]), steps[1..]))
  }

  /** A poll with nothing to see and a turn of an empty connection change nothing. */
  lemma IdleStep(n: Net, s: Step)
    requires n.Shaped() && !s.Copy? && !Effective(n, s)
    ensures Apply(n, s) == n
  {
    if s.Tick? && s.i < |n.nodes| { assert n.nodes[s.i := n.nodes[s.i]] == n.nodes; }
  }

  predicate Idle(c: Clip) { c.seqno == c.last }

  /** c has d from another node, polled or not. */
  predicate Got(c: Clip, d: Text) { c.content == d && !c.Fresh() && (!Idle(c) ==> c.marker == d) }

  /** The user's copy has not been polled yet, and no marker swallows it. */
  ghost predicate Waiting(n: Net, i: nat, d: Text)
    requires n.Shaped() && i < |n.nodes|
  {
    && n.nodes[i].content == d && n.nodes[i].Fresh() && n.nodes[i].marker != d
    && (forall j :: 0 <= j < |n.nodes| ==> n.up[j] == [] && n.down[j] == [] && (j != i ==> Idle(n.nodes[j])))
  }

  /** It is on its way from client i to the server. */
  ghost predicate Climbing(n: Net, i: nat, d: Text)
    requires n.Shaped() && i < |n.nodes|
  {
    && n.nodes[i].content == d && n.up[i] == [d]
    && (forall j :: 0 <= j < |n.nodes| ==> n.down[j] == [] && Idle(n.nodes[j]) && (j != i ==> n.up[j] == []))
  }

  /** Every other node has it, or its connection carries it. */
  ghost predicate Spreading(n: Net, i: nat, d: Text)
    requires n.Shaped() && i < |n.nodes|
  {
    && n.nodes[i].content == d && Idle(n.nodes[i]) && n.down[i] == []
    && (forall j :: 0 <= j < |n.nodes| ==> n.up[j] == [])
    && (forall j :: 0 <= j < |n.nodes| && j != i ==>
                      if n.down[j] == [] then Got(n.nodes[j], d) else n.down[j] == [d] && Idle(n.nodes[j]))
  }

  /** n is on the way from n0, where node i copied d. */
  ghost predicate OneCopy(n0: Net, n: Net, i: nat, d: Text) {
    && Settled(n0, n, true) && i < |n.nodes|
    && if Waiting(n, i, d) then n.forwards == n0.forwards
       else n.forwards == n0.forwards + [(i, d)] && (Climbing(n, i, d) || Spreading(n, i, d))
  }

  lemma WaitingTick(n0: Net, n: Net, i: nat, d: Text, reach: set<nat>)
    requires OneCopy(n0, n, i, d) && Waiting(n, i, d) && d != "" && Everyone(n, reach)
    ensures OneCopy(n0, Apply(n, Tick(i, true, reach)), i, d)
  {
    TickSettles(n, i, true, reach);
  }

  lemma ClimbingUp(n0: Net, n: Net, i: nat, d: Text, reach: set<nat>)
    requires OneCopy(n0, n, i, d) && Climbing(n, i, d) && d != "" && Everyone(n, reach)
    ensures OneCopy(n0, Apply(n, Up(i, true, reach)), i, d)
  {
    UpSettles(n, i, true, reach);
  }

  lemma SpreadingDown(n0: Net, n: Net, i: nat, d: Text, j: nat)
    requires OneCopy(n0, n, i, d) && Spreading(n, i, d) && d != "" && j < |n.nodes| && n.down[j] != []
    ensures OneCopy(n0, Apply(n, Down(j, true)), i, d)
  {
    DownSettles(n, j, true);
  }

  lemma SpreadingTick(n0: Net, n: Net, i: nat, d: Text, j: nat, reach: set<nat>)
    requires OneCopy(n0, n, i, d) && Spreading(n, i, d) && d != "" && j < |n.nodes|
    ensures OneCopy(n0, Apply(n, Tick(j, true, reach)), i, d)
  {
  }

  lemma OneCopyKept(n0: Net, n: Net, i: nat, d: Text, s: Step)
    requires OneCopy(n0, n, i, d) && d != "" && !s.Copy? && Smooth(n, s)
    ensures OneCopy(n0, Apply(n, s), i, d)
  {
    if !Effective(n, s) {
      IdleStep(n, s);
    } else if Waiting(n, i, d) {
      WaitingTick(n0, n, i, d, s.reach);
    } else if Climbing(n, i, d) {
      ClimbingUp(n0, n, i, d, s.reach);
    } else if s.Down? {
      SpreadingDown(n0, n, i, d, s.i);
    } else {
      SpreadingTick(n0, n, i, d, s.i, s.reach);
    }
  }

  lemma {:induction false} OneCopyRun(n0: Net, n: Net, i: nat, d: Text, steps: seq<Step>)
    requires OneCopy(n0, n, i, d) && d != "" && AllSmooth(n, steps)
    ensures OneCopy(n0, ApplyAll(n, steps), i, d)
    decreases |steps|
  {
    if steps != [] {
      OneCopyKept(n0, n, i, d, steps[0]);
      OneCopyRun(n0, Apply(n, steps[0]), i, d, steps[1..]);
    }
  }

  lemma OneCopyDone(n0: Net, n: Net, i: nat, d: Text)
    requires OneCopy(n0, n, i, d) && Quiet(n)
    ensures n.forwards == n0.forwards + [(i, d)] && forall j :: 0 <= j < |n.nodes| ==> n.nodes[j].content == d
  {
    assert !Climbing(n, i, d);
    assert Spreading(n, i, d);
  }

  /** Between two quiet networks each forward was delivered to every other node. */
  lemma DeliveredAll(n: Net, r: Net)
    requires Quiet(n) && Quiet(r) && Settled(n, r, true)
    ensures r.delivered + Due(n) == n.delivered + Due(r)
  {
    QuietTotals(n);
    QuietTotals(r);
  }

  ghost predicate Clean(n: Net) { forall i :: 0 <= i < |n.nodes| ==> n.nodes[i].marker == "" }

  /** The only markers are those of unseen deliveries of d. */
  ghost predicate Tidy(n: Net, d: Text) {
    forall j :: 0 <= j < |n.nodes| ==>
                  var c := n.nodes[j]; c.marker == "" || (c.marker == d == c.content && !Idle(c) && !c.byUser)
  }

  lemma TidyKept(n0: Net, n: Net, i: nat, d: Text, s: Step)
    requires OneCopy(n0, n, i, d) && Tidy(n, d) && d != "" && Effective(n, s) && Smooth(n, s)
    ensures Tidy(Apply(n, s), d)
  {
  }

  lemma {:induction false} TidyRun(n0: Net, n: Net, i: nat, d: Text, steps: seq<Step>)
    requires OneCopy(n0, n, i, d) && Tidy(n, d) && d != "" && AllSmooth(n, steps)
    ensures Tidy(ApplyAll(n, steps), d)
    decreases |steps|
  {
    if steps != [] {
      if Effective(n, steps[0]) { TidyKept(n0, n, i, d, steps[0]); } else { IdleStep(n, steps[0]); }
      OneCopyKept(n0, n, i, d, steps[0]);
      TidyRun(n0, Apply(n, steps[0]), i, d, steps[1..]);
    }
  }

  /** From n to r, i's copy of d was forwarded once and delivered once to each other node, and everyone holds it. */
  ghost predicate ReachedAll(n: Net, r: Net, i: nat, d: Text) {
    && r.forwards == n.forwards + [(i, d)] && r.delivered == n.delivered + |n.nodes| - 1
    && forall j :: 0 <= j < |r.nodes| ==> r.nodes[j].content == d
  }

  /** From n to r, nothing was forwarded or delivered, and no other node changed. */
  ghost predicate StayedHome(n: Net, r: Net, i: nat) {
    && r.forwards == n.forwards && r.delivered == n.delivered && |r.nodes| == |n.nodes|
    && forall j :: 0 <= j < |n.nodes| && j != i ==> r.nodes[j] == n.nodes[j]
  }

  lemma CopyWaits(n: Net, i: nat, d: Text)
    requires Quiet(n) && i < |n.nodes| && n.nodes[i].marker != d
    ensures var n1 := Apply(n, Copy(i, d)); OneCopy(n, n1, i, d) && (Clean(n) ==> Tidy(n1, d))
  {
    assert Waiting(Apply(n, Copy(i, d)), i, d);
  }

  lemma CopyEnds(n: Net, r: Net, i: nat, d: Text)
    requires Quiet(n) && OneCopy(n, r, i, d) && Quiet(r)
    ensures ReachedAll(n, r, i, d)
  {
    OneCopyDone(n, r, i, d);
    DeliveredAll(n, r);
    TimesStep(|n.forwards|, |n.nodes| - 1);
  }

  lemma CopySpreads(n: Net, i: nat, d: Text, steps: seq<Step>)
    requires Quiet(n) && i < |n.nodes| && d != "" && n.nodes[i].marker != d
    requires AllSmooth(Apply(n, Copy(i, d)), steps) && Quiet(ApplyAll(Apply(n, Copy(i, d)), steps))
    ensures var r := ApplyAll(Apply(n, Copy(i, d)), steps); ReachedAll(n, r, i, d) && (Clean(n) ==> Clean(r))
  {
    var n1 := Apply(n, Copy(i, d));
    CopyWaits(n, i, d);
    OneCopyRun(n, n1, i, d, steps);
    CopyEnds(n, ApplyAll(n1, steps), i, d);
    if Clean(n) { TidyRun(n, n1, i, d, steps); }
  }

  lemma {:induction false} QuietStays(n: Net, steps: seq<Step>)
    requires Quiet(n) && AllSmooth(n, steps)
    ensures ApplyAll(n, steps) == n
    decreases |steps|
  {
    if steps != [] {
      IdleStep(n, steps[0]);
      QuietStays(n, steps[1..]);
    }
  }

  lemma {:induction false} CopySwallowed(n: Net, i: nat, d: Text, steps: seq<Step>)
    requires Quiet(n) && i < |n.nodes| && d != "" && n.nodes[i].marker == d
    requires AllSmooth(Apply(n, Copy(i, d)), steps)
    ensures StayedHome(n, ApplyAll(Apply(n, Copy(i, d)), steps), i)
    decreases |steps|
  {
    var n1 := Apply(n, Copy(i, d));
    if steps != [] {
      var n2 := Apply(n1, steps[0]);
      if Effective(n1, steps[0]) {
        assert steps[0].Tick? && steps[0].i == i;
        assert Quiet(n2) && StayedHome(n, n2, i);
        QuietStays(n2, steps[1..]);
      } else {
        IdleStep(n1, steps[0]);
        CopySwallowed(n, i, d, steps[1..]);
      }
    }
  }

  /**
   One isolated copy of a text on a quiet network, in any order of polls and
   deliveries with nothing failing, until it is quiet again: it reaches every
   other node exactly once and every clipboard holds it if and only if the
   copying node has no marker left over from an earlier delivery of that text.
   Otherwise it stays where it is. Without any markers none is left.
   */
  lemma IsolatedCopyReachesAllIff(n: Net, i: nat, d: Text, steps: seq<Step>)
    requires Quiet(n) && i < |n.nodes| && d != ""
    requires AllSmooth(Apply(n, Copy(i, d)), steps) && Quiet(ApplyAll(Apply(n, Copy(i, d)), steps))
    ensures var r := ApplyAll(Apply(n, Copy(i, d)), steps);
            && (ReachedAll(n, r, i, d) <==> n.nodes[i].marker != d)
            && (StayedHome(n, r, i) <==> n.nodes[i].marker == d)
            && (Clean(n) ==> Clean(r))
  {
    var r := ApplyAll(Apply(n, Copy(i, d)), steps);
    if n.nodes[i].marker != d { CopySpreads(n, i, d, steps); } else { CopySwallowed(n, i, d, steps); }
    assert |n.forwards + [(i, d)]| != |n.forwards|;
  }

  /** The next tick forwards a user's copy exactly when it is empty or differs from a marker left over. */
  lemma CopyForwardedIff(c: Clip, d: Text)
    requires c.seqno == c.last
    ensures c.Copy(d).Forwards(true) == Some(d) <==> d == "" || d != c.marker
  {
  }

  /** A marker can be left over: a write by the server that the user overwrites before it is polled. */
  lemma StaleMarkerSwallowsCopy(n: Net)
    requires Begins(n) && Clean(n) && |n.nodes| == 2
    ensures var n1 := Apply(Apply(Apply(n, Copy(0, "a")), Tick(0, true, {0, 1})), Down(1, true));
            var n2 := Apply(Apply(n1, Copy(1, "b")), Tick(1, true, {0, 1}));
            var n3 := Apply(Apply(n2, Copy(1, "a")), Tick(1, true, {0, 1}));
            && n2.nodes[1].marker == "a" && (1, "b") in n2.forwards
            && (1, "a") in n3.copies && (1, "a") !in n3.forwards && n3.nodes[1].seqno == n3.nodes[1].last
  {
  }

  predicate AllEmpty(q: seq<Text>) { forall k :: 0 <= k < |q| ==> q[k] == "" }

  /** Only the empty text is under way or unseen. */
  ghost predicate OnlyEmpty(n: Net) {
    && n.Shaped()
    && (forall j :: 0 <= j < |n.nodes| ==>
          && AllEmpty(n.up[j]) && AllEmpty(n.down[j])
          && n.nodes[j].last <= n.nodes[j].seqno && (!Idle(n.nodes[j]) ==> n.nodes[j].content == ""))
  }

  lemma OnlyEmptyKept(n: Net, s: Step)
    requires OnlyEmpty(n) && Effective(n, s)
    ensures OnlyEmpty(Apply(n, s))
  {
  }

  /** A node forwards it, and who receives it will. */
  lemma EmptyGoesOn(n: Net, s: Step)
    requires OnlyEmpty(n) && |n.nodes| > 1 && Effective(n, s) && Smooth(n, s)
    ensures !Quiet(Apply(n, s))
  {
    var r := Apply(n, s);
    match s
    case Tick(i, _, _) =>
      assert n.nodes[i].Forwards(true) == Some("");
      assert if i == 0 then r.down[1] != [] else r.up[i] != [];
    case Up(_, _, _) => assert !Idle(r.nodes[0]);
    case Down(i, _) => assert !Idle(r.nodes[i]);
  }

  lemma {:induction false} OnlyEmptyRun(n: Net, steps: seq<Step>)
    requires OnlyEmpty(n) && !Quiet(n) && |n.nodes| > 1 && AllSmooth(n, steps)
    ensures !Quiet(ApplyAll(n, steps))
    decreases |steps|
  {
    if steps != [] {
      if Effective(n, steps[0]) {
        OnlyEmptyKept(n, steps[0]);
        EmptyGoesOn(n, steps[0]);
      } else {
        IdleStep(n, steps[0]);
      }
      OnlyEmptyRun(Apply(n, steps[0]), steps[1..]);
    }
  }

  /** A copy of the empty text never comes to rest: with two nodes or more the network is not quiet again. */
  lemma EmptyCopyNeverQuiet(n: Net, i: nat, steps: seq<Step>)
    requires Quiet(n) && i < |n.nodes| && |n.nodes| > 1 && AllSmooth(Apply(n, Copy(i, "")), steps)
    ensures !Quiet(ApplyAll(Apply(n, Copy(i, "")), steps))
  {
    assert !Idle(Apply(n, Copy(i, "")).nodes[i]);
    OnlyEmptyRun(Apply(n, Copy(i, "")), steps);
  }

  /** Node 0 has an unseen empty text and nothing else is going on. */
  ghost predicate EmptyPending(n: Net) {
    && n.Shaped() && |n.nodes| == 2 && n.up[1] == [] && n.down[1] == []
    && n.nodes[0].content == "" && n.nodes[0].seqno != n.nodes[0].last && n.nodes[1].last <= n.nodes[1].seqno
  }

  /** Once around: both nodes forward it, and everything is as before. */
  function Round(): seq<Step> {
    [Tick(0, true, {0, 1})] + ([Down(1, true)] + ([Tick(1, true, {0, 1})] + [Up(1, true, {0, 1})]))
  }

  /** And what that makes of the network. */
  function Rounded(n: Net): Net
    requires n.Shaped()
  {
    Apply(Apply(Apply(Apply(n, Tick(0, true, {0, 1})), Down(1, true)), Tick(1, true, {0, 1})), Up(1, true, {0, 1}))
  }

  lemma EmptyEchoes(n: Net)
    requires EmptyPending(n)
    ensures var r := Rounded(n);
            EmptyPending(r) && |r.forwards| == |n.forwards| + 2 && r.copies == n.copies
  {
  }

  lemma Chain(n: Net, s: Step, rest: seq<Step>)
    requires n.Shaped()
    ensures Apply(n, s).Shaped() && ApplyAll(n, [s] + rest) == ApplyAll(Apply(n, s), rest)
  {
    ShapeKept(n, s);
    assert ([s] + rest)[1..] == rest;
  }

  lemma RoundThen(n: Net, rest: seq<Step>)
    requires n.Shaped()
    ensures var r := Rounded(n);
            r.Shaped() && ApplyAll(n, Round() + rest) == ApplyAll(r, rest)
  {
    var a, b, c, d := Tick(0, true, {0, 1}), Down(1, true), Tick(1, true, {0, 1}), Up(1, true, {0, 1});
    assert Round() + rest == [a] + ([b] + ([c] + ([d] + rest)));
    Chain(n, a, [b] + ([c] + ([d] + rest)));
    Chain(Apply(n, a), b, [c] + ([d] + rest));
    Chain(Apply(Apply(n, a), b), c, [d] + rest);
    Chain(Apply(Apply(Apply(n, a), b), c), d, rest);
  }

  /** So one copy of an empty text is forwarded any number of times. */
  lemma {:induction false} EmptyCopyStorms(n: Net, k: nat) returns (steps: seq<Step>)
    requires EmptyPending(n)
    ensures var r := ApplyAll(n, steps); |r.forwards| >= |n.forwards| + k && r.copies == n.copies
    decreases k
  {
    steps := [];
    if k > 0 {
      EmptyEchoes(n);
      RoundThen(n, []);
      var rest := EmptyCopyStorms(
        Rounded(n), k - 1);
      RoundThen(n, rest);
      steps := Round() + rest;
    }
  }
}
