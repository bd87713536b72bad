/**
 Clipboard sharing: the echo marker of a node's clipboard watcher
 (platform/clipboard/clipboard.go), and a star of nodes whose server relays
 every change to all others (core/session/server.go).
 */
module Clipboards {
  import opened Common

  type Text = string

  /**
   The system clipboard and the watcher of one node. byUser says who wrote the
   content last; it is for the statements only.
   */
  datatype Clip = Clip(content: Text, seqno: nat, marker: Text, last: nat, byUser: bool) {

    /** The user copies something. */
    function Copy(d: Text): Clip { this.(content := d, seqno := seqno + 1, byUser := true) }

    /** Clipper.Write. */
    function Write(d: Text): Clip { this.(content := d, seqno := seqno + 1, marker := d, byUser := false) }

    predicate Own() { marker != "" && marker == content }

    /** One tick of Watch; readable says whether the clipboard held supported text. */
    function Poll(readable: bool): Clip {
      if seqno == last then this
      else if readable && Own() then this.(last := seqno, marker := "")
      else this.(last := seqno)
    }

    /** What that tick forwards. */
    function Forwards(readable: bool): Option<Text> {
      if seqno == last || !readable || Own() then None else Some(content)
    }

    /** Content the user wrote and no tick has seen. */
    predicate Fresh() { seqno != last && byUser }
  }

  class Clipper {
    var content: Text
    var seqno: nat
    var lastWritten: Text
    var last: nat
    ghost var byUser: bool

    ghost function View(): Clip
      reads this
    {
      Clip(content, seqno, lastWritten, last, byUser)
    }

    constructor (content: Text, seqno: nat)
      ensures View() == Clip(content, seqno, "", seqno, false)
    {
      this.content, this.seqno, last, lastWritten, byUser := content, seqno, seqno, "", false;
    }

    /** writable says whether the platform takes the content; if not, nothing is marked either. */
    method Write(d: Text, writable: bool) returns (ok: bool)
      modifies this
      ensures ok == writable && View() == if ok then old(View()).Write(d) else old(View())
    {
      ok := writable;
      if ok {
        content, seqno, byUser := d, seqno + 1, false;
        lastWritten := d;
      }
    }

    method Poll(readable: bool) returns (forward: Option<Text>)
      modifies this`last, this`lastWritten
      ensures View() == old(View()).Poll(readable) && forward == old(View()).Forwards(readable)
    {
      if seqno == last {
        return None;
      }
      last := seqno;
      if !readable {
        return None;
      }
      var own := |lastWritten| > 0 && lastWritten == content;
      if own {
        lastWritten := "";
        return None;
      }
      forward := Some(content);
    }
  }

  /**
   The star: node 0 is the server, up[i] and down[i] are the two directions of
   client i's connection. copies and forwards list who wrote and sent what;
   delivered counts the writes made for other nodes.
   */
  datatype Net = Net(nodes: seq<Clip>, up: seq<seq<Text>>, down: seq<seq<Text>>,
                     copies: seq<(nat, Text)>, forwards: seq<(nat, Text)>, delivered: nat) {
    predicate Shaped() { |nodes| > 0 && |up| == |nodes| && |down| == |nodes| && up[0] == [] && down[0] == [] }
  }

  /** reach holds the nodes whose connection takes what the step sends; ok says whether the local write succeeds. */
  datatype Step =
    | Copy(i: nat, d: Text)
    | Tick(i: nat, readable: bool, reach: set<nat>)
    | Up(i: nat, ok: bool, reach: set<nat>)
    | Down(i: nat, ok: bool)

  /** Sends d to every client in reach but skip. */
  function PushAll(down: seq<seq<Text>>, d: Text, skip: nat, reach: set<nat>): seq<seq<Text>> {
    seq(|down|, j requires 0 <= j < |down| => if j == 0 || j == skip || j !in reach then down[j] else down[j] + [d])
  }

  /**
   A change that cannot be read is gone: neither its own tick nor any later one
   forwards it, whoever wrote it, and a marker left for it stays.
   */
  lemma UnreadableIsLost(c: Clip, readable: bool)
    ensures c.Forwards(false).None? && c.Poll(false).Forwards(readable).None?
    ensures var d := c.Poll(false).Poll(readable); d.content == c.content && d.marker == c.marker
  {
  }

  /** The clients written to before the first failed write, in enumeration order. */
  function Reached(order: seq<nat>, skip: nat, fail: set<nat>): set<nat> {
    if order == [] then {}
    else if order[0] == skip then Reached(order[1..], skip, fail)
    else if order[0] in fail then {}
    else {order[0]} + Reached(order[1..], skip, fail)
  }

  /** Clients among n nodes, each at most once. */
  predicate Lists(order: seq<nat>, n: nat) {
    && (forall k :: 0 <= k < |order| ==> 0 < order[k] < n)
    && (forall j, k :: 0 <= j < k < |order| ==> order[j] != order[k])
  }

  /** All of them. */
  predicate Enumerates(order: seq<nat>, n: nat) { Lists(order, n) && forall j :: 0 < j < n ==> j in order }

  lemma {:induction false} ReachedWhenNoneFails(order: seq<nat>, skip: nat, fail: set<nat>)
    requires forall j :: j in order && j != skip ==> j !in fail
    ensures forall j :: j in order && j != skip ==> j in Reached(order, skip, fail)
  {
    if order != [] {
      assert order == [order[0]] + order[1..];
      ReachedWhenNoneFails(order[1..], skip, fail);
    }
  }

  lemma {:induction false} ReachedIn(order: seq<nat>, skip: nat, fail: set<nat>)
    ensures forall j :: j in Reached(order, skip, fail) ==> j in order
  {
    if order != [] { ReachedIn(order[1..], skip, fail); }
  }

  /** A client other than the skipped one is reached exactly when no write before or to it fails. */
  lemma {:induction false} ReachedIff(order: seq<nat>, skip: nat, fail: set<nat>, k: nat)
    requires k < |order| && order[k] != skip
    requires forall i, j :: 0 <= i < j < |order| ==> order[i] != order[j]
    ensures order[k] in Reached(order, skip, fail) <==>
            forall i :: 0 <= i <= k && order[i] != skip ==> order[i] !in fail
  {
    var rest := order[1..];
    ReachedIn(rest, skip, fail);
    if k > 0 {
      ReachedIff(rest, skip, fail, k - 1);
      assert forall i :: 0 <= i < k ==> rest[i] == order[i + 1];
      assert (forall i :: 0 <= i <= k && order[i] != skip ==> order[i] !in fail) <==>
             (order[0] != skip ==> order[0] !in fail) &&
             forall i :: 0 <= i <= k - 1 && rest[i] != skip ==> rest[i] !in fail;
    }
  }

  /** The server's side: its own clipboard and the connections to its clients. */
  class Hub {
    const clip: Clipper
    var down: seq<seq<Text>>

    constructor (clip: Clipper, n: nat)
      ensures this.clip == clip && down == seq(n, _ => [])
    {
      this.clip, down := clip, seq(n, _ => []);
    }

    /** One envelope to every client but the one it came from, until a write fails. */
    method PushToClients(d: Text, skip: nat, order: seq<nat>, fail: set<nat>) returns (ok: bool)
      requires Lists(order, |down|)
      modifies this`down
      ensures down == PushAll(old(down), d, skip, Reached(order, skip, fail))
      ensures ok <==> forall j :: j in order && j != skip ==> j !in fail
    {
      ghost var sent: set<nat> := {};
      assert order[0..] == order;
      var k := 0;
      while k < |order|
        invariant 0 <= k <= |order| && |down| == |old(down)|
        invariant Reached(order, skip, fail) == sent + Reached(order[k..], skip, fail)
        invariant down == PushAll(old(down), d, skip, sent)
        invariant forall j :: j in sent ==> j in order[..k]
        invariant forall j :: j in order[..k] && j != skip ==> j !in fail
      {
        var j := order[k];
        assert order[k..][0] == j && order[k..][1..] == order[k + 1..] && order[..k + 1] == order[..k] + [j];
        if j != skip {
          if j in fail {
            assert j in order;
            return false;
          }
          assert j !in sent;
          down := down[j := down[j] + [d]];
          sent := sent + {j};
        }
        k := k + 1;
      }
      assert order[..k] == order;
      ok := true;
    }

    /** Written locally first; only then pushed. */
    method HandleClipboard(from: nat, d: Text, writable: bool, order: seq<nat>, fail: set<nat>) returns (ok: bool)
      requires Enumerates(order, |down|)
      modifies this`down, clip
      ensures clip.View() == if writable then old(clip.View()).Write(d) else old(clip.View())
      ensures down == if writable then PushAll(old(down), d, from, Reached(order, from, fail)) else old(down)
      ensures ok <==> writable && forall j :: j in order && j != from ==> j !in fail
      ensures ok ==> forall j :: 0 < j < |down| && j != from ==> down[j] == old(down)[j] + [d]
    {
      if forall j :: j in order && j != from ==> j !in fail { ReachedWhenNoneFails(order, from, fail); }
      ok := clip.Write(d, writable);
      if ok {
        ok := PushToClients(d, from, order, fail);
      }
    }

    /** To the clients that are ready, which are the listed ones. */
    method BroadcastClipboard(d: Text, order: seq<nat>, fail: set<nat>) returns (ok: bool)
      requires Lists(order, |down|)
      modifies this`down
      ensures down == PushAll(old(down), d, 0, Reached(order, 0, fail))
      ensures ok <==> forall j :: j in order ==> j !in fail
      ensures ok ==> forall j :: j in order ==> down[j] == old(down)[j] + [d]
    {
      if forall j :: j in order ==> j !in fail { ReachedWhenNoneFails(order, 0, fail); }
      ok := PushToClients(d, 0, order, fail);
    }
  }

  function Send(n: Net, i: nat, d: Text, reach: set<nat>): Net
    requires n.Shaped() && i < |n.nodes|
  {
    var n1 := n.(forwards := n.forwards + [(i, d)]);
    if i == 0 then n1.(down := PushAll(n.down, d, 0, reach))
    else if 0 in reach then n1.(up := n.up[i := n.up[i] + [d]])
    else n1
  }

  function Apply(n: Net, s: Step): Net
    requires n.Shaped()
  {
    if s.i >= |n.nodes| then n
    else
      var c := n.nodes[s.i];
      match s
      case Copy(i, d) => n.(nodes := n.nodes[i := c.Copy(d)], copies := n.copies + [(i, d)])
      case Tick(i, readable, reach) =>
        var n1 := n.(nodes := n.nodes[i := c.Poll(readable)]);
        if c.Forwards(readable).Some? then Send(n1, i, c.Forwards(readable).value, reach) else n1
      case Up(i, ok, reach) =>
        if n.up[i] == [] then n
        else if !ok then n.(up := n.up[i := n.up[i][1..]])
        else n.(up := n.up[i := n.up[i][1..]], nodes := n.nodes[0 := n.nodes[0].Write(n.up[i][0])],
                down := PushAll(n.down, n.up[i][0], i, reach), delivered := n.delivered + 1)
      case Down(i, ok) =>
        if n.down[i] == [] then n
        else if !ok then n.(down := n.down[i := n.down[i][1..]])
        else n.(down := n.down[i := n.down[i][1..]], nodes := n.nodes[i := c.Write(n.down[i][0])],
                delivered := n.delivered + 1)
  }

  lemma ShapeKept(n: Net, s: Step)
    requires n.Shaped()
    ensures Apply(n, s).Shaped() && |Apply(n, s).nodes| == |n.nodes|
  {
  }

  function ApplyAll(n: Net, steps: seq<Step>): (r: Net)
    requires n.Shaped()
    ensures r.Shaped() && |r.nodes| == |n.nodes|
    decreases |steps|
  {
    if steps == [] then n
    else
      ShapeKept(n, steps[0]);
      ApplyAll(Apply(n, steps[0]), steps[1..])
  }

  function Total(queues: seq<seq<Text>>): nat {
    if queues == [] then 0 else Total(queues[..|queues| - 1]) + |queues[|queues| - 1]|
  }

  function CountFresh(nodes: seq<Clip>): nat {
    if nodes == [] then 0 else CountFresh(nodes[..|nodes| - 1]) + if nodes[|nodes| - 1].Fresh() then 1 else 0
  }

  predicate Solid(queues: seq<seq<Text>>) {
    forall i :: 0 <= i < |queues| ==> "" !in queues[i]
  }

  /** An unseen write by the session is marked. */
  predicate Marked(c: Clip) { c.seqno != c.last && !c.byUser ==> c.Own() }

  /** What the markers and the queues guarantee. */
  ghost predicate Authored(n: Net) {
    && n.Shaped() && Solid(n.up) && Solid(n.down)
    && (forall i :: 0 <= i < |n.nodes| ==> Marked(n.nodes[i]))
    && (forall i :: 0 <= i < |n.nodes| && n.nodes[i].Fresh() ==>
        n.nodes[i].content != "" && (i, n.nodes[i].content) in n.copies)
    && (forall f :: f in n.forwards ==> f in n.copies)
  }

  /** x * k, by repeated addition. */
  function Times(x: nat, k: nat): nat { if x == 0 then 0 else Times(x - 1, k) + k }

  lemma {:induction false} TimesIsProduct(x: nat, k: nat)
    ensures Times(x, k) == x * k
  {
    if x > 0 { TimesIsProduct(x - 1, k); }
  }

  lemma {:induction false} TimesMonotone(x: nat, y: nat, k: nat)
    requires x <= y
    ensures Times(x, k) <= Times(y, k)
  {
    if x < y { TimesMonotone(x, y - 1, k); }
  }

  lemma TimesStep(x: nat, k: nat)
    ensures Times(x + 1, k) == Times(x, k) + k
  {
  }

  /** Deliveries made and still to come of what is under way. */
  function Owed(n: Net): nat
    requires n.Shaped()
  {
    n.delivered + Total(n.down) + Times(Total(n.up), |n.nodes| - 1)
  }

  /** One delivery to every other node for each forward. */
  function Due(n: Net): nat
    requires n.Shaped()
  {
    Times(|n.forwards|, |n.nodes| - 1)
  }

  /** Each forward is due to one user copy, and no more is delivered than the forwards call for. */
  ghost predicate Counted(n: Net) {
    n.Shaped() && |n.forwards| + CountFresh(n.nodes) <= |n.copies| && Owed(n) <= Due(n)
  }

  ghost predicate Proper(s: Step) { s.Copy? ==> s.d != "" }

  predicate Everyone(n: Net, reach: set<nat>) { forall j :: 0 <= j < |n.nodes| ==> j in reach }

  /** Nothing fails in the step. */
  predicate Smooth(n: Net, s: Step) {
    match s
    case Copy(_, _) => true
    case Tick(_, readable, reach) => readable && Everyone(n, reach)
    case Up(_, ok, reach) => ok && Everyone(n, reach)
    case Down(_, ok) => ok
  }

  lemma {:induction false} TotalUpdate(q: seq<seq<Text>>, i: nat, x: seq<Text>)
    requires i < |q|
    ensures Total(q[i := x]) == Total(q) - |q[i]| + |x|
  {
    var n := |q| - 1;
    if i < n {
      assert q[i := x][..n] == q[..n][i := x];
      TotalUpdate(q[..n], i, x);
    } else {
      assert q[i := x][..n] == q[..n];
    }
  }

  /** The clients of n nodes other than skip. */
  function Others(n: nat, skip: nat): nat { if n == 0 then 0 else if 0 < skip < n then n - 2 else n - 1 }

  lemma {:induction false} TotalPush(q: seq<seq<Text>>, d: Text, skip: nat, reach: set<nat>)
    ensures Total(q) <= Total(PushAll(q, d, skip, reach)) <= Total(q) + Others(|q|, skip)
    ensures (forall j :: 0 <= j < |q| ==> j in reach) ==>
            Total(PushAll(q, d, skip, reach)) == Total(q) + Others(|q|, skip)
  {
    if q != [] {
      var n := |q| - 1;
      assert PushAll(q, d, skip, reach)[..n] == PushAll(q[..n], d, skip, reach);
      TotalPush(q[..n], d, skip, reach);
    }
  }

  lemma {:induction false} FreshUpdate(nodes: seq<Clip>, i: nat, c: Clip)
    requires i < |nodes|
    ensures CountFresh(nodes[i := c]) == CountFresh(nodes) - (if nodes[i].Fresh() then 1 else 0) +
            if c.Fresh() then 1 else 0
  {
    var n := |nodes| - 1;
    if i < n {
      assert nodes[i := c][..n] == nodes[..n][i := c];
      FreshUpdate(nodes[..n], i, c);
    } else {
      assert nodes[i := c][..n] == nodes[..n];
    }
  }

  lemma TickAuthored(n: Net, i: nat, readable: bool, reach: set<nat>)
    requires Authored(n)
    ensures Authored(Apply(n, Tick(i, readable, reach)))
  {
  }

  lemma UpAuthored(n: Net, i: nat, ok: bool, reach: set<nat>)
    requires Authored(n)
    ensures Authored(Apply(n, Up(i, ok, reach)))
  {
  }

  lemma AuthoredKept(n: Net, s: Step)
    requires Authored(n) && Proper(s)
    ensures Authored(Apply(n, s))
  {
    match s
    case Tick(i, readable, reach) => TickAuthored(n, i, readable, reach);
    case Up(i, ok, reach) => UpAuthored(n, i, ok, reach);
    case _ =>
  }

  /** b is a after a step that owes no more than is due, and exactly that if exact. */
  predicate Settled(a: Net, b: Net, exact: bool) {
    && a.Shaped() && b.Shaped() && |b.nodes| == |a.nodes|
    && Owed(b) + Due(a) <= Owed(a) + Due(b) && (exact ==> Owed(b) + Due(a) == Owed(a) + Due(b))
  }

  lemma SendSettles(n: Net, i: nat, d: Text, reach: set<nat>)
    requires n.Shaped() && i < |n.nodes|
    ensures Settled(n, Send(n, i, d, reach), Everyone(n, reach))
  {
    TimesStep(|n.forwards|, |n.nodes| - 1);
    if i == 0 {
      TotalPush(n.down, d, 0, reach);
    } else {
      TotalUpdate(n.up, i, n.up[i] + [d]);
      TimesStep(Total(n.up), |n.nodes| - 1);
    }
  }

  lemma TickSettles(n: Net, i: nat, readable: bool, reach: set<nat>)
    requires n.Shaped() && i < |n.nodes|
    ensures Settled(n, Apply(n, Tick(i, readable, reach)), Everyone(n, reach))
  {
    var c := n.nodes[i];
    if c.Forwards(readable).Some? {
      SendSettles(n.(nodes := n.nodes[i := c.Poll(readable)]), i, c.content, reach);
    }
  }

  lemma UpTotals(n: Net, i: nat, ok: bool, reach: set<nat>)
    requires n.Shaped() && i < |n.nodes| && n.up[i] != []
    ensures var n' := Apply(n, Up(i, ok, reach));
            && Total(n'.up) == Total(n.up) - 1 && Total(n'.down) <= Total(n.down) + (if ok then |n.nodes| - 2 else 0)
            && (ok && Everyone(n, reach) ==> Total(n'.down) == Total(n.down) + |n.nodes| - 2)
  {
    TotalUpdate(n.up, i, n.up[i][1..]);
    TotalPush(n.down, n.up[i][0], i, reach);
  }

  lemma UpSettles(n: Net, i: nat, ok: bool, reach: set<nat>)
    requires n.Shaped() && i < |n.nodes|
    ensures Settled(n, Apply(n, Up(i, ok, reach)), ok && Everyone(n, reach))
  {
    if n.up[i] != [] {
      UpTotals(n, i, ok, reach);
      TimesStep(Total(n.up) - 1, |n.nodes| - 1);
      assert Due(Apply(n, Up(i, ok, reach))) == Due(n);
    }
  }

  lemma DownSettles(n: Net, i: nat, ok: bool)
    requires n.Shaped() && i < |n.nodes|
    ensures Settled(n, Apply(n, Down(i, ok)), ok)
  {
    if n.down[i] != [] { TotalUpdate(n.down, i, n.down[i][1..]); }
  }

  lemma StepSettles(n: Net, s: Step)
    requires n.Shaped() && s.i < |n.nodes|
    ensures Settled(n, Apply(n, s), Smooth(n, s))
  {
    match s
    case Copy(i, d) =>
    case Tick(i, readable, reach) => TickSettles(n, i, readable, reach);
    case Up(i, ok, reach) => UpSettles(n, i, ok, reach);
    case Down(i, ok) => DownSettles(n, i, ok);
  }

  /** A copy adds at most one unseen copy, a forward uses one up, and nothing else makes one. */
  lemma FreshKept(n: Net, s: Step)
    requires n.Shaped() && s.i < |n.nodes| && Marked(n.nodes[s.i])
    ensures var r := Apply(n, s);
            |r.forwards| + CountFresh(r.nodes) - |r.copies| <= |n.forwards| + CountFresh(n.nodes) - |n.copies|
  {
    match s
    case Copy(i, d) => FreshUpdate(n.nodes, i, n.nodes[i].Copy(d));
    case Tick(i, readable, reach) => FreshUpdate(n.nodes, i, n.nodes[i].Poll(readable));
    case Up(i, ok, reach) => if n.up[i] != [] { FreshUpdate(n.nodes, 0, n.nodes[0].Write(n.up[i][0])); }
    case Down(i, ok) => if n.down[i] != [] { FreshUpdate(n.nodes, i, n.nodes[i].Write(n.down[i][0])); }
  }

  lemma CountedKept(n: Net, s: Step)
    requires Authored(n) && Counted(n) && s.i < |n.nodes|
    ensures Counted(Apply(n, s))
  {
    FreshKept(n, s);
    StepSettles(n, s);
  }

  /** All nodes have been polled, and no connection carries anything. */
  ghost predicate Quiet(n: Net) {
    && n.Shaped()
    && (forall i :: 0 <= i < |n.nodes| ==> n.nodes[i].seqno == n.nodes[i].last && n.up[i] == [] && n.down[i] == [])
  }

  ghost predicate AllProper(steps: seq<Step>) { forall s :: s in steps ==> Proper(s) }

  lemma {:induction false} RunKept(n: Net, steps: seq<Step>)
    requires Authored(n) && Counted(n) && AllProper(steps)
    ensures Authored(ApplyAll(n, steps)) && Counted(ApplyAll(n, steps))
    decreases |steps|
  {
    if steps != [] {
      assert Proper(steps[0]) && forall s :: s in steps[1..] ==> s in steps;
      ShapeKept(n, steps[0]);
      AuthoredKept(n, steps[0]);
      if steps[0].i < |n.nodes| { CountedKept(n, steps[0]); }
      RunKept(Apply(n, steps[0]), steps[1..]);
    }
  }

  /** n nodes that share nothing yet, whatever their clipboards hold. */
  ghost predicate Begins(n: Net) {
    Quiet(n) && n.copies == [] && n.forwards == [] && n.delivered == 0
  }

  lemma {:induction false} QuietCounts(n: Net, k: nat)
    requires Quiet(n) && k <= |n.nodes|
    ensures Total(n.up[..k]) == 0 && Total(n.down[..k]) == 0 && CountFresh(n.nodes[..k]) == 0
  {
    if k > 0 {
      QuietCounts(n, k - 1);
      assert n.up[..k][..k - 1] == n.up[..k - 1] && n.down[..k][..k - 1] == n.down[..k - 1];
      assert n.nodes[..k][..k - 1] == n.nodes[..k - 1];
    }
  }

  lemma QuietTotals(n: Net)
    requires Quiet(n)
    ensures Total(n.up) == 0 && Total(n.down) == 0 && CountFresh(n.nodes) == 0
  {
    QuietCounts(n, |n.nodes|);
    assert n.up[..|n.nodes|] == n.up && n.down[..|n.nodes|] == n.down && n.nodes[..|n.nodes|] == n.nodes;
  }

  /**
   No echo storm: over any interleaving of copies, polls and deliveries, and
   whatever writes fail, a node forwards only what its own user copied, at most
   once a copy, and each copy causes at most one delivery to each other node.
   */
  lemma NoEchoStorm(n: Net, steps: seq<Step>)
    requires Begins(n) && AllProper(steps)
    ensures var r := ApplyAll(n, steps);
            && (forall f :: f in r.forwards ==> f in r.copies)
            && |r.forwards| <= |r.copies|
            && r.delivered <= |r.copies| * (|r.nodes| - 1)
  {
    QuietTotals(n);
    RunKept(n, steps);
    var r := ApplyAll(n, steps);
    TimesMonotone(|r.forwards|, |r.copies|, |r.nodes| - 1);
    TimesIsProduct(|r.copies|, |r.nodes| - 1);
  }

  /** How many more steps a node, given the number of nodes, can cause. */
  function Weight(c: Clip, n: nat): nat { if c.seqno == c.last then 0 else if c.byUser then 2 * n else 1 }

  function Weights(nodes: seq<Clip>, n: nat): nat {
    if nodes == [] then 0 else Weights(nodes[..|nodes| - 1], n) + Weight(nodes[|nodes| - 1], n)
  }

  lemma {:induction false} WeightUpdate(nodes: seq<Clip>, i: nat, c: Clip, n: nat)
    requires i < |nodes|
    ensures Weights(nodes[i := c], n) == Weights(nodes, n) - Weight(nodes[i], n) + Weight(c, n)
  {
    var k := |nodes| - 1;
    if i < k {
      assert nodes[i := c][..k] == nodes[..k][i := c];
      WeightUpdate(nodes[..k], i, c, n);
    } else {
      assert nodes[i := c][..k] == nodes[..k];
    }
  }

  /** An upper bound on the polls and deliveries still to come without further copies. */
  function Work(n: Net): nat
    requires n.Shaped()
  {
    Weights(n.nodes, |n.nodes|) + 2 * Total(n.down) + Times(Total(n.up), 2 * |n.nodes| - 1)
  }

  lemma SendWork(n: Net, i: nat, d: Text, reach: set<nat>)
    requires n.Shaped() && i < |n.nodes|
    ensures Work(Send(n, i, d, reach)) <= Work(n) + 2 * |n.nodes| - 1
  {
    if i == 0 {
      TotalPush(n.down, d, 0, reach);
    } else {
      TotalUpdate(n.up, i, n.up[i] + [d]);
      TimesStep(Total(n.up), 2 * |n.nodes| - 1);
    }
  }

  lemma TickWork(n: Net, i: nat, readable: bool, reach: set<nat>)
    requires n.Shaped() && i < |n.nodes| && Marked(n.nodes[i]) && n.nodes[i].seqno != n.nodes[i].last
    ensures Work(Apply(n, Tick(i, readable, reach))) < Work(n)
  {
    var c := n.nodes[i];
    var n1 := n.(nodes := n.nodes[i := c.Poll(readable)]);
    WeightUpdate(n.nodes, i, c.Poll(readable), |n.nodes|);
    assert Work(n1) == Work(n) - Weight(c, |n.nodes|);
    if c.Forwards(readable).Some? { SendWork(n1, i, c.content, reach); }
  }

  lemma UpWork(n: Net, i: nat, ok: bool, reach: set<nat>)
    requires n.Shaped() && i < |n.nodes| && n.up[i] != []
    ensures Work(Apply(n, Up(i, ok, reach))) < Work(n)
  {
    var n' := Apply(n, Up(i, ok, reach));
    assert Weights(n'.nodes, |n.nodes|) <= Weights(n.nodes, |n.nodes|) + (if ok then 1 else 0) by {
      WeightUpdate(n.nodes, 0, n.nodes[0].Write(n.up[i][0]), |n.nodes|);
    }
    UpTotals(n, i, ok, reach);
    TimesStep(Total(n.up) - 1, 2 * |n.nodes| - 1);
    assert Total(n'.down) <= Total(n.down) + |n.nodes| - 2 && Total(n'.up) == Total(n.up) - 1;
  }

  lemma DownWork(n: Net, i: nat, ok: bool)
    requires n.Shaped() && i < |n.nodes| && n.down[i] != []
    ensures Work(Apply(n, Down(i, ok))) < Work(n)
  {
    WeightUpdate(n.nodes, i, n.nodes[i].Write(n.down[i][0]), |n.nodes|);
    TotalUpdate(n.down, i, n.down[i][1..]);
  }

  /** A poll with something to see, or a delivery. */
  predicate Effective(n: Net, s: Step)
    requires n.Shaped()
  {
    s.i < |n.nodes| && match s
                       case Copy(_, _) => false
                       case Tick(i, _, _) => n.nodes[i].seqno != n.nodes[i].last
                       case Up(i, _, _) => n.up[i] != []
                       case Down(i, _) => n.down[i] != []
  }

  lemma EffectiveWork(n: Net, s: Step)
    requires Authored(n) && Effective(n, s)
    ensures Work(Apply(n, s)) < Work(n)
  {
    match s
    case Tick(i, readable, reach) => TickWork(n, i, readable, reach);
    case Up(i, ok, reach) => UpWork(n, i, ok, reach);
    case Down(i, ok) => DownWork(n, i, ok);
  }

  ghost predicate AllEffective(n: Net, steps: seq<Step>)
    requires n.Shaped()
    decreases |steps|
  {
    steps == [] || (
      ShapeKept(n, steps[0]);
      Effective(n, steps[0]) && AllEffective(Apply(n, steps[0]), steps[1..]))
  }

  /** Without further copies only finitely many polls and deliveries are possible, whatever fails. */
  lemma {:induction false} WorkRunsOut(n: Net, steps: seq<Step>)
    requires Authored(n) && AllEffective(n, steps)
    ensures |steps| <= Work(n)
    decreases |steps|
  {
    if steps != [] {
      EffectiveWork(n, steps[0]);
      AuthoredKept(n, steps[0]);
      WorkRunsOut(Apply(n, steps[0]), steps[1..]);
    }
  }

  function Below(k: nat): (s: set<nat>)
    ensures forall j: nat :: j in s <==> j < k
  {
    if k == 0 then {} else Below(k - 1) + {k - 1}
  }

  /** And as long as the network is not quiet, one of them is, with nothing failing. */
  lemma QuietOrMore(n: Net)
    requires n.Shaped()
    ensures Quiet(n) <==> !exists s :: Effective(n, s) && Smooth(n, s)
  {
    if !Quiet(n) {
      var i :| 0 <= i < |n.nodes| && !(n.nodes[i].seqno == n.nodes[i].last && n.up[i] == [] && n.down[i] == []);
      var all := Below(|n.nodes|);
      var s := if n.nodes[i].seqno != n.nodes[i].last then Tick(i, true, all)
               else if n.up[i] != [] then Up(i, true, all)
               else Down(i, true);
      assert Effective(n, s) && Smooth(n, s);
    }
  }
}
