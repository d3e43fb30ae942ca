/**
 Liveness of the wide-area path: if every gateway has a stream to each other cluster, the path
 never gets stuck, whatever the throttles do, and without new messages it runs empty.
 */
module Delivery {
  import opened Common
  import opened Messages
  import opened Ranks
  import opened Framing
  import opened Gateway
  import opened Network
  import opened PathWork
  import opened EndToEnd

  ghost predicate LeadsTo(peers: seq<nat>, s: nat, b: nat) { s < |peers| && peers[s] == b }

  ghost predicate Linked(c: Config, a: nat, g: nat, b: nat) { exists s: nat :: LeadsTo(StreamsOf(c, a, g), s, b) }

  /** Every gateway has at least one stream to each other cluster. */
  ghost predicate Connected(c: Config) {
    forall a: nat, g: nat, b: nat {:trigger Linked(c, a, g, b)} ::
      a < c.clusters && g < c.gateways && b < c.clusters && a != b ==> Linked(c, a, g, b)
  }

  // ---- no step left means nothing is under way ----

  ghost predicate Stuck(c: Config, n: Net)
    requires ValidConfig(c) && Shape(c, n)
  {
    forall s: Step :: !Advances(c, n, s)
  }

  lemma SlotsIdle(c: Config, n: Net, a: nat, g: nat, s: nat)
    requires ValidConfig(c) && Shape(c, n) && OutInv(c, n) && Stuck(c, n) && a < c.clusters && g < c.gateways
    requires s < |n.nodes[(a, g)].out.now.slots|
    ensures n.nodes[(a, g)].out.now.slots[s].out == None
  {
    var out := n.nodes[(a, g)].out;
    assert OutOk(c, a, g, out) && ValidSlot(out.now.slots[s]);
    if out.now.slots[s].out.Some? { assert Advances(c, n, Drive(a, g, WriteBytes(s, 1))); }
  }

  lemma QueuesIdle(c: Config, n: Net, a: nat, g: nat, b: nat)
    requires ValidConfig(c) && Connected(c) && Shape(c, n) && OutInv(c, n) && Stuck(c, n)
    requires a < c.clusters && g < c.gateways && b < c.clusters
    ensures n.nodes[(a, g)].out.now.queues[b] == []
  {
    var out := n.nodes[(a, g)].out;
    var queue := out.now.queues[b];
    assert OutOk(c, a, g, out) && |Peers(out.now)| == |out.now.slots|;
    if queue != [] {
      QueuedForOthers(c, a, g, out, b);
      assert Linked(c, a, g, b);
      var s: nat :| LeadsTo(StreamsOf(c, a, g), s, b);
      SlotsIdle(c, n, a, g, s);
      QueueMoves(c, n, a, g, s, b);
      assert false;
    }
  }

  lemma QueueMoves(c: Config, n: Net, a: nat, g: nat, s: nat, b: nat)
    requires ValidConfig(c) && Shape(c, n) && a < c.clusters && g < c.gateways && b < c.clusters
    requires LeadsTo(StreamsOf(c, a, g), s, b) && s < |n.nodes[(a, g)].out.now.slots|
    requires n.nodes[(a, g)].out.now.slots[s].out == None && n.nodes[(a, g)].out.now.queues[b] != []
    ensures Advances(c, n, Drive(a, g, PrepareSlot(s)))
  {
    var o := n.nodes[(a, g)].out.now;
    assert Peers(o)[s] == o.slots[s].peer == b;
    PrepareMoves(o, s);
  }

  lemma PrepareMoves(o: Outbound, s: nat)
    requires s < |o.slots| && o.slots[s].peer < |o.queues| && o.slots[s].out == None && o.queues[o.slots[s].peer] != []
    ensures Prepare(o, s) != o
  {
    assert Prepare(o, s).slots[s] != o.slots[s];
  }

  lemma QueuedForOthers(c: Config, a: nat, g: nat, out: Trace, b: nat)
    requires ValidConfig(c) && OutOk(c, a, g, out) && b < |out.now.queues| && out.now.queues[b] != []
    ensures a != b
  {
    var m := out.now.queues[b][0];
    InFlatten(out.now.queues, b, m);
    assert m in Backlog(out.now) && m in multiset(out.accepted);
    assert AllTo(out.now.queues[b], b) && ToCluster(b)(m);
    assert Originates(c, m, a, g);
  }

  lemma GatewayIdle(c: Config, n: Net, a: nat, g: nat)
    requires ValidConfig(c) && Connected(c) && Shape(c, n) && OutInv(c, n) && Stuck(c, n)
    requires a < c.clusters && g < c.gateways
    ensures MayAccept(n.nodes[(a, g)].out.now)
  {
    var o := n.nodes[(a, g)].out.now;
    assert OutOk(c, a, g, n.nodes[(a, g)].out);
    forall b | 0 <= b < |o.queues| ensures o.queues[b] == [] { QueuesIdle(c, n, a, g, b); }
    FlattenEmpties(o.queues);
    forall s | 0 <= s < |o.slots| ensures InProgress(o.slots)[s] == [] { SlotsIdle(c, n, a, g, s); }
    FlattenEmpties(InProgress(o.slots));
    assert Backlog(o) == [];
  }

  lemma IntakeIdle(c: Config, n: Net, p: uint32)
    requires ValidConfig(c) && Connected(c) && Network.Inv(c, n) && Stuck(c, n) && p in c.processes
    ensures n.taken[p] == |n.sent[p]|
  {
    var a, g := GetClusterRank(p), GatewayOf(c, p);
    assert IntakeOk(c, n.sent[p], n.taken[p], IntakeNode(c, n, p).out.accepted, p);
    if n.taken[p] < |n.sent[p]| {
      GatewayIdle(c, n, a, g);
      assert n.sent[p][n.taken[p]] in n.sent[p];
      assert Advances(c, n, Intake(p));
    }
  }

  lemma StreamIdle(c: Config, n: Net, a: nat, g: nat, s: nat)
    requires ValidConfig(c) && Network.Inv(c, n) && Stuck(c, n) && a < c.clusters && g < c.gateways
    requires s < |StreamsOf(c, a, g)|
    ensures IdleStream(n.nodes[(a, g)].out, n.nodes[(StreamsOf(c, a, g)[s], g)].readers[a], s)
  {
    var out, b := n.nodes[(a, g)].out, StreamsOf(c, a, g)[s];
    assert |Peers(out.now)| == |out.now.slots| && ReadAt(c, n, b, g, a, s);
    SlotsIdle(c, n, a, g, s);
    var consumed := n.nodes[(b, g)].readers[a][s].consumed;
    if consumed < |out.streams[s]| {
      if b == a {
        LoopIsEmpty(c, a, g, out, s);
      } else {
        assert Advances(c, n, StreamRead(b, g, a, s, 1));
      }
    }
  }

  /** Nothing is ever written to a stream that leads back to its own cluster. */
  lemma LoopIsEmpty(c: Config, a: nat, g: nat, out: Trace, s: nat)
    requires ValidConfig(c) && OutOk(c, a, g, out) && s < |out.streams| && StreamsOf(c, a, g)[s] == a
    requires out.now.slots[s].out == None
    ensures out.streams[s] == []
  {
    assert Peers(out.now)[s] == out.now.slots[s].peer;
    if out.finished[s] != [] {
      var m := out.finished[s][0];
      StreamMessages(c, a, g, out, s, m);
    }
  }

  lemma StuckIsIdle(c: Config, n: Net, p: uint32, q: uint32)
    requires ValidConfig(c) && Connected(c) && Network.Inv(c, n) && Stuck(c, n) && p in c.processes && q in c.processes
    ensures IdleBetween(c, n, p, q)
  {
    var a, b, g := GetClusterRank(p), GetClusterRank(q), GatewayOf(c, p);
    var node := n.nodes[(b, g)];
    IntakeIdle(c, n, p);
    QueuesIdle(c, n, a, g, b);
    forall s: nat | s < |StreamsOf(c, a, g)| && StreamsOf(c, a, g)[s] == b
      ensures IdleStream(n.nodes[(a, g)].out, node.readers[a], s)
    {
      StreamIdle(c, n, a, g, s);
    }
    InboundIdle(c, n, b, g, q);
  }

  lemma InboundIdle(c: Config, n: Net, b: nat, g: nat, q: uint32)
    requires ValidConfig(c) && Shape(c, n) && InInv(c, n) && DeliverInv(c, n) && Stuck(c, n)
    requires g < c.gateways && q in c.processes && b == GetClusterRank(q)
    ensures var node := n.nodes[(b, g)];
            node.forwarded == |node.incoming| && n.received[(g, q)] == |SentTo(node, q)|
  {
    assert InOk(c, b, g, n.nodes[(b, g)]);
    assert DeliverOk(c, n.nodes[(b, g)], n.arrived[q], n.received[(g, q)], g, q);
    assert !Advances(c, n, Forward(b, g)) && !Advances(c, n, Deliver(g, q));
  }

  // ---- whole runs ----

  /** A run in which every step brings some message closer to its destination. */
  ghost predicate AdvancingRun(c: Config, n: Net, steps: seq<Step>, n': Net)
    requires ValidConfig(c)
    decreases |steps|
  {
    if steps == [] then n == n'
    else Shape(c, n) && Advances(c, n, steps[0]) && AdvancingRun(c, Next(c, n, steps[0]), steps[1..], n')
  }

  /** However the steps are scheduled, an advancing run ends: it has no more steps than there is work. */
  lemma {:induction false} AdvancingRunsEnd(c: Config, n: Net, steps: seq<Step>, n': Net, top: nat)
    requires ValidConfig(c) && Network.Inv(c, n) && AdvancingRun(c, n, steps, n')
    requires forall p :: p in c.processes ==> p < top
    ensures |steps| + WorkLeft(c, n', top) <= WorkLeft(c, n, top)
    decreases |steps|
  {
    if steps != [] {
      var next := Next(c, n, steps[0]);
      AdvanceLessWork(c, n, steps[0], top);
      StepKeepsInv(c, n, steps[0]);
      AdvancingRunsEnd(c, next, steps[1..], n', top);
    }
  }

  /** What p sent to q has all arrived, and in order if at most one stream leads there. */
  ghost predicate Arrived(c: Config, n: Net, p: uint32, q: uint32)
    requires ValidConfig(c)
  {
    && p in n.sent && q in n.arrived
    && multiset(Filter(n.arrived[q], FromTo(p, q))) == multiset(Filter(n.sent[p], FromTo(p, q)))
    && (AtMostOneStream(StreamsOf(c, GetClusterRank(p), GatewayOf(c, p)), GetClusterRank(q)) ==>
          Filter(n.arrived[q], FromTo(p, q)) == Filter(n.sent[p], FromTo(p, q)))
  }

  ghost predicate AllArrived(c: Config, n: Net)
    requires ValidConfig(c)
  {
    forall p, q :: p in c.processes && q in c.processes ==> Arrived(c, n, p, q)
  }

  lemma StuckMeansArrived(c: Config, n: Net)
    requires ValidConfig(c) && Connected(c) && Network.Inv(c, n) && Stuck(c, n)
    ensures AllArrived(c, n)
  {
    forall p, q | p in c.processes && q in c.processes ensures Arrived(c, n, p, q) {
      StuckIsIdle(c, n, p, q);
      IdleConserves(c, n, p, q);
      if AtMostOneStream(StreamsOf(c, GetClusterRank(p), GatewayOf(c, p)), GetClusterRank(q)) {
        InvIsOrder(c, n, p, q);
        SameSize(Filter(n.arrived[q], FromTo(p, q)), Filter(n.sent[p], FromTo(p, q)));
      }
    }
  }

  lemma AdvanceKeepsSent(c: Config, n: Net, s: Step)
    requires ValidConfig(c) && Shape(c, n) && Advances(c, n, s)
    ensures Next(c, n, s).sent == n.sent
  {}

  /** An advancing run from n to n', where everything sent has arrived. */
  ghost predicate Drained(c: Config, n: Net, steps: seq<Step>, n': Net)
    requires ValidConfig(c)
  {
    AdvancingRun(c, n, steps, n') && n'.sent == n.sent && AllArrived(c, n')
  }

  lemma OneMoreAdvance(c: Config, n: Net, s: Step, rest: seq<Step>, n': Net)
    requires ValidConfig(c) && Shape(c, n) && Advances(c, n, s) && Drained(c, Next(c, n, s), rest, n')
    ensures Drained(c, n, [s] + rest, n')
  {
    AdvanceKeepsSent(c, n, s);
    assert ([s] + rest)[1..] == rest;
  }

  lemma StuckIsDrained(c: Config, n: Net)
    requires ValidConfig(c) && Connected(c) && Network.Inv(c, n) && Stuck(c, n)
    ensures Drained(c, n, [], n)
  {
    StuckMeansArrived(c, n);
  }

  lemma {:induction false} Drain(c: Config, n: Net, top: nat) returns (steps: seq<Step>, n': Net)
    requires ValidConfig(c) && Connected(c) && Network.Inv(c, n) && forall p :: p in c.processes ==> p < top
    ensures Drained(c, n, steps, n')
    decreases WorkLeft(c, n, top)
  {
    if s: Step :| Advances(c, n, s) {
      AdvanceLessWork(c, n, s, top);
      StepKeepsInv(c, n, s);
      var rest;
      rest, n' := Drain(c, Next(c, n, s), top);
      OneMoreAdvance(c, n, s, rest, n');
      steps := [s] + rest;
    } else {
      StuckIsDrained(c, n);
      steps, n' := [], n;
    }
  }

  /** Every message can be delivered: from every state of every run, a run without sends delivers all. */
  lemma EventuallyDelivered(c: Config, init: Net, steps: seq<Step>, n: Net)
    requires ValidConfig(c) && Connected(c) && Initial(c, init) && Runs(c, init, steps, n)
    ensures exists rest, last :: Drained(c, n, rest, last)
  {
    InitialInv(c, init);
    Network.RunKeepsInv(c, init, steps, n);
    var rest, last := Drain(c, n, 0x1_0000_0000);
  }

  lemma {:induction false} AdvancingRunKeepsInv(c: Config, n: Net, steps: seq<Step>, n': Net)
    requires ValidConfig(c) && Network.Inv(c, n) && AdvancingRun(c, n, steps, n')
    ensures Network.Inv(c, n')
    decreases |steps|
  {
    if steps != [] {
      StepKeepsInv(c, n, steps[0]);
      AdvancingRunKeepsInv(c, Next(c, n, steps[0]), steps[1..], n');
    }
  }

  lemma StoppedIsDelivered(c: Config, n: Net, more: seq<Step>, n': Net)
    requires ValidConfig(c) && Connected(c) && Network.Inv(c, n) && AdvancingRun(c, n, more, n')
    ensures Shape(c, n') && (Stuck(c, n') ==> AllArrived(c, n'))
  {
    AdvancingRunKeepsInv(c, n, more, n');
    if Stuck(c, n') { StuckMeansArrived(c, n'); }
  }

  /**
   And no scheduling can prevent it: an advancing run has no more steps than there is work, and
   when no step advances any more, all that was sent has arrived. top is any bound of the PIDs.
   */
  lemma EveryScheduleDelivers(c: Config, init: Net, steps: seq<Step>, n: Net, more: seq<Step>, n': Net, top: nat)
    requires ValidConfig(c) && Connected(c) && Initial(c, init) && Runs(c, init, steps, n)
    requires AdvancingRun(c, n, more, n') && forall p :: p in c.processes ==> p < top
    ensures |more| <= WorkLeft(c, n, top)
    ensures Shape(c, n') && (Stuck(c, n') ==> AllArrived(c, n'))
  {
    InitialInv(c, init);
    Network.RunKeepsInv(c, init, steps, n);
    AdvancingRunsEnd(c, n, more, n', top);
    StoppedIsDelivered(c, n, more, n');
  }

  /** Without a stream from p's gateway to q's cluster, nothing of p ever arrives at q. */
  lemma UnlinkedNeverDelivers(c: Config, init: Net, steps: seq<Step>, n: Net, p: uint32, q: uint32)
    requires ValidConfig(c) && Initial(c, init) && Runs(c, init, steps, n) && p in c.processes && q in c.processes
    requires !Linked(c, GetClusterRank(p), GatewayOf(c, p), GetClusterRank(q))
    ensures q in n.arrived && Filter(n.arrived[q], FromTo(p, q)) == []
  {
    var a, b, g := GetClusterRank(p), GetClusterRank(q), GatewayOf(c, p);
    InitialInv(c, init);
    Network.RunKeepsInv(c, init, steps, n);
    forall s | 0 <= s < |StreamsOf(c, a, g)| ensures StreamsOf(c, a, g)[s] != b {
      assert !LeadsTo(StreamsOf(c, a, g), s, b);
    }
    NothingIncoming(c, n, b, g, a);
    assert DeliverOk(c, n.nodes[(b, g)], n.arrived[q], n.received[(g, q)], g, q);
    ArrivedWasForwarded(c, n.nodes[(b, g)], n.arrived[q], n.received[(g, q)], p, q);
    FilterTwice(n.nodes[(b, g)].incoming, FromCluster(a), FromTo(p, q));
  }
}
