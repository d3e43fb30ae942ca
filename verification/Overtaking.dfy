/**
 When messages keep their order on the whole way: exactly if at most one stream leads from the
 gateway of the sender to the cluster of the receiver.
 */
module Overtaking {
  import opened Common
  import opened Messages
  import opened Ranks
  import opened Framing
  import opened Gateway
  import opened Network
  import EndToEnd

  /** The messages from p that have arrived at q are the first ones p sent to q, in order. */
  ghost predicate InSendOrder(n: Net, p: uint32, q: uint32) {
    p in n.sent && q in n.arrived && Filter(n.arrived[q], FromTo(p, q)) <= Filter(n.sent[p], FromTo(p, q))
  }

  // ---- composing runs ----

  lemma OneStep(c: Config, n: Net, s: Step)
    requires ValidConfig(c) && Network.Inv(c, n) && CanStep(c, n, s)
    ensures Network.Inv(c, Next(c, n, s)) && Runs(c, n, [s], Next(c, n, s))
  {
    StepKeepsInv(c, n, s);
    assert [s][1..] == [];
  }

  lemma RunsThen(c: Config, n: Net, s: Step, mid: Net, rest: seq<Step>, n': Net)
    requires ValidConfig(c) && Shape(c, n) && CanStep(c, n, s) && mid == Next(c, n, s) && Runs(c, mid, rest, n')
    ensures Runs(c, n, [s] + rest, n')
  {
    assert ([s] + rest)[1..] == rest;
  }

  lemma HeadAndRest<T>(a: seq<T>, b: seq<T>)
    requires a != []
    ensures a + b == [a[0]] + (a[1..] + b)
  {}

  lemma {:induction false} RunsConcat(c: Config, n: Net, a: seq<Step>, mid: Net, b: seq<Step>, n': Net)
    requires ValidConfig(c) && Runs(c, n, a, mid) && Runs(c, mid, b, n')
    ensures Runs(c, n, a + b, n')
    decreases |a|
  {
    if a == [] {
      assert a + b == b;
    } else {
      var next := Next(c, n, a[0]);
      RunsConcat(c, next, a[1..], mid, b, n');
      RunsThen(c, n, a[0], next, a[1..] + b, n');
      HeadAndRest(a, b);
    }
  }

  // ---- a run in which q gets the second message of p first ----

  /** A message from p to q, of either of two lengths. */
  function MessageOf(p: uint32, q: uint32, long: bool): (m: Frame)
    ensures IsDataMessage(m) && SrcPid(m) == p && DstPid(m) == q
    ensures |m| == DATA_MESSAGE_SIZE + if long then 1 else 0
  {
    CreateDataMessage(0, p, q, 0, 0, 0, 0, 0, if long then [0] else [])
  }

  lemma SendOne(c: Config, n: Net, m: Frame) returns (n': Net)
    requires ValidConfig(c) && Network.Inv(c, n) && Sendable(c, m)
    ensures Network.Inv(c, n') && Runs(c, n, [AppSend(m)], n')
    ensures n' == n.(sent := n.sent[SrcPid(m) := n.sent[SrcPid(m)] + [m]])
  {
    OneStep(c, n, AppSend(m));
    n' := Next(c, n, AppSend(m));
  }

  lemma SendTwo(c: Config, n: Net, p: uint32, m1: Frame, m2: Frame) returns (steps: seq<Step>, n': Net)
    requires ValidConfig(c) && Network.Inv(c, n) && p in c.processes && n.sent[p] == []
    requires Sendable(c, m1) && Sendable(c, m2) && SrcPid(m1) == SrcPid(m2) == p
    ensures Network.Inv(c, n') && Runs(c, n, steps, n') && n' == n.(sent := n.sent[p := [m1, m2]])
  {
    var mid := SendOne(c, n, m1);
    assert [] + [m1] == [m1] && [m1] + [m2] == [m1, m2];
    n' := SendOne(c, mid, m2);
    assert n.sent[p := [m1]][p := [m1, m2]] == n.sent[p := [m1, m2]];
    steps := [AppSend(m1)] + [AppSend(m2)];
    RunsConcat(c, n, [AppSend(m1)], mid, [AppSend(m2)], n');
  }

  /** What one intake does to the network. */
  ghost predicate TookIn(c: Config, n: Net, p: uint32, out: Trace, n': Net)
    requires ValidConfig(c) && Shape(c, n) && p in c.processes
  {
    var at := (GetClusterRank(p), GatewayOf(c, p));
    && n'.nodes == n.nodes[at := n.nodes[at].(out := out)]
    && n'.sent == n.sent && n'.arrived == n.arrived && n'.received == n.received
  }

  lemma TakeOne(c: Config, n: Net, p: uint32, m: Frame) returns (n': Net)
    requires ValidConfig(c) && Network.Inv(c, n) && p in c.processes
    requires n.taken[p] < |n.sent[p]| && n.sent[p][n.taken[p]] == m
    requires Enabled(IntakeNode(c, n, p).out, AcceptMessage(m))
    ensures Network.Inv(c, n') && Runs(c, n, [Intake(p)], n') && n'.taken[p] == n.taken[p] + 1
    ensures TookIn(c, n, p, Do(IntakeNode(c, n, p).out, AcceptMessage(m)), n')
  {
    OneStep(c, n, Intake(p));
    n' := Next(c, n, Intake(p));
  }

  lemma TookTwice(c: Config, n: Net, p: uint32, out: Trace, mid: Net, out': Trace, n': Net)
    requires ValidConfig(c) && Shape(c, n) && Shape(c, mid) && p in c.processes
    requires TookIn(c, n, p, out, mid) && TookIn(c, mid, p, out', n')
    ensures TookIn(c, n, p, out', n')
  {
    var at := (GetClusterRank(p), GatewayOf(c, p));
    var node, node' := n.nodes[at].(out := out), n.nodes[at].(out := out');
    assert n.nodes[at := node][at := node'] == n.nodes[at := node'];
  }

  lemma TakeTwo(c: Config, n: Net, p: uint32, m1: Frame, m2: Frame, t: Trace) returns (steps: seq<Step>, n': Net)
    requires ValidConfig(c) && Network.Inv(c, n) && p in c.processes
    requires n.sent[p] == [m1, m2] && n.taken[p] == 0 && BothAccepted(IntakeNode(c, n, p).out, m1, m2, t)
    ensures Network.Inv(c, n') && Runs(c, n, steps, n') && TookIn(c, n, p, t, n')
  {
    var t1 := Do(IntakeNode(c, n, p).out, AcceptMessage(m1));
    var mid := TakeOne(c, n, p, m1);
    assert IntakeNode(c, mid, p).out == t1;
    n' := TakeOne(c, mid, p, m2);
    TookTwice(c, n, p, t1, mid, t, n');
    steps := [Intake(p)] + [Intake(p)];
    RunsConcat(c, n, [Intake(p)], mid, [Intake(p)], n');
  }

  /** The network with another outbound side at one gateway. */
  function WithOut(n: Net, at: (nat, nat), out: Trace): Net
    requires at in n.nodes
  {
    n.(nodes := n.nodes[at := n.nodes[at].(out := out)])
  }

  lemma WithOutTwice(n: Net, at: (nat, nat), out: Trace, out': Trace)
    requires at in n.nodes
    ensures WithOut(n, at, n.nodes[at].out) == n && WithOut(WithOut(n, at, out), at, out') == WithOut(n, at, out')
  {
    assert n.nodes[at := n.nodes[at]] == n.nodes;
    var node, node' := n.nodes[at].(out := out), n.nodes[at].(out := out');
    assert n.nodes[at := node][at := node'] == n.nodes[at := node'];
  }

  lemma DriveOne(c: Config, n: Net, a: nat, g: nat, action: Action)
    requires ValidConfig(c) && Network.Inv(c, n) && a < c.clusters && g < c.gateways
    requires Enabled(n.nodes[(a, g)].out, action) && !action.AcceptMessage?
    ensures var n' := WithOut(n, (a, g), Do(n.nodes[(a, g)].out, action));
            Network.Inv(c, n') && Runs(c, n, [Drive(a, g, action)], n')
  {
    OneStep(c, n, Drive(a, g, action));
  }

  /** A run of one gateway that takes nothing in is a run of the network. */
  lemma {:induction false} DriveAll(c: Config, n: Net, a: nat, g: nat, actions: seq<Action>, t: Trace)
    returns (steps: seq<Step>)
    requires ValidConfig(c) && Network.Inv(c, n) && a < c.clusters && g < c.gateways
    requires Reaches(n.nodes[(a, g)].out, actions, t) && forall x :: x in actions ==> !x.AcceptMessage?
    ensures Network.Inv(c, WithOut(n, (a, g), t)) && Runs(c, n, steps, WithOut(n, (a, g), t))
    decreases |actions|
  {
    var out := n.nodes[(a, g)].out;
    if actions == [] {
      WithOutTwice(n, (a, g), out, t);
      steps := [];
    } else {
      var out' := Do(out, actions[0]);
      WithOutTwice(n, (a, g), out', t);
      DriveOne(c, n, a, g, actions[0]);
      var rest := DriveAll(c, WithOut(n, (a, g), out'), a, g, actions[1..], t);
      steps := [Drive(a, g, actions[0])] + rest;
      RunsConcat(c, n, [Drive(a, g, actions[0])], WithOut(n, (a, g), out'), rest, WithOut(n, (a, g), t));
    }
  }

  /** Nothing has come in at gateway g of cluster b, and nothing has arrived at q from there. */
  ghost predicate Untouched(c: Config, n: Net, b: nat, g: nat, q: uint32)
    requires ValidConfig(c) && Shape(c, n)
  {
    && b < c.clusters && g < c.gateways && q in c.processes
    && n.nodes[(b, g)].readers == InitialNode(c, b, g).readers
    && n.nodes[(b, g)].incoming == [] && n.nodes[(b, g)].forwarded == 0
    && n.received[(g, q)] == 0 && n.arrived[q] == []
  }

  /** A reader that has read nothing reads all of a stream that is one message. */
  lemma WholeMessageRead(node: Node, from: nat, s: nat, m: Frame)
    requires WellFramed(Data, m) && from < |node.readers| && s < |node.readers[from]|
    requires node.readers[from][s] == Reader(Parser([], []), 0) && node.incoming == []
    ensures var node' := ReadInto(node, from, s, m, |m|); node'.incoming == [m] && node'.forwarded == node.forwarded
  {
    FlattenOne(m);
    RoundTrip(Data, [m]);
    assert m[0..0 + |m|] == m;
    assert [] + [m][0..] == [m];
  }

  /** The gateway at the other end reads a message off stream r. */
  lemma ReadOne(c: Config, n: Net, a: nat, b: nat, g: nat, r: nat, q: uint32, m: Frame) returns (n': Net)
    requires ValidConfig(c) && Network.Inv(c, n) && Untouched(c, n, b, g, q) && a < c.clusters && a != b
    requires r < |StreamsOf(c, a, g)| && StreamsOf(c, a, g)[r] == b
    requires r < |n.nodes[(a, g)].out.streams| && n.nodes[(a, g)].out.streams[r] == m && WellFramed(Data, m)
    ensures Network.Inv(c, n') && Runs(c, n, [StreamRead(b, g, a, r, |m|)], n')
    ensures n'.nodes[(b, g)].incoming == [m] && n'.nodes[(b, g)].forwarded == 0
    ensures n'.sent == n.sent && n'.arrived == n.arrived && n'.received == n.received
  {
    assert n.nodes[(b, g)].readers[a][r] == Reader(Parser([], []), 0);
    OneStep(c, n, StreamRead(b, g, a, r, |m|));
    n' := Next(c, n, StreamRead(b, g, a, r, |m|));
    WholeMessageRead(n.nodes[(b, g)], a, r, m);
  }

  /** It forwards the message, and q receives it. */
  lemma PassOn(c: Config, n: Net, g: nat, q: uint32, m: Frame) returns (n': Net)
    requires ValidConfig(c) && Network.Inv(c, n) && g < c.gateways && q in c.processes && To(q)(m)
    requires var node := n.nodes[(GetClusterRank(q), g)]; node.incoming == [m] && node.forwarded == 0
    requires n.received[(g, q)] == 0 && n.arrived[q] == []
    ensures Runs(c, n, [Forward(GetClusterRank(q), g)] + [Deliver(g, q)], n')
    ensures n'.sent == n.sent && q in n'.arrived && n'.arrived[q] == [m]
  {
    var b := GetClusterRank(q);
    OneStep(c, n, Forward(b, g));
    var mid := Next(c, n, Forward(b, g));
    FilterEvery([m], To(q));
    assert [m][..1] == [m];
    OneStep(c, mid, Deliver(g, q));
    n' := Next(c, mid, Deliver(g, q));
    RunsConcat(c, n, [Forward(b, g)], mid, [Deliver(g, q)], n');
    assert [] + [m] == [m];
  }

  /** p has sent m1 and m2, and its gateway has taken both. */
  lemma SentAndTaken(c: Config, init: Net, p: uint32, q: uint32, m1: Frame, m2: Frame, t: Trace)
    returns (steps: seq<Step>, n: Net)
    requires ValidConfig(c) && Initial(c, init) && p in c.processes && q in c.processes
    requires Sendable(c, m1) && Sendable(c, m2) && FromTo(p, q)(m1) && FromTo(p, q)(m2)
    requires BothAccepted(Start(c.clusters, StreamsOf(c, GetClusterRank(p), GatewayOf(c, p))), m1, m2, t)
    ensures Network.Inv(c, n) && Runs(c, init, steps, n) && n.sent[p] == [m1, m2]
    ensures TookIn(c, init, p, t, n.(sent := init.sent))
  {
    InitialInv(c, init);
    assert IntakeNode(c, init, p) == InitialNode(c, GetClusterRank(p), GatewayOf(c, p));
    var first, n1 := SendTwo(c, init, p, m1, m2);
    assert IntakeNode(c, n1, p) == IntakeNode(c, init, p);
    var second;
    second, n := TakeTwo(c, n1, p, m1, m2, t);
    RunsConcat(c, init, first, n1, second, n);
    steps := first + second;
  }

  lemma OthersUntouched(c: Config, init: Net, p: uint32, q: uint32, t: Trace, n: Net)
    requires ValidConfig(c) && Initial(c, init) && p in c.processes && q in c.processes && Shape(c, n)
    requires GetClusterRank(p) != GetClusterRank(q) && TookIn(c, init, p, t, n.(sent := init.sent))
    ensures Untouched(c, n, GetClusterRank(q), GatewayOf(c, p), q)
  {
    var b, g := GetClusterRank(q), GatewayOf(c, p);
    assert init.nodes[(b, g)] == InitialNode(c, b, g);
  }

  lemma StillUntouched(c: Config, n: Net, a: nat, b: nat, g: nat, q: uint32, t: Trace)
    requires ValidConfig(c) && Shape(c, n) && Untouched(c, n, b, g, q) && a < c.clusters && a != b
    requires Shape(c, WithOut(n, (a, g), t))
    ensures Untouched(c, WithOut(n, (a, g), t), b, g, q)
  {}

  /** With two streams on the way, the gateway of p gets m2 on its way before m1. */
  lemma GatewayOvertakes(c: Config, init: Net, p: uint32, q: uint32, s: nat, r: nat, m1: Frame, m2: Frame)
    returns (steps: seq<Step>, n: Net)
    requires ValidConfig(c) && Initial(c, init) && p in c.processes && q in c.processes
    requires Sendable(c, m1) && Sendable(c, m2) && FromTo(p, q)(m1) && FromTo(p, q)(m2)
    requires |m1| <= DATA_MESSAGE_SIZE + 1 && GetClusterRank(p) != GetClusterRank(q)
    requires var peers := StreamsOf(c, GetClusterRank(p), GatewayOf(c, p));
             s < r < |peers| && peers[s] == peers[r] == GetClusterRank(q)
    ensures Network.Inv(c, n) && Runs(c, init, steps, n) && n.sent[p] == [m1, m2]
    ensures Untouched(c, n, GetClusterRank(q), GatewayOf(c, p), q)
    ensures var out := n.nodes[(GetClusterRank(p), GatewayOf(c, p))].out; r < |out.streams| && out.streams[r] == m2
  {
    var a, b, g := GetClusterRank(p), GetClusterRank(q), GatewayOf(c, p);
    var t2, later, t := Raced(c.clusters, StreamsOf(c, a, g), s, r, b, m1, m2);
    var first, n1 := SentAndTaken(c, init, p, q, m1, m2, t2);
    OthersUntouched(c, init, p, q, t2, n1);
    assert n1.nodes[(a, g)].out == t2;
    var rest := DriveAll(c, n1, a, g, later, t);
    n := WithOut(n1, (a, g), t);
    StillUntouched(c, n1, a, b, g, q, t);
    RunsConcat(c, init, first, n1, rest, n);
    steps := first + rest;
  }

  /** With two streams on the way from p to q there is a run in which q gets a later message of p first. */
  lemma MayOvertake(c: Config, init: Net, p: uint32, q: uint32, s: nat, r: nat) returns (steps: seq<Step>, n: Net)
    requires ValidConfig(c) && Initial(c, init) && p in c.processes && q in c.processes
    requires GetClusterRank(p) != GetClusterRank(q)
    requires var peers := StreamsOf(c, GetClusterRank(p), GatewayOf(c, p));
             s < r < |peers| && peers[s] == peers[r] == GetClusterRank(q)
    ensures Runs(c, init, steps, n) && !InSendOrder(n, p, q)
  {
    var a, b, g, m1, m2 := GetClusterRank(p), GetClusterRank(q), GatewayOf(c, p),
                           MessageOf(p, q, false), MessageOf(p, q, true);
    var n1;
    steps, n1 := GatewayOvertakes(c, init, p, q, s, r, m1, m2);
    var n2 := ReadOne(c, n1, a, b, g, r, q, m2);
    n := PassOn(c, n2, g, q, m2);
    RunsConcat(c, init, steps, n1, [StreamRead(b, g, a, r, |m2|)], n2);
    steps := steps + [StreamRead(b, g, a, r, |m2|)];
    RunsConcat(c, init, steps, n2, [Forward(b, g)] + [Deliver(g, q)], n);
    steps := steps + ([Forward(b, g)] + [Deliver(g, q)]);
    OutOfOrder(n, p, q, m1, m2);
  }

  lemma OutOfOrder(n: Net, p: uint32, q: uint32, m1: Frame, m2: Frame)
    requires p in n.sent && q in n.arrived && n.sent[p] == [m1, m2] && n.arrived[q] == [m2]
    requires FromTo(p, q)(m1) && FromTo(p, q)(m2) && m1 != m2
    ensures !InSendOrder(n, p, q)
  {
    FilterEvery([m1, m2], FromTo(p, q));
    FilterEvery([m2], FromTo(p, q));
    assert [m2][0] == m2 && [m1, m2][0] == m1;
  }

  // ---- the exact condition ----

  /** Within one cluster nothing goes this way. */
  lemma NothingWithin(c: Config, init: Net, steps: seq<Step>, n: Net, p: uint32, q: uint32)
    requires ValidConfig(c) && Initial(c, init) && Runs(c, init, steps, n) && p in c.processes && q in c.processes
    requires GetClusterRank(p) == GetClusterRank(q)
    ensures InSendOrder(n, p, q)
  {
    EndToEnd.NoDuplicates(c, init, steps, n, p, q);
    InitialInv(c, init);
    Network.RunKeepsInv(c, init, steps, n);
    assert IntakeOk(c, n.sent[p], n.taken[p], IntakeNode(c, n, p).out.accepted, p);
    forall i | 0 <= i < |n.sent[p]| ensures !FromTo(p, q)(n.sent[p][i]) { assert n.sent[p][i] in n.sent[p]; }
    FilterNone(n.sent[p], FromTo(p, q));
    assert |multiset(Filter(n.arrived[q], FromTo(p, q)))| == 0;
  }

  /** The messages from p that arrive at q do so in the order in which p sent them, in every run. */
  ghost predicate AlwaysInOrder(c: Config, p: uint32, q: uint32)
    requires ValidConfig(c)
  {
    forall init, steps, n :: Initial(c, init) && Runs(c, init, steps, n) ==> InSendOrder(n, p, q)
  }

  lemma SoleStreamIsInOrder(c: Config, p: uint32, q: uint32)
    requires ValidConfig(c) && p in c.processes && q in c.processes
    requires AtMostOneStream(StreamsOf(c, GetClusterRank(p), GatewayOf(c, p)), GetClusterRank(q))
    ensures AlwaysInOrder(c, p, q)
  {
    forall init, steps, n | Initial(c, init) && Runs(c, init, steps, n) ensures InSendOrder(n, p, q) {
      NonOvertaking(c, init, steps, n, p, q);
    }
  }

  lemma OneClusterIsInOrder(c: Config, p: uint32, q: uint32)
    requires ValidConfig(c) && p in c.processes && q in c.processes && GetClusterRank(p) == GetClusterRank(q)
    ensures AlwaysInOrder(c, p, q)
  {
    forall init, steps, n | Initial(c, init) && Runs(c, init, steps, n) ensures InSendOrder(n, p, q) {
      NothingWithin(c, init, steps, n, p, q);
    }
  }

  lemma TwoStreamsAreNot(c: Config, p: uint32, q: uint32)
    requires ValidConfig(c) && p in c.processes && q in c.processes && GetClusterRank(p) != GetClusterRank(q)
    requires !AtMostOneStream(StreamsOf(c, GetClusterRank(p), GatewayOf(c, p)), GetClusterRank(q))
    ensures !AlwaysInOrder(c, p, q)
  {
    var peers := StreamsOf(c, GetClusterRank(p), GatewayOf(c, p));
    var s, r :| 0 <= s < r < |peers| && peers[s] == GetClusterRank(q) && peers[r] == GetClusterRank(q);
    var init := InitialExists(c);
    var steps, n := MayOvertake(c, init, p, q, s, r);
  }

  /**
   Non-overtaking (MPI 2.1 section 3.5): messages from p arrive at q in the order in which p sent
   them, in every run, if and only if p and q are in one cluster or at most one stream leads
   from p's gateway to q's cluster.
   */
  lemma NonOvertakingIff(c: Config, p: uint32, q: uint32)
    requires ValidConfig(c) && p in c.processes && q in c.processes
    ensures AlwaysInOrder(c, p, q)
            <==> || GetClusterRank(p) == GetClusterRank(q)
                 || AtMostOneStream(StreamsOf(c, GetClusterRank(p), GatewayOf(c, p)), GetClusterRank(q))
  {
    if GetClusterRank(p) == GetClusterRank(q) {
      OneClusterIsInOrder(c, p, q);
    } else if AtMostOneStream(StreamsOf(c, GetClusterRank(p), GatewayOf(c, p)), GetClusterRank(q)) {
      SoleStreamIsInOrder(c, p, q);
    } else {
      TwoStreamsAreNot(c, p, q);
    }
  }
}
