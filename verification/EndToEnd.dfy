/**
 Consequences of the network invariant for whole runs: order of receives, no loss once the
 path is idle, no misrouted message.
 */
module EndToEnd {
  import opened Common
  import opened Messages
  import opened Ranks
  import opened Framing
  import opened Gateway
  import opened Network
  import opened Mailbox

  /** Where the k-th selected element stands. */
  lemma {:induction false} NthSelected<T>(s: seq<T>, p: T -> bool, k: nat) returns (j: nat)
    requires k < |Filter(s, p)|
    ensures j < |s| && s[j] == Filter(s, p)[k]
  {
    if p(s[0]) && k == 0 {
      j := 0;
    } else {
      j := NthSelected(s[1..], p, if p(s[0]) then k - 1 else k);
      j := j + 1;
    }
  }

  /** Up to and including a selected position, a prefix of the selection is selected. */
  lemma SelectUpTo<T>(s: seq<T>, p: T -> bool, a: seq<T>, x: T)
    requires a + [x] <= s && p(x)
    ensures Filter(a, p) + [x] <= Filter(s, p)
  {
    FilterSnoc(a, x, p);
    FilterPrefix(a + [x], s, p);
  }

  /**
   Non-overtaking for receives: when a receive of q takes arrival i, a message from p, it is
   message number k of those p sent to q, and each of the first k that answers the same
   receive has been consumed before.
   */
  lemma ReceivesInSendOrder(c: Config, init: Net, steps: seq<Step>, n: Net, p: uint32, q: uint32,
                            fate: seq<Fate>, r: Request, i: nat)
    requires ValidConfig(c) && Initial(c, init) && Runs(c, init, steps, n) && p in c.processes && q in c.processes
    requires AtMostOneStream(StreamsOf(c, GetClusterRank(p), GatewayOf(c, p)), GetClusterRank(q))
    requires q in n.arrived && p in n.sent
    requires History(n.arrived[q], fate) && Earliest(n.arrived[q], fate, r, i) && FromTo(p, q)(n.arrived[q][i])
    ensures var k, sent := |Filter(n.arrived[q][..i], FromTo(p, q))|, Filter(n.sent[p], FromTo(p, q));
            && k < |sent| && n.arrived[q][i] == sent[k]
            && forall l :: 0 <= l < k ==>
                 exists j :: 0 <= j < i && n.arrived[q][j] == sent[l] && !Answers(n.arrived[q], fate, r, j)
  {
    NonOvertaking(c, init, steps, n, p, q);
    TakenInOrder(n.arrived[q], FromTo(p, q), Filter(n.sent[p], FromTo(p, q)), fate, r, i);
  }

  lemma TakenInOrder(arrived: seq<Frame>, ours: Frame -> bool, sent: seq<Frame>, fate: seq<Fate>, r: Request, i: nat)
    requires Filter(arrived, ours) <= sent
    requires History(arrived, fate) && Earliest(arrived, fate, r, i) && ours(arrived[i])
    ensures var k := |Filter(arrived[..i], ours)|;
            && k < |sent| && arrived[i] == sent[k]
            && forall l :: 0 <= l < k ==>
                 exists j :: 0 <= j < i && arrived[j] == sent[l] && !Answers(arrived, fate, r, j)
  {
    var before := Filter(arrived[..i], ours);
    assert before + [arrived[i]] <= sent by {
      assert arrived[..i] + [arrived[i]] == arrived[..i + 1];
      SelectUpTo(arrived, ours, arrived[..i], arrived[i]);
    }
    forall l | 0 <= l < |before|
      ensures exists j :: 0 <= j < i && arrived[j] == sent[l] && !Answers(arrived, fate, r, j)
    {
      var j := NthSelected(arrived[..i], ours, l);
      assert arrived[j] == before[l] == sent[l];
    }
  }

  // ---- nothing is duplicated, and nothing is lost, for any number of streams ----

  lemma {:induction false} FilterCount<T>(s: seq<T>, p: T -> bool, x: T)
    ensures multiset(Filter(s, p))[x] == if p(x) then multiset(s)[x] else 0
  {
    if s != [] {
      FilterCount(s[1..], p, x);
      assert s == [s[0]] + s[1..];
    }
  }

  lemma FilterSubset<T>(a: seq<T>, b: seq<T>, p: T -> bool)
    requires multiset(a) <= multiset(b)
    ensures multiset(Filter(a, p)) <= multiset(Filter(b, p))
  {
    forall x: T | x in multiset(Filter(a, p)) ensures multiset(Filter(a, p))[x] <= multiset(Filter(b, p))[x] {
      FilterCount(a, p, x);
      FilterCount(b, p, x);
      assert multiset(a)[x] <= multiset(b)[x];
    }
  }

  lemma PrefixSubset<T>(a: seq<T>, b: seq<T>)
    requires a <= b
    ensures multiset(a) <= multiset(b)
  {
    assert b == a + b[|a|..];
  }

  ghost predicate Below<T>(a: seq<T>, b: seq<T>, c: seq<T>) { multiset(a) <= multiset(b) + multiset(c) }

  /** If each bin of a is contained in those of b and c together, so is the whole. */
  lemma {:induction false} BinsBelow<T>(a: seq<seq<T>>, b: seq<seq<T>>, c: seq<seq<T>>)
    requires |a| == |b| == |c| && forall s :: 0 <= s < |a| ==> Below(a[s], b[s], c[s])
    ensures Below(Flatten(a), Flatten(b), Flatten(c))
  {
    if a != [] {
      BinsBelow(a[1..], b[1..], c[1..]);
      assert Below(a[0], b[0], c[0]);
      BothBelow(a[0], b[0], c[0], Flatten(a[1..]), Flatten(b[1..]), Flatten(c[1..]));
    }
  }

  lemma BothBelow<T>(a: seq<T>, b: seq<T>, c: seq<T>, a': seq<T>, b': seq<T>, c': seq<T>)
    requires Below(a, b, c) && Below(a', b', c')
    ensures Below(a + a', b + b', c + c')
  {}

  /** What the readers at b have delivered of the streams of a gateway was accepted there. */
  lemma DeliveredBelowAccepted(c: Config, n: Net, a: nat, b: nat, g: nat)
    requires ValidConfig(c) && Network.Inv(c, n) && a < c.clusters && b < c.clusters && g < c.gateways
    ensures multiset(Flatten(Deliveries(n.nodes[(b, g)].readers[a]))) <= multiset(n.nodes[(a, g)].out.accepted)
  {
    var readers, out := n.nodes[(b, g)].readers[a], n.nodes[(a, g)].out;
    assert OutOk(c, a, g, out) && |Peers(out.now)| == |readers|;
    forall s | 0 <= s < |readers|
      ensures Below(Deliveries(readers)[s], out.finished[s], InProgress(out.now.slots)[s])
    {
      assert ReadAt(c, n, b, g, a, s);
      ParsedIsWritten(c, a, g, out, s, out.streams[s][..readers[s].consumed]);
      PrefixSubset(readers[s].parser.delivered, out.finished[s] + Held(out.now.slots[s]));
    }
    BinsBelow(Deliveries(readers), out.finished, InProgress(out.now.slots));
  }

  /** In every run, for any number of streams: every message arrives at most once, and only if it was sent. */
  lemma NoDuplicates(c: Config, init: Net, steps: seq<Step>, n: Net, p: uint32, q: uint32)
    requires ValidConfig(c) && Initial(c, init) && Runs(c, init, steps, n) && p in c.processes && q in c.processes
    ensures p in n.sent && q in n.arrived
    ensures multiset(Filter(n.arrived[q], FromTo(p, q))) <= multiset(Filter(n.sent[p], FromTo(p, q)))
  {
    InitialInv(c, init);
    Network.RunKeepsInv(c, init, steps, n);
    InvIsConservation(c, n, p, q);
  }

  lemma InvIsConservation(c: Config, n: Net, p: uint32, q: uint32)
    requires ValidConfig(c) && Network.Inv(c, n) && p in c.processes && q in c.processes
    ensures multiset(Filter(n.arrived[q], FromTo(p, q))) <= multiset(Filter(n.sent[p], FromTo(p, q)))
  {
    var a, b, g, ours := GetClusterRank(p), GetClusterRank(q), GatewayOf(c, p), FromTo(p, q);
    var node, out := n.nodes[(b, g)], n.nodes[(a, g)].out;
    assert DeliverOk(c, node, n.arrived[q], n.received[(g, q)], g, q);
    ArrivedWasForwarded(c, node, n.arrived[q], n.received[(g, q)], p, q);
    PrefixSubset(Filter(n.arrived[q], ours), Filter(node.incoming, ours));
    IncomingBelowAccepted(c, n, p, q);
    assert IntakeOk(c, n.sent[p], n.taken[p], IntakeNode(c, n, p).out.accepted, p);
    AcceptedWasSent(c, n.sent[p], n.taken[p], out.accepted, p, q);
    PrefixSubset(Filter(out.accepted, ours), Filter(n.sent[p], ours));
  }

  lemma IncomingBelowAccepted(c: Config, n: Net, p: uint32, q: uint32)
    requires ValidConfig(c) && Network.Inv(c, n) && p in c.processes && q in c.processes
    ensures var a, b, g := GetClusterRank(p), GetClusterRank(q), GatewayOf(c, p);
            multiset(Filter(n.nodes[(b, g)].incoming, FromTo(p, q)))
            <= multiset(Filter(n.nodes[(a, g)].out.accepted, FromTo(p, q)))
  {
    var a, b, g := GetClusterRank(p), GetClusterRank(q), GatewayOf(c, p);
    var node, ours := n.nodes[(b, g)], FromTo(p, q);
    var delivered := Flatten(Deliveries(node.readers[a]));
    assert GatherAt(c, n, b, g, a);
    FilterTwice(node.incoming, FromCluster(a), ours);
    FilterSubset(Filter(node.incoming, FromCluster(a)), delivered, ours);
    DeliveredBelowAccepted(c, n, a, b, g);
    FilterSubset(delivered, n.nodes[(a, g)].out.accepted, ours);
  }

  /** Nothing of the traffic from p to q is under way. */
  ghost predicate IdleBetween(c: Config, n: Net, p: uint32, q: uint32)
    requires ValidConfig(c) && Shape(c, n) && p in c.processes && q in c.processes
  {
    var a, b, g := GetClusterRank(p), GetClusterRank(q), GatewayOf(c, p);
    var node, out := n.nodes[(b, g)], n.nodes[(a, g)].out;
    && n.taken[p] == |n.sent[p]|
    && out.now.queues[b] == []
    && (forall s: nat :: s < |StreamsOf(c, a, g)| && StreamsOf(c, a, g)[s] == b ==>
          IdleStream(out, node.readers[a], s))
    && node.forwarded == |node.incoming| && n.received[(g, q)] == |SentTo(node, q)|
  }

  ghost predicate IdleStream(out: Trace, readers: seq<Reader>, s: nat) {
    && s < |out.now.slots| && s < |out.streams| && s < |readers|
    && out.now.slots[s].out == None && readers[s].consumed == |out.streams[s]|
  }

  /** Filtering bins that agree on what the filter selects. */
  lemma {:induction false} BinsAgree<T>(a: seq<seq<T>>, b: seq<seq<T>>, p: T -> bool)
    requires |a| == |b| && forall s :: 0 <= s < |a| ==> Filter(a[s], p) == Filter(b[s], p)
    ensures Filter(Flatten(a), p) == Filter(Flatten(b), p)
  {
    if a != [] {
      BinsAgree(a[1..], b[1..], p);
      FilterConcat(a[0], Flatten(a[1..]), p);
      FilterConcat(b[0], Flatten(b[1..]), p);
    }
  }

  lemma {:induction false} BinsWithout<T>(bins: seq<seq<T>>, p: T -> bool)
    requires forall s :: 0 <= s < |bins| ==> Filter(bins[s], p) == []
    ensures Filter(Flatten(bins), p) == []
  {
    if bins != [] {
      BinsWithout(bins[1..], p);
      FilterConcat(bins[0], Flatten(bins[1..]), p);
    }
  }

  /** Messages for other clusters are not from p to q. */
  lemma OthersNotOurs(ms: seq<Frame>, b: nat, p: uint32, q: uint32)
    requires AllTo(ms, b) && b != GetClusterRank(q)
    ensures Filter(ms, FromTo(p, q)) == []
  {
    forall i | 0 <= i < |ms| ensures !FromTo(p, q)(ms[i]) { assert ToCluster(b)(ms[i]); }
    FilterNone(ms, FromTo(p, q));
  }

  /** On an idle path, what is left in the gateway of p is not for q. */
  lemma IdleBacklog(c: Config, n: Net, p: uint32, q: uint32)
    requires ValidConfig(c) && Network.Inv(c, n) && p in c.processes && q in c.processes && IdleBetween(c, n, p, q)
    ensures Filter(Backlog(n.nodes[(GetClusterRank(p), GatewayOf(c, p))].out.now), FromTo(p, q)) == []
  {
    var a, b, g, ours := GetClusterRank(p), GetClusterRank(q), GatewayOf(c, p), FromTo(p, q);
    var out := n.nodes[(a, g)].out;
    assert OutOk(c, a, g, out);
    forall d | 0 <= d < |out.now.queues| ensures Filter(out.now.queues[d], ours) == [] {
      assert AllTo(out.now.queues[d], d);
      if d != b { OthersNotOurs(out.now.queues[d], d, p, q); }
    }
    BinsWithout(out.now.queues, ours);
    forall s | 0 <= s < |out.now.slots| ensures Filter(InProgress(out.now.slots)[s], ours) == [] {
      assert Peers(out.now)[s] == out.now.slots[s].peer == StreamsOf(c, a, g)[s];
      if out.now.slots[s].peer == b {
        assert IdleStream(out, n.nodes[(b, g)].readers[a], s);
      } else {
        assert AllTo(Held(out.now.slots[s]), out.now.slots[s].peer);
        OthersNotOurs(Held(out.now.slots[s]), out.now.slots[s].peer, p, q);
      }
    }
    BinsWithout(InProgress(out.now.slots), ours);
    FilterConcat(Flatten(out.now.queues), Flatten(InProgress(out.now.slots)), ours);
  }

  /** On an idle path, the readers have delivered all that was finished. */
  lemma IdleDelivered(c: Config, n: Net, p: uint32, q: uint32)
    requires ValidConfig(c) && Network.Inv(c, n) && p in c.processes && q in c.processes && IdleBetween(c, n, p, q)
    ensures var a, b, g := GetClusterRank(p), GetClusterRank(q), GatewayOf(c, p);
            Filter(Flatten(Deliveries(n.nodes[(b, g)].readers[a])), FromTo(p, q))
            == Filter(Flatten(n.nodes[(a, g)].out.finished), FromTo(p, q))
  {
    var a, b, g, ours := GetClusterRank(p), GetClusterRank(q), GatewayOf(c, p), FromTo(p, q);
    var readers, out := n.nodes[(b, g)].readers[a], n.nodes[(a, g)].out;
    assert OutOk(c, a, g, out) && |Peers(out.now)| == |readers|;
    forall s | 0 <= s < |readers| ensures Filter(Deliveries(readers)[s], ours) == Filter(out.finished[s], ours) {
      assert ReadAt(c, n, b, g, a, s);
      assert Peers(out.now)[s] == out.now.slots[s].peer == StreamsOf(c, a, g)[s];
      if out.now.slots[s].peer == b {
        assert IdleStream(out, readers, s);
        IdleParsedAll(c, a, g, out, s);
        assert out.streams[s][..readers[s].consumed] == out.streams[s];
      } else {
        assert AllTo(out.finished[s], out.now.slots[s].peer);
        OthersNotOurs(out.finished[s], out.now.slots[s].peer, p, q);
        assert out.streams[s][..0] == [];
      }
    }
    BinsAgree(Deliveries(readers), out.finished, ours);
  }

  lemma IdleParsedAll(c: Config, a: nat, g: nat, out: Trace, s: nat)
    requires ValidConfig(c) && OutOk(c, a, g, out) && s < |out.streams| && out.now.slots[s].out == None
    ensures FeedAll(Data, Parser([], []), out.streams[s]).delivered == out.finished[s]
  {
    forall m | m in out.finished[s] ensures WellFramed(Data, m) { StreamMessages(c, a, g, out, s, m); }
    assert out.streams[s] == Flatten(out.finished[s]);
    RoundTrip(Data, out.finished[s]);
  }

  lemma IdleIncoming(c: Config, n: Net, p: uint32, q: uint32)
    requires ValidConfig(c) && Network.Inv(c, n) && p in c.processes && q in c.processes && IdleBetween(c, n, p, q)
    ensures multiset(Filter(n.nodes[(GetClusterRank(q), GatewayOf(c, p))].incoming, FromTo(p, q)))
            == multiset(Filter(n.nodes[(GetClusterRank(p), GatewayOf(c, p))].out.accepted, FromTo(p, q)))
  {
    var a, b, g, ours := GetClusterRank(p), GetClusterRank(q), GatewayOf(c, p), FromTo(p, q);
    var node, out := n.nodes[(b, g)], n.nodes[(a, g)].out;
    var delivered, finished := Flatten(Deliveries(node.readers[a])), Flatten(out.finished);
    assert GatherAt(c, n, b, g, a) && OutOk(c, a, g, out);
    FilterTwice(node.incoming, FromCluster(a), ours);
    FilterSubset(Filter(node.incoming, FromCluster(a)), delivered, ours);
    FilterSubset(delivered, Filter(node.incoming, FromCluster(a)), ours);
    IdleDelivered(c, n, p, q);
    IdleBacklog(c, n, p, q);
    AcceptedSplits(out, ours);
  }

  lemma AcceptedSplits(out: Trace, ours: Frame -> bool)
    requires Conserved(out) && Filter(Backlog(out.now), ours) == []
    ensures multiset(Filter(out.accepted, ours)) == multiset(Filter(Flatten(out.finished), ours))
  {
    var backlog, finished := Backlog(out.now), Flatten(out.finished);
    assert multiset(backlog + finished) == multiset(out.accepted);
    FilterSubset(backlog + finished, out.accepted, ours);
    FilterSubset(out.accepted, backlog + finished, ours);
    FilterConcat(backlog, finished, ours);
    assert [] + Filter(finished, ours) == Filter(finished, ours);
  }

  lemma IdleArrived(c: Config, node: Node, arrived: seq<Frame>, p: uint32, q: uint32)
    requires ValidConfig(c) && node.forwarded == |node.incoming|
    requires DeliverOk(c, node, arrived, |SentTo(node, q)|, GatewayOf(c, p), q)
    ensures Filter(arrived, FromTo(p, q)) == Filter(node.incoming, FromTo(p, q))
  {
    assert node.incoming[..node.forwarded] == node.incoming;
    assert SentTo(node, q)[..|SentTo(node, q)|] == SentTo(node, q);
    FilterTwice(arrived, Via(c, GatewayOf(c, p)), FromTo(p, q));
    FilterTwice(node.incoming, To(q), FromTo(p, q));
  }

  lemma SameSize<T>(a: seq<T>, b: seq<T>)
    requires a <= b && multiset(a) == multiset(b)
    ensures a == b
  {
    assert |multiset(a)| == |a| && |multiset(b)| == |b|;
  }

  /**
   Nothing is lost, for any number of streams: once the path is idle, q has got exactly what p
   sent it; and in the order in which p sent it, if at most one stream leads there.
   */
  lemma IdleMeansDelivered(c: Config, init: Net, steps: seq<Step>, n: Net, p: uint32, q: uint32)
    requires ValidConfig(c) && Initial(c, init) && Runs(c, init, steps, n) && p in c.processes && q in c.processes
    requires Shape(c, n) && IdleBetween(c, n, p, q)
    ensures multiset(Filter(n.arrived[q], FromTo(p, q))) == multiset(Filter(n.sent[p], FromTo(p, q)))
    ensures AtMostOneStream(StreamsOf(c, GetClusterRank(p), GatewayOf(c, p)), GetClusterRank(q)) ==>
              Filter(n.arrived[q], FromTo(p, q)) == Filter(n.sent[p], FromTo(p, q))
  {
    InitialInv(c, init);
    Network.RunKeepsInv(c, init, steps, n);
    IdleConserves(c, n, p, q);
    if AtMostOneStream(StreamsOf(c, GetClusterRank(p), GatewayOf(c, p)), GetClusterRank(q)) {
      InvIsOrder(c, n, p, q);
      SameSize(Filter(n.arrived[q], FromTo(p, q)), Filter(n.sent[p], FromTo(p, q)));
    }
  }

  lemma IdleConserves(c: Config, n: Net, p: uint32, q: uint32)
    requires ValidConfig(c) && Network.Inv(c, n) && p in c.processes && q in c.processes && IdleBetween(c, n, p, q)
    ensures multiset(Filter(n.arrived[q], FromTo(p, q))) == multiset(Filter(n.sent[p], FromTo(p, q)))
  {
    var a, b, g := GetClusterRank(p), GetClusterRank(q), GatewayOf(c, p);
    assert DeliverOk(c, n.nodes[(b, g)], n.arrived[q], n.received[(g, q)], g, q);
    IdleArrived(c, n.nodes[(b, g)], n.arrived[q], p, q);
    IdleIncoming(c, n, p, q);
    assert IntakeOk(c, n.sent[p], n.taken[p], IntakeNode(c, n, p).out.accepted, p);
    assert n.sent[p][..n.taken[p]] == n.sent[p];
    FilterTwice(n.nodes[(a, g)].out.accepted, From(p), FromTo(p, q));
  }

  /** No gateway ever receives a message for another cluster, so forwarding never fails on that account. */
  lemma NeverMisrouted(c: Config, init: Net, steps: seq<Step>, n: Net, a: nat, g: nat)
    requires ValidConfig(c) && Initial(c, init) && Runs(c, init, steps, n) && a < c.clusters && g < c.gateways
    ensures (a, g) in n.nodes
    ensures forall m :: m in n.nodes[(a, g)].incoming ==> IsDataMessage(m) && GetClusterRank(DstPid(m)) == a
  {
    InitialInv(c, init);
    Network.RunKeepsInv(c, init, steps, n);
    assert InOk(c, a, g, n.nodes[(a, g)]);
  }
}
