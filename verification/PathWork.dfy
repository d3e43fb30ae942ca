/**
 How much there is to do until every message has arrived: a measure of the states of the path that
 every step lowers that brings some message closer to its destination.
 */
module PathWork {
  import opened Common
  import opened Messages
  import opened Ranks
  import opened Framing
  import opened Gateway
  import opened Network
  import opened Sums

  /** A step that brings some message closer to its destination. */
  ghost predicate Advances(c: Config, n: Net, s: Step)
    requires ValidConfig(c) && Shape(c, n)
  {
    CanStep(c, n, s) && match s
      case AppSend(_) => false
      case Drive(a, g, PrepareSlot(i)) => Prepare(n.nodes[(a, g)].out.now, i) != n.nodes[(a, g)].out.now
      case StreamRead(_, _, _, _, count) => count > 0
      case _ => true
  }

  // ---- the work left, stage by stage ----

  /** Taking a message in, preparing it, and writing and reading its bytes. */
  function PoolWork(ms: seq<Frame>): nat { 4 * |Flatten(ms)| + 2 * |ms| }

  function PoolOf(n: Net, p: nat): nat {
    if p < 0x1_0000_0000 && p in n.sent && p in n.taken && n.taken[p] <= |n.sent[p]|
    then PoolWork(n.sent[p][n.taken[p]..]) else 0
  }

  function QueueWork(ms: seq<Frame>): nat { 4 * |Flatten(ms)| + |ms| }

  function SlotWork(slot: Slot): nat {
    if slot.out.Some? && slot.outPos <= |slot.out.value| then 4 * (|slot.out.value| - slot.outPos) else 0
  }

  function SlotAt(slots: seq<Slot>): nat -> nat { (s: nat) => if s < |slots| then SlotWork(slots[s]) else 0 }

  function OutWork(o: Outbound): nat { QueueWork(Flatten(o.queues)) + SumTo(|o.slots|, SlotAt(o.slots)) }

  function OutOf(n: Net): (nat, nat) -> nat {
    (a: nat, g: nat) => if (a, g) in n.nodes then OutWork(n.nodes[(a, g)].out.now) else 0
  }

  /** Bytes that are on stream s of gateway (a, g) and have not been read. */
  function UnreadAt(c: Config, n: Net, a: nat, g: nat): nat -> nat {
    (s: nat) =>
      var peers := StreamsOf(c, a, g);
      if s < |peers| && (a, g) in n.nodes && (peers[s], g) in n.nodes
      then Unread(n.nodes[(a, g)].out.streams, n.nodes[(peers[s], g)].readers, a, s) else 0
  }

  function Unread(streams: seq<seq<byte>>, readers: seq<seq<Reader>>, a: nat, s: nat): nat {
    if s < |streams| && a < |readers| && s < |readers[a]| && readers[a][s].consumed <= |streams[s]|
    then 3 * (|streams[s]| - readers[a][s].consumed) else 0
  }

  function UnreadOf(c: Config, n: Net): (nat, nat) -> nat {
    (a: nat, g: nat) => SumTo(|StreamsOf(c, a, g)|, UnreadAt(c, n, a, g))
  }

  function Waiting(node: Node): nat {
    if node.forwarded <= |node.incoming| then 2 * (|node.incoming| - node.forwarded) else 0
  }

  function InOf(n: Net): (nat, nat) -> nat {
    (a: nat, g: nat) => if (a, g) in n.nodes then Waiting(n.nodes[(a, g)]) else 0
  }

  function ToOf(c: Config, n: Net): (nat, nat) -> nat {
    (g: nat, q: nat) =>
      if q < 0x1_0000_0000 && q in c.processes && (GetClusterRank(q), g) in n.nodes && (g, q) in n.received
      then Undelivered(n.nodes[(GetClusterRank(q), g)], n.received[(g, q)], q) else 0
  }

  function Undelivered(node: Node, received: nat, q: uint32): nat {
    if node.forwarded <= |node.incoming| && received <= |SentTo(node, q)| then |SentTo(node, q)| - received else 0
  }

  function Pool(n: Net): nat -> nat { p => PoolOf(n, p) }

  /** The five stages of the path. */
  datatype Stages = Stages(pool: nat -> nat, out: (nat, nat) -> nat, unread: (nat, nat) -> nat,
                           waiting: (nat, nat) -> nat, sent: (nat, nat) -> nat)

  function StagesOf(c: Config, n: Net): Stages { Stages(Pool(n), OutOf(n), UnreadOf(c, n), InOf(n), ToOf(c, n)) }

  function TotalOf(c: Config, top: nat, s: Stages): nat {
    SumTo(top, s.pool) + Sum2(c.clusters, c.gateways, s.out) + Sum2(c.clusters, c.gateways, s.unread)
    + Sum2(c.clusters, c.gateways, s.waiting) + Sum2(c.gateways, top, s.sent)
  }

  /** By how much each stage changes. */
  ghost predicate StagesBy(c: Config, s: Stages, s': Stages, top: nat, pool: int, out: int, unread: int, waiting: int,
                           sent: int)
  {
    && TotalBy(top, s.pool, s'.pool, pool)
    && Total2By(c.clusters, c.gateways, s.out, s'.out, out)
    && Total2By(c.clusters, c.gateways, s.unread, s'.unread, unread)
    && Total2By(c.clusters, c.gateways, s.waiting, s'.waiting, waiting)
    && Total2By(c.gateways, top, s.sent, s'.sent, sent)
  }

  /** The changes add up to less work. */
  lemma LessWork(c: Config, s: Stages, s': Stages, top: nat, pool: int, out: int, unread: int, waiting: int, sent: int)
    requires StagesBy(c, s, s', top, pool, out, unread, waiting, sent) && pool + out + unread + waiting + sent < 0
    ensures TotalOf(c, top, s') < TotalOf(c, top, s)
  {
    assert Total(top, s.pool, SumTo(top, s.pool));
    assert Total2(c.clusters, c.gateways, s.out, Sum2(c.clusters, c.gateways, s.out));
    assert Total2(c.clusters, c.gateways, s.unread, Sum2(c.clusters, c.gateways, s.unread));
    assert Total2(c.clusters, c.gateways, s.waiting, Sum2(c.clusters, c.gateways, s.waiting));
    assert Total2(c.gateways, top, s.sent, Sum2(c.gateways, top, s.sent));
  }

  ghost predicate Falls(c: Config, s: Stages, s': Stages, top: nat) {
    exists pool: int, out: int, unread: int, waiting: int, sent: int ::
      StagesBy(c, s, s', top, pool, out, unread, waiting, sent) && pool + out + unread + waiting + sent < 0
  }


  // ---- what one step does to it ----

  lemma AcceptWork(o: Outbound, m: Frame)
    requires WellFramed(Data, m) && GetClusterRank(DstPid(m)) < |o.queues|
    ensures OutWork(Accept(o, m)) == OutWork(o) + 4 * |m| + 1
  {
    var b := GetClusterRank(DstPid(m));
    GrownConcat(o.queues[b], [m]);
    GrowBin(o.queues, b, o.queues[b] + [m], [m]);
    FlattenOne(m);
  }

  lemma PrepareWork(o: Outbound, s: nat)
    requires s < |o.slots| && o.slots[s].peer < |o.queues| && Prepare(o, s) != o
    ensures OutWork(Prepare(o, s)) == OutWork(o) - 1
  {
    var o', b := Prepare(o, s), o.slots[s].peer;
    var m := o.queues[b][0];
    assert o.queues[b] == [m] + o.queues[b][1..] && o'.queues[b := o.queues[b]] == o.queues;
    GrownConcat([m], o.queues[b][1..]);
    GrowBin(o'.queues, b, o.queues[b], [m]);
    FlattenOne(m);
    SumChanges(|o.slots|, SlotAt(o.slots), SlotAt(o'.slots), s, 4 * |m|);
  }

  lemma WriteWork(o: Outbound, s: nat, n: nat)
    requires MayWrite(o, s, n)
    ensures OutWork(Write(o, s, n)) == OutWork(o) - 4 * n
  {
    SumChanges(|o.slots|, SlotAt(o.slots), SlotAt(Write(o, s, n).slots), s, -4 * n);
  }

  /** Reading n bytes delivers at most n messages. */
  lemma {:induction false} FeedCount(p: Parser, bs: seq<byte>)
    ensures |FeedAll(Data, p, bs).delivered| <= |p.delivered| + |bs|
  {
    if bs != [] { FeedCount(p, bs[..|bs| - 1]); }
  }

  lemma PoolShrinks(sent: seq<Frame>, k: nat)
    requires k < |sent|
    ensures PoolWork(sent[k + 1..]) == PoolWork(sent[k..]) - 4 * |sent[k]| - 2
  {
    assert sent[k..] == [sent[k]] + sent[k + 1..];
    FlattenConcat([sent[k]], sent[k + 1..]);
    FlattenOne(sent[k]);
  }

  // Stages that a step does not touch.

  ghost predicate SameStreams(c: Config, n: Net, n': Net)
    requires ValidConfig(c) && Shape(c, n) && Shape(c, n')
  {
    forall a: nat, g: nat :: a < c.clusters && g < c.gateways ==>
      && n'.nodes[(a, g)].out.streams == n.nodes[(a, g)].out.streams
      && n'.nodes[(a, g)].readers == n.nodes[(a, g)].readers
  }

  ghost predicate SameQueues(c: Config, n: Net, n': Net)
    requires ValidConfig(c) && Shape(c, n) && Shape(c, n')
  {
    forall a: nat, g: nat :: a < c.clusters && g < c.gateways ==>
      && n'.nodes[(a, g)].incoming == n.nodes[(a, g)].incoming
      && n'.nodes[(a, g)].forwarded == n.nodes[(a, g)].forwarded
  }

  lemma PoolStays(n: Net, n': Net, top: nat)
    requires n'.sent == n.sent && n'.taken == n.taken
    ensures TotalBy(top, Pool(n), Pool(n'), 0)
  {
    SumChanges(top, Pool(n), Pool(n'), top, 0);
  }

  lemma OutStays(c: Config, n: Net, n': Net)
    requires ValidConfig(c) && Shape(c, n) && Shape(c, n') && SameOuts(c, n, n')
    ensures Total2By(c.clusters, c.gateways, OutOf(n), OutOf(n'), 0)
  {
    Sum2Same(c.clusters, c.gateways, OutOf(n), OutOf(n'));
  }

  lemma UnreadStays(c: Config, n: Net, n': Net)
    requires ValidConfig(c) && Shape(c, n) && Shape(c, n') && SameStreams(c, n, n')
    ensures Total2By(c.clusters, c.gateways, UnreadOf(c, n), UnreadOf(c, n'), 0)
  {
    forall a: nat, g: nat | a < c.clusters && g < c.gateways ensures UnreadOf(c, n')(a, g) == UnreadOf(c, n)(a, g) {
      var k := |StreamsOf(c, a, g)|;
      SumChanges(k, UnreadAt(c, n, a, g), UnreadAt(c, n', a, g), k, 0);
    }
    Sum2Same(c.clusters, c.gateways, UnreadOf(c, n), UnreadOf(c, n'));
  }

  lemma InStays(c: Config, n: Net, n': Net)
    requires ValidConfig(c) && Shape(c, n) && Shape(c, n') && SameQueues(c, n, n')
    ensures Total2By(c.clusters, c.gateways, InOf(n), InOf(n'), 0)
  {
    Sum2Same(c.clusters, c.gateways, InOf(n), InOf(n'));
  }

  /** By how much the messages that gateway g has sent to q and q has not received change. */
  ghost predicate ToMoves(c: Config, n: Net, n': Net, g: nat, q: nat, d: int) {
    ToOf(c, n')(g, q) == ToOf(c, n)(g, q) + d
  }

  lemma ToMovesBy(c: Config, n: Net, n': Net, g: nat, q: uint32, node: Node, node': Node, d: int)
    requires ValidConfig(c) && Shape(c, n) && Shape(c, n') && g < c.gateways && q in c.processes
    requires node == n.nodes[(GetClusterRank(q), g)] && node' == n'.nodes[(GetClusterRank(q), g)]
    requires Undelivered(node', n'.received[(g, q)], q) == Undelivered(node, n.received[(g, q)], q) + d
    ensures ToMoves(c, n, n', g, q, d)
  {}

  lemma ToStays(c: Config, n: Net, n': Net, top: nat)
    requires forall g: nat, q: nat :: g < c.gateways && q in c.processes ==> ToMoves(c, n, n', g, q, 0)
    ensures Total2By(c.gateways, top, ToOf(c, n), ToOf(c, n'), 0)
  {
    forall g: nat, q: nat | g < c.gateways && q < top ensures ToOf(c, n')(g, q) == ToOf(c, n)(g, q) {
      if q in c.processes { assert ToMoves(c, n, n', g, q, 0); }
    }
    Sum2Same(c.gateways, top, ToOf(c, n), ToOf(c, n'));
  }

  lemma ToChanges(c: Config, n: Net, n': Net, g: nat, q: nat, d: int, top: nat)
    requires g < c.gateways && q < top && ToMoves(c, n, n', g, q, d)
    requires forall h: nat, r: nat ::
               h < c.gateways && r in c.processes && (h, r) != (g, q) ==> ToMoves(c, n, n', h, r, 0)
    ensures Total2By(c.gateways, top, ToOf(c, n), ToOf(c, n'), d)
  {
    forall h: nat, r: nat | h < c.gateways && r < top && (h, r) != (g, q)
      ensures ToOf(c, n')(h, r) == ToOf(c, n)(h, r)
    {
      if r in c.processes { assert ToMoves(c, n, n', h, r, 0); }
    }
    Sum2Changes(c.gateways, top, ToOf(c, n), ToOf(c, n'), g, q, d);
  }

  lemma SameUndelivered(node: Node, node': Node, received: nat, q: uint32)
    requires node'.forwarded == node.forwarded && node.incoming <= node'.incoming
    requires node.forwarded <= |node.incoming|
    ensures Undelivered(node', received, q) == Undelivered(node, received, q)
  {
    assert node'.incoming[..node.forwarded] == node.incoming[..node.forwarded];
  }

  // The steps.

  lemma StepKeepsShape(c: Config, n: Net, s: Step)
    requires ValidConfig(c) && Network.Inv(c, n) && CanStep(c, n, s)
    ensures Shape(c, Next(c, n, s))
  {
    StepKeepsInv(c, n, s);
  }

  /** Only the outbound side of gateway (a, g) has changed. */
  ghost predicate OnlyOut(c: Config, n: Net, n': Net, a: nat, g: nat, out: Trace)
    requires ValidConfig(c) && Shape(c, n) && Shape(c, n')
  {
    && a < c.clusters && g < c.gateways && n'.received == n.received
    && n'.nodes[(a, g)] == n.nodes[(a, g)].(out := out)
    && forall x: nat, y: nat :: x < c.clusters && y < c.gateways && (x, y) != (a, g) ==>
         n'.nodes[(x, y)] == n.nodes[(x, y)]
  }

  lemma OutChangesAt(c: Config, n: Net, n': Net, a: nat, g: nat, out: Trace, d: int)
    requires ValidConfig(c) && Shape(c, n) && Shape(c, n') && OnlyOut(c, n, n', a, g, out)
    requires OutWork(out.now) == OutWork(n.nodes[(a, g)].out.now) + d
    ensures ChangesAt(c.clusters, c.gateways, OutOf(n), OutOf(n'), a, g, d)
  {}

  lemma OutChanges(c: Config, n: Net, n': Net, a: nat, g: nat, out: Trace, d: int)
    requires ValidConfig(c) && Shape(c, n) && Shape(c, n') && OnlyOut(c, n, n', a, g, out)
    requires OutWork(out.now) == OutWork(n.nodes[(a, g)].out.now) + d
    ensures Total2By(c.clusters, c.gateways, OutOf(n), OutOf(n'), d)
  {
    OutChangesAt(c, n, n', a, g, out, d);
    Sum2Changes(c.clusters, c.gateways, OutOf(n), OutOf(n'), a, g, d);
  }

  lemma InboundStays(c: Config, n: Net, n': Net, a: nat, g: nat, out: Trace, top: nat)
    requires ValidConfig(c) && Shape(c, n) && Shape(c, n') && OnlyOut(c, n, n', a, g, out)
    ensures Total2By(c.clusters, c.gateways, InOf(n), InOf(n'), 0)
    ensures Total2By(c.gateways, top, ToOf(c, n), ToOf(c, n'), 0)
  {
    assert SameQueues(c, n, n');
    InStays(c, n, n');
    forall h: nat, q: nat | h < c.gateways && q in c.processes ensures ToMoves(c, n, n', h, q, 0) {
      QueuesStayAt(c, n, n', h, q);
    }
    ToStays(c, n, n', top);
  }

  lemma QueuesStayAt(c: Config, n: Net, n': Net, g: nat, q: uint32)
    requires ValidConfig(c) && Shape(c, n) && Shape(c, n') && SameQueues(c, n, n') && n'.received == n.received
    requires g < c.gateways && q in c.processes
    ensures ToMoves(c, n, n', g, q, 0)
  {
    var node, node' := n.nodes[(GetClusterRank(q), g)], n'.nodes[(GetClusterRank(q), g)];
    SameTo(node, node', n.received[(g, q)], q);
    ToMovesBy(c, n, n', g, q, node, node', 0);
  }

  lemma SameTo(node: Node, node': Node, received: nat, q: uint32)
    requires node'.forwarded == node.forwarded && node'.incoming == node.incoming
    ensures Undelivered(node', received, q) == Undelivered(node, received, q)
  {}

  lemma StreamsStay(c: Config, n: Net, n': Net, a: nat, g: nat, out: Trace)
    requires ValidConfig(c) && Shape(c, n) && Shape(c, n') && OnlyOut(c, n, n', a, g, out)
    requires out.streams == n.nodes[(a, g)].out.streams
    ensures Total2By(c.clusters, c.gateways, UnreadOf(c, n), UnreadOf(c, n'), 0)
  {
    assert SameStreams(c, n, n');
    UnreadStays(c, n, n');
  }

  lemma PoolChanges(n: Net, n': Net, p: uint32, d: int, top: nat)
    requires p < top && p in n.sent && p in n.taken && n.taken[p] < |n.sent[p]|
    requires n'.sent == n.sent && n'.taken == n.taken[p := n.taken[p] + 1]
    requires d == -4 * |n.sent[p][n.taken[p]]| - 2
    ensures TotalBy(top, Pool(n), Pool(n'), d)
  {
    PoolShrinks(n.sent[p], n.taken[p]);
    SumChanges(top, Pool(n), Pool(n'), p, d);
  }

  /** An action of gateway (a, g) that writes nothing. */
  lemma SilentStages(c: Config, n: Net, n': Net, a: nat, g: nat, out: Trace, d: int, top: nat)
    requires ValidConfig(c) && Shape(c, n) && Shape(c, n') && OnlyOut(c, n, n', a, g, out)
    requires OutWork(out.now) == OutWork(n.nodes[(a, g)].out.now) + d
    requires out.streams == n.nodes[(a, g)].out.streams
    ensures Total2By(c.clusters, c.gateways, OutOf(n), OutOf(n'), d)
    ensures Total2By(c.clusters, c.gateways, UnreadOf(c, n), UnreadOf(c, n'), 0)
    ensures Total2By(c.clusters, c.gateways, InOf(n), InOf(n'), 0)
    ensures Total2By(c.gateways, top, ToOf(c, n), ToOf(c, n'), 0)
  {
    OutChanges(c, n, n', a, g, out, d);
    StreamsStay(c, n, n', a, g, out);
    InboundStays(c, n, n', a, g, out, top);
  }

  lemma SilentFalls(c: Config, n: Net, n': Net, a: nat, g: nat, out: Trace, pool: int, d: int, top: nat)
    requires ValidConfig(c) && Shape(c, n) && Shape(c, n') && OnlyOut(c, n, n', a, g, out)
    requires TotalBy(top, Pool(n), Pool(n'), pool) && pool + d < 0
    requires OutWork(out.now) == OutWork(n.nodes[(a, g)].out.now) + d
    requires out.streams == n.nodes[(a, g)].out.streams
    ensures Falls(c, StagesOf(c, n), StagesOf(c, n'), top)
  {
    SilentStages(c, n, n', a, g, out, d, top);
    assert StagesBy(c, StagesOf(c, n), StagesOf(c, n'), top, pool, d, 0, 0, 0);
  }

  /** Only stream s of gateway (a, g) has other unread bytes than before. */
  lemma UnreadChanges(c: Config, n: Net, n': Net, a: nat, g: nat, s: nat, d: int)
    requires a < c.clusters && g < c.gateways && s < |StreamsOf(c, a, g)|
    requires UnreadAt(c, n', a, g)(s) == UnreadAt(c, n, a, g)(s) + d
    requires forall x: nat, y: nat, i: nat ::
               x < c.clusters && y < c.gateways && i < |StreamsOf(c, x, y)| && (x, y, i) != (a, g, s) ==>
               UnreadAt(c, n', x, y)(i) == UnreadAt(c, n, x, y)(i)
    ensures Total2By(c.clusters, c.gateways, UnreadOf(c, n), UnreadOf(c, n'), d)
  {
    forall x: nat, y: nat | x < c.clusters && y < c.gateways && (x, y) != (a, g)
      ensures UnreadOf(c, n')(x, y) == UnreadOf(c, n)(x, y)
    {
      var k := |StreamsOf(c, x, y)|;
      SumChanges(k, UnreadAt(c, n, x, y), UnreadAt(c, n', x, y), k, 0);
    }
    SumChanges(|StreamsOf(c, a, g)|, UnreadAt(c, n, a, g), UnreadAt(c, n', a, g), s, d);
    Sum2Changes(c.clusters, c.gateways, UnreadOf(c, n), UnreadOf(c, n'), a, g, d);
  }

  lemma UnreadElsewhere(c: Config, n: Net, n': Net, x: nat, y: nat, i: nat)
    requires ValidConfig(c) && Shape(c, n) && Shape(c, n') && x < c.clusters && y < c.gateways
    requires i < |StreamsOf(c, x, y)|
    requires |n'.nodes[(x, y)].out.streams| == |n.nodes[(x, y)].out.streams|
    requires i < |n.nodes[(x, y)].out.streams| ==>
               n'.nodes[(x, y)].out.streams[i] == n.nodes[(x, y)].out.streams[i]
    requires var b := StreamsOf(c, x, y)[i]; n'.nodes[(b, y)].readers[x][i] == n.nodes[(b, y)].readers[x][i]
    ensures UnreadAt(c, n', x, y)(i) == UnreadAt(c, n, x, y)(i)
  {}

  lemma WriteUnreadHere(c: Config, n: Net, n': Net, a: nat, g: nat, out: Trace, s: nat, chunk: seq<byte>)
    requires ValidConfig(c) && Shape(c, n) && Shape(c, n') && OnlyOut(c, n, n', a, g, out)
    requires s < |n.nodes[(a, g)].out.streams| == |StreamsOf(c, a, g)|
    requires ReadAt(c, n, StreamsOf(c, a, g)[s], g, a, s)
    requires out.streams == n.nodes[(a, g)].out.streams[s := n.nodes[(a, g)].out.streams[s] + chunk]
    ensures UnreadAt(c, n', a, g)(s) == UnreadAt(c, n, a, g)(s) + 3 * |chunk|
  {
    var b := StreamsOf(c, a, g)[s];
    assert n'.nodes[(b, g)].readers == n.nodes[(b, g)].readers;
  }

  lemma WriteUnread(c: Config, n: Net, n': Net, a: nat, g: nat, out: Trace, s: nat, chunk: seq<byte>)
    requires ValidConfig(c) && Shape(c, n) && Shape(c, n') && OnlyOut(c, n, n', a, g, out)
    requires s < |n.nodes[(a, g)].out.streams| == |StreamsOf(c, a, g)|
    requires ReadAt(c, n, StreamsOf(c, a, g)[s], g, a, s)
    requires out.streams == n.nodes[(a, g)].out.streams[s := n.nodes[(a, g)].out.streams[s] + chunk]
    ensures Total2By(c.clusters, c.gateways, UnreadOf(c, n), UnreadOf(c, n'), 3 * |chunk|)
  {
    forall x: nat, y: nat, i: nat | x < c.clusters && y < c.gateways && i < |StreamsOf(c, x, y)|
        && (x, y, i) != (a, g, s)
      ensures UnreadAt(c, n', x, y)(i) == UnreadAt(c, n, x, y)(i)
    {
      var b := StreamsOf(c, x, y)[i];
      assert n'.nodes[(b, y)].readers == n.nodes[(b, y)].readers;
      UnreadElsewhere(c, n, n', x, y, i);
    }
    WriteUnreadHere(c, n, n', a, g, out, s, chunk);
    UnreadChanges(c, n, n', a, g, s, 3 * |chunk|);
  }

  lemma WriteStages(c: Config, n: Net, n': Net, a: nat, g: nat, out: Trace, s: nat, chunk: seq<byte>, top: nat)
    requires ValidConfig(c) && Shape(c, n) && Shape(c, n') && OnlyOut(c, n, n', a, g, out) && chunk != []
    requires n'.sent == n.sent && n'.taken == n.taken
    requires OutWork(out.now) == OutWork(n.nodes[(a, g)].out.now) - 4 * |chunk|
    requires s < |n.nodes[(a, g)].out.streams| == |StreamsOf(c, a, g)|
    requires ReadAt(c, n, StreamsOf(c, a, g)[s], g, a, s)
    requires out.streams == n.nodes[(a, g)].out.streams[s := n.nodes[(a, g)].out.streams[s] + chunk]
    ensures Falls(c, StagesOf(c, n), StagesOf(c, n'), top)
  {
    PoolStays(n, n', top);
    OutChanges(c, n, n', a, g, out, -4 * |chunk|);
    WriteUnread(c, n, n', a, g, out, s, chunk);
    InboundStays(c, n, n', a, g, out, top);
    assert StagesBy(c, StagesOf(c, n), StagesOf(c, n'), top, 0, -4 * |chunk|, 3 * |chunk|, 0, 0);
  }

  lemma IntakeFalls(c: Config, n: Net, n': Net, p: uint32, top: nat)
    requires ValidConfig(c) && Shape(c, n) && Shape(c, n') && CanStep(c, n, Intake(p)) && p < top
    requires n' == Next(c, n, Intake(p))
    ensures Falls(c, StagesOf(c, n), StagesOf(c, n'), top)
  {
    var a, g, m := GetClusterRank(p), GatewayOf(c, p), n.sent[p][n.taken[p]];
    AcceptWork(n.nodes[(a, g)].out.now, m);
    PoolChanges(n, n', p, -4 * |m| - 2, top);
    SilentFalls(c, n, n', a, g, Do(n.nodes[(a, g)].out, AcceptMessage(m)), -4 * |m| - 2, 4 * |m| + 1, top);
  }

  lemma PrepareFalls(c: Config, n: Net, n': Net, a: nat, g: nat, s: nat, top: nat)
    requires ValidConfig(c) && Shape(c, n) && Shape(c, n') && Advances(c, n, Drive(a, g, PrepareSlot(s)))
    requires n' == Next(c, n, Drive(a, g, PrepareSlot(s)))
    ensures Falls(c, StagesOf(c, n), StagesOf(c, n'), top)
  {
    PrepareWork(n.nodes[(a, g)].out.now, s);
    PoolStays(n, n', top);
    SilentFalls(c, n, n', a, g, Do(n.nodes[(a, g)].out, PrepareSlot(s)), 0, -1, top);
  }

  lemma WriteFalls(c: Config, n: Net, n': Net, a: nat, g: nat, s: nat, k: nat, top: nat)
    requires ValidConfig(c) && Shape(c, n) && Shape(c, n') && ReadInv(c, n)
    requires CanStep(c, n, Drive(a, g, WriteBytes(s, k))) && n' == Next(c, n, Drive(a, g, WriteBytes(s, k)))
    ensures Falls(c, StagesOf(c, n), StagesOf(c, n'), top)
  {
    var out := n.nodes[(a, g)].out;
    var slot := out.now.slots[s];
    WriteWork(out.now, s, k);
    assert |Peers(out.now)| == |StreamsOf(c, a, g)|;
    assert ReadAt(c, n, StreamsOf(c, a, g)[s], g, a, s);
    WriteStages(c, n, n', a, g, Do(out, WriteBytes(s, k)), s, slot.out.value[slot.outPos..slot.outPos + k], top);
  }

  /** Only the inbound side of gateway (a, g) has changed. */
  ghost predicate OnlyIn(c: Config, n: Net, n': Net, a: nat, g: nat, node: Node)
    requires ValidConfig(c) && Shape(c, n) && Shape(c, n')
  {
    && a < c.clusters && g < c.gateways && n'.sent == n.sent && n'.taken == n.taken && n'.received == n.received
    && n'.nodes[(a, g)] == node && node.out == n.nodes[(a, g)].out
    && forall x: nat, y: nat :: x < c.clusters && y < c.gateways && (x, y) != (a, g) ==>
         n'.nodes[(x, y)] == n.nodes[(x, y)]
  }

  lemma InChangesAt(c: Config, n: Net, n': Net, a: nat, g: nat, node: Node, d: int)
    requires ValidConfig(c) && Shape(c, n) && Shape(c, n') && OnlyIn(c, n, n', a, g, node)
    requires Waiting(node) == Waiting(n.nodes[(a, g)]) + d
    ensures ChangesAt(c.clusters, c.gateways, InOf(n), InOf(n'), a, g, d)
  {}

  lemma InChanges(c: Config, n: Net, n': Net, a: nat, g: nat, node: Node, d: int)
    requires ValidConfig(c) && Shape(c, n) && Shape(c, n') && OnlyIn(c, n, n', a, g, node)
    requires Waiting(node) == Waiting(n.nodes[(a, g)]) + d
    ensures Total2By(c.clusters, c.gateways, InOf(n), InOf(n'), d)
  {
    InChangesAt(c, n, n', a, g, node, d);
    Sum2Changes(c.clusters, c.gateways, InOf(n), InOf(n'), a, g, d);
  }

  lemma OutboundStays(c: Config, n: Net, n': Net, a: nat, g: nat, node: Node, top: nat)
    requires ValidConfig(c) && Shape(c, n) && Shape(c, n') && OnlyIn(c, n, n', a, g, node)
    ensures TotalBy(top, Pool(n), Pool(n'), 0)
    ensures Total2By(c.clusters, c.gateways, OutOf(n), OutOf(n'), 0)
  {
    PoolStays(n, n', top);
    assert SameOuts(c, n, n');
    OutStays(c, n, n');
  }

  lemma ReadUnreadHere(c: Config, n: Net, n': Net, a: nat, g: nat, node: Node, from: nat, s: nat, r: Reader, count: nat)
    requires ValidConfig(c) && Shape(c, n) && Shape(c, n') && OnlyIn(c, n, n', a, g, node)
    requires from < c.clusters && s < |StreamsOf(c, from, g)| && StreamsOf(c, from, g)[s] == a
    requires s < |n.nodes[(from, g)].out.streams|
    requires r.consumed == n.nodes[(a, g)].readers[from][s].consumed + count <= |n.nodes[(from, g)].out.streams[s]|
    requires node.readers == n.nodes[(a, g)].readers[from := n.nodes[(a, g)].readers[from][s := r]]
    ensures UnreadAt(c, n', from, g)(s) == UnreadAt(c, n, from, g)(s) - 3 * count
  {
    assert n'.nodes[(from, g)].out == n.nodes[(from, g)].out;
  }

  lemma ReadUnreadElsewhere(c: Config, n: Net, n': Net, a: nat, g: nat, node: Node, from: nat, s: nat, r: Reader,
                            x: nat, y: nat, i: nat)
    requires ValidConfig(c) && Shape(c, n) && Shape(c, n') && OnlyIn(c, n, n', a, g, node)
    requires from < c.clusters && s < |StreamsOf(c, from, g)| && StreamsOf(c, from, g)[s] == a
    requires node.readers == n.nodes[(a, g)].readers[from := n.nodes[(a, g)].readers[from][s := r]]
    requires x < c.clusters && y < c.gateways && i < |StreamsOf(c, x, y)| && (x, y, i) != (from, g, s)
    ensures UnreadAt(c, n', x, y)(i) == UnreadAt(c, n, x, y)(i)
  {
    var b := StreamsOf(c, x, y)[i];
    assert n'.nodes[(x, y)].out == n.nodes[(x, y)].out;
    assert n'.nodes[(b, y)].readers[x][i] == n.nodes[(b, y)].readers[x][i];
    UnreadElsewhere(c, n, n', x, y, i);
  }

  lemma ReadUnread(c: Config, n: Net, n': Net, a: nat, g: nat, node: Node, from: nat, s: nat, r: Reader, count: nat)
    requires ValidConfig(c) && Shape(c, n) && Shape(c, n') && OnlyIn(c, n, n', a, g, node)
    requires from < c.clusters && s < |StreamsOf(c, from, g)| && StreamsOf(c, from, g)[s] == a
    requires s < |n.nodes[(from, g)].out.streams|
    requires r.consumed == n.nodes[(a, g)].readers[from][s].consumed + count <= |n.nodes[(from, g)].out.streams[s]|
    requires node.readers == n.nodes[(a, g)].readers[from := n.nodes[(a, g)].readers[from][s := r]]
    ensures Total2By(c.clusters, c.gateways, UnreadOf(c, n), UnreadOf(c, n'), -3 * count)
  {
    forall x: nat, y: nat, i: nat
      | x < c.clusters && y < c.gateways && i < |StreamsOf(c, x, y)| && (x, y, i) != (from, g, s)
      ensures UnreadAt(c, n', x, y)(i) == UnreadAt(c, n, x, y)(i)
    {
      ReadUnreadElsewhere(c, n, n', a, g, node, from, s, r, x, y, i);
    }
    ReadUnreadHere(c, n, n', a, g, node, from, s, r, count);
    UnreadChanges(c, n, n', from, g, s, -3 * count);
  }

  lemma InboundGrows(c: Config, n: Net, n': Net, a: nat, g: nat, node: Node, k: nat, top: nat)
    requires ValidConfig(c) && Shape(c, n) && Shape(c, n') && InInv(c, n) && OnlyIn(c, n, n', a, g, node)
    requires node.forwarded == n.nodes[(a, g)].forwarded
    requires n.nodes[(a, g)].incoming <= node.incoming && |node.incoming| == |n.nodes[(a, g)].incoming| + k
    ensures Total2By(c.clusters, c.gateways, InOf(n), InOf(n'), 2 * k)
    ensures Total2By(c.gateways, top, ToOf(c, n), ToOf(c, n'), 0)
  {
    assert InOk(c, a, g, n.nodes[(a, g)]);
    InChanges(c, n, n', a, g, node, 2 * k);
    forall h: nat, q: nat | h < c.gateways && q in c.processes ensures ToMoves(c, n, n', h, q, 0) {
      var b := GetClusterRank(q);
      assert InOk(c, b, h, n.nodes[(b, h)]);
      if (b, h) != (a, g) { assert n'.nodes[(b, h)] == n.nodes[(b, h)]; }
      SameUndelivered(n.nodes[(b, h)], n'.nodes[(b, h)], n.received[(h, q)], q);
      ToMovesBy(c, n, n', h, q, n.nodes[(b, h)], n'.nodes[(b, h)], 0);
    }
    ToStays(c, n, n', top);
  }

  lemma ReadStages(c: Config, n: Net, n': Net, a: nat, g: nat, node: Node, from: nat, s: nat, r: Reader, count: nat,
                   k: nat, top: nat)
    requires ValidConfig(c) && Shape(c, n) && Shape(c, n') && InInv(c, n) && OnlyIn(c, n, n', a, g, node)
    requires from < c.clusters && s < |StreamsOf(c, from, g)| && StreamsOf(c, from, g)[s] == a
    requires s < |n.nodes[(from, g)].out.streams|
    requires r.consumed == n.nodes[(a, g)].readers[from][s].consumed + count <= |n.nodes[(from, g)].out.streams[s]|
    requires node.readers == n.nodes[(a, g)].readers[from := n.nodes[(a, g)].readers[from][s := r]]
    requires node.forwarded == n.nodes[(a, g)].forwarded
    requires n.nodes[(a, g)].incoming <= node.incoming && |node.incoming| == |n.nodes[(a, g)].incoming| + k
    requires k <= count && count > 0
    ensures Falls(c, StagesOf(c, n), StagesOf(c, n'), top)
  {
    OutboundStays(c, n, n', a, g, node, top);
    ReadUnread(c, n, n', a, g, node, from, s, r, count);
    InboundGrows(c, n, n', a, g, node, k, top);
    assert StagesBy(c, StagesOf(c, n), StagesOf(c, n'), top, 0, 0, -3 * count, 2 * k, 0);
  }

  lemma ReadFalls(c: Config, n: Net, n': Net, a: nat, g: nat, from: nat, s: nat, count: nat, top: nat)
    requires ValidConfig(c) && Shape(c, n) && Shape(c, n') && InInv(c, n)
    requires Advances(c, n, StreamRead(a, g, from, s, count)) && n' == Next(c, n, StreamRead(a, g, from, s, count))
    ensures Falls(c, StagesOf(c, n), StagesOf(c, n'), top)
  {
    var node, stream := n.nodes[(a, g)], n.nodes[(from, g)].out.streams[s];
    var r := node.readers[from][s];
    var r' := Advanced(r, stream, count);
    FeedCount(r.parser, stream[r.consumed..r.consumed + count]);
    ReadStages(c, n, n', a, g, ReadInto(node, from, s, stream, count), from, s, r', count,
               |NewlyDelivered(r.parser, r'.parser)|, top);
  }

  lemma ReadersStay(c: Config, n: Net, n': Net, a: nat, g: nat, node: Node)
    requires ValidConfig(c) && Shape(c, n) && Shape(c, n') && OnlyIn(c, n, n', a, g, node)
    requires node.readers == n.nodes[(a, g)].readers
    ensures Total2By(c.clusters, c.gateways, UnreadOf(c, n), UnreadOf(c, n'), 0)
  {
    assert SameStreams(c, n, n');
    UnreadStays(c, n, n');
  }

  lemma ForwardStages(c: Config, n: Net, n': Net, a: nat, g: nat, node: Node, top: nat)
    requires ValidConfig(c) && Shape(c, n) && Shape(c, n') && OnlyIn(c, n, n', a, g, node)
    requires node.readers == n.nodes[(a, g)].readers && Waiting(node) == Waiting(n.nodes[(a, g)]) - 2
    requires Total2By(c.gateways, top, ToOf(c, n), ToOf(c, n'), 1)
    ensures Falls(c, StagesOf(c, n), StagesOf(c, n'), top)
  {
    OutboundStays(c, n, n', a, g, node, top);
    ReadersStay(c, n, n', a, g, node);
    InChanges(c, n, n', a, g, node, -2);
    assert StagesBy(c, StagesOf(c, n), StagesOf(c, n'), top, 0, 0, 0, -2, 1);
  }

  lemma OneMoreSent(node: Node, node': Node, received: nat, r: uint32)
    requires node'.incoming == node.incoming && node'.forwarded == node.forwarded + 1 <= |node.incoming|
    requires received <= |SentTo(node, r)| && |node.incoming[node.forwarded]| >= HEADER_SIZE
    ensures Undelivered(node', received, r)
            == Undelivered(node, received, r) + if DstPid(node.incoming[node.forwarded]) == r then 1 else 0
  {
    var k := node.forwarded;
    assert node.incoming[..k + 1] == node.incoming[..k] + [node.incoming[k]];
    FilterSnoc(node.incoming[..k], node.incoming[k], To(r));
  }

  ghost predicate Forwarded(c: Config, n: Net, n': Net, a: nat, g: nat, node: Node, q: uint32)
    requires ValidConfig(c) && Shape(c, n) && Shape(c, n')
  {
    && OnlyIn(c, n, n', a, g, node) && q in c.processes && GetClusterRank(q) == a
    && node.incoming == n.nodes[(a, g)].incoming && node.forwarded == n.nodes[(a, g)].forwarded + 1
    && node.forwarded <= |node.incoming| && |node.incoming[node.forwarded - 1]| >= HEADER_SIZE
    && DstPid(node.incoming[node.forwarded - 1]) == q
  }

  lemma ForwardToOther(c: Config, n: Net, n': Net, a: nat, g: nat, node: Node, q: uint32, h: nat, r: uint32)
    requires ValidConfig(c) && Shape(c, n) && Shape(c, n') && Forwarded(c, n, n', a, g, node, q)
    requires DeliverInv(c, n) && h < c.gateways && r in c.processes && (h, r) != (g, q)
    ensures ToMoves(c, n, n', h, r, 0)
  {
    var b := GetClusterRank(r);
    assert DeliverOk(c, n.nodes[(b, h)], n.arrived[r], n.received[(h, r)], h, r);
    if (b, h) == (a, g) {
      OneMoreSent(n.nodes[(a, g)], node, n.received[(h, r)], r);
    } else {
      assert n'.nodes[(b, h)] == n.nodes[(b, h)];
    }
    ToMovesBy(c, n, n', h, r, n.nodes[(b, h)], n'.nodes[(b, h)], 0);
  }

  lemma ForwardToOne(c: Config, n: Net, n': Net, a: nat, g: nat, node: Node, q: uint32)
    requires ValidConfig(c) && Shape(c, n) && Shape(c, n') && Forwarded(c, n, n', a, g, node, q) && DeliverInv(c, n)
    ensures ToMoves(c, n, n', g, q, 1)
  {
    assert DeliverOk(c, n.nodes[(a, g)], n.arrived[q], n.received[(g, q)], g, q);
    OneMoreSent(n.nodes[(a, g)], node, n.received[(g, q)], q);
    ToMovesBy(c, n, n', g, q, n.nodes[(a, g)], node, 1);
  }

  lemma ForwardTo(c: Config, n: Net, n': Net, a: nat, g: nat, node: Node, q: uint32, top: nat)
    requires ValidConfig(c) && Shape(c, n) && Shape(c, n') && Forwarded(c, n, n', a, g, node, q) && DeliverInv(c, n)
    requires q < top
    ensures Total2By(c.gateways, top, ToOf(c, n), ToOf(c, n'), 1)
  {
    forall h: nat, r: nat | h < c.gateways && r in c.processes && (h, r) != (g, q) ensures ToMoves(c, n, n', h, r, 0) {
      ForwardToOther(c, n, n', a, g, node, q, h, r);
    }
    ForwardToOne(c, n, n', a, g, node, q);
    ToChanges(c, n, n', g, q, 1, top);
  }

  lemma ForwardIs(c: Config, n: Net, n': Net, a: nat, g: nat) returns (node: Node, q: uint32)
    requires ValidConfig(c) && Shape(c, n) && Shape(c, n') && InInv(c, n)
    requires CanStep(c, n, Forward(a, g)) && n' == Next(c, n, Forward(a, g))
    ensures Forwarded(c, n, n', a, g, node, q) && node.readers == n.nodes[(a, g)].readers
  {
    node := n.nodes[(a, g)];
    var m := node.incoming[node.forwarded];
    assert InOk(c, a, g, node) && m in node.incoming;
    node, q := node.(forwarded := node.forwarded + 1), DstPid(m);
  }

  lemma ForwardFalls(c: Config, n: Net, n': Net, a: nat, g: nat, top: nat)
    requires ValidConfig(c) && Shape(c, n) && Shape(c, n') && InInv(c, n) && DeliverInv(c, n)
    requires CanStep(c, n, Forward(a, g)) && n' == Next(c, n, Forward(a, g)) && forall p :: p in c.processes ==> p < top
    ensures Falls(c, StagesOf(c, n), StagesOf(c, n'), top)
  {
    var node, q := ForwardIs(c, n, n', a, g);
    ForwardTo(c, n, n', a, g, node, q, top);
    ForwardStages(c, n, n', a, g, node, top);
  }

  lemma DeliverStages(c: Config, n: Net, n': Net, top: nat)
    requires ValidConfig(c) && Shape(c, n) && Shape(c, n') && n'.nodes == n.nodes
    requires n'.sent == n.sent && n'.taken == n.taken
    requires Total2By(c.gateways, top, ToOf(c, n), ToOf(c, n'), -1)
    ensures Falls(c, StagesOf(c, n), StagesOf(c, n'), top)
  {
    PoolStays(n, n', top);
    OutStays(c, n, n');
    UnreadStays(c, n, n');
    InStays(c, n, n');
    assert StagesBy(c, StagesOf(c, n), StagesOf(c, n'), top, 0, 0, 0, 0, -1);
  }

  /** q has received one more message of gateway g. */
  ghost predicate ReceivedOne(c: Config, n: Net, n': Net, g: nat, q: uint32)
    requires ValidConfig(c) && Shape(c, n) && Shape(c, n')
  {
    && g < c.gateways && q in c.processes && n'.nodes == n.nodes && n'.sent == n.sent && n'.taken == n.taken
    && n'.received == n.received[(g, q) := n.received[(g, q)] + 1]
  }

  lemma ReceivedHere(c: Config, n: Net, n': Net, g: nat, q: uint32)
    requires ValidConfig(c) && Shape(c, n) && Shape(c, n') && ReceivedOne(c, n, n', g, q)
    requires CanStep(c, n, Deliver(g, q))
    ensures ToMoves(c, n, n', g, q, -1)
  {
    var node := n.nodes[(GetClusterRank(q), g)];
    ToMovesBy(c, n, n', g, q, node, node, -1);
  }

  lemma ReceivedElsewhere(c: Config, n: Net, n': Net, g: nat, q: uint32, h: nat, r: uint32)
    requires ValidConfig(c) && Shape(c, n) && Shape(c, n') && ReceivedOne(c, n, n', g, q)
    requires h < c.gateways && r in c.processes && (h, r) != (g, q)
    ensures ToMoves(c, n, n', h, r, 0)
  {
    var node := n.nodes[(GetClusterRank(r), h)];
    ToMovesBy(c, n, n', h, r, node, node, 0);
  }

  lemma ReceivedFalls(c: Config, n: Net, n': Net, g: nat, q: uint32, top: nat)
    requires ValidConfig(c) && Shape(c, n) && Shape(c, n') && ReceivedOne(c, n, n', g, q)
    requires ToMoves(c, n, n', g, q, -1) && q < top
    ensures Falls(c, StagesOf(c, n), StagesOf(c, n'), top)
  {
    forall h: nat, r: nat | h < c.gateways && r in c.processes && (h, r) != (g, q) ensures ToMoves(c, n, n', h, r, 0) {
      ReceivedElsewhere(c, n, n', g, q, h, r);
    }
    ToChanges(c, n, n', g, q, -1, top);
    DeliverStages(c, n, n', top);
  }

  lemma DeliverFalls(c: Config, n: Net, n': Net, g: nat, q: uint32, top: nat)
    requires ValidConfig(c) && Shape(c, n) && Shape(c, n') && CanStep(c, n, Deliver(g, q)) && q < top
    requires n' == Next(c, n, Deliver(g, q))
    ensures Falls(c, StagesOf(c, n), StagesOf(c, n'), top)
  {
    ReceivedHere(c, n, n', g, q);
    ReceivedFalls(c, n, n', g, q, top);
  }

  /** Every step that brings a message closer to its destination leaves less work. */
  lemma AdvanceFalls(c: Config, n: Net, s: Step, top: nat)
    requires ValidConfig(c) && Network.Inv(c, n) && Advances(c, n, s) && forall p :: p in c.processes ==> p < top
    ensures Falls(c, StagesOf(c, n), StagesOf(c, Next(c, n, s)), top)
  {
    var n' := Next(c, n, s);
    StepKeepsShape(c, n, s);
    match s
    case Intake(p) => IntakeFalls(c, n, n', p, top);
    case Drive(a, g, PrepareSlot(i)) => PrepareFalls(c, n, n', a, g, i, top);
    case Drive(a, g, WriteBytes(i, k)) => WriteFalls(c, n, n', a, g, i, k, top);
    case StreamRead(a, g, from, i, count) => ReadFalls(c, n, n', a, g, from, i, count, top);
    case Forward(a, g) => ForwardFalls(c, n, n', a, g, top);
    case Deliver(g, q) => DeliverFalls(c, n, n', g, q, top);
  }

  /** The work left in a state. */
  function WorkLeft(c: Config, n: Net, top: nat): nat { TotalOf(c, top, StagesOf(c, n)) }

  lemma FallsIsLess(c: Config, s: Stages, s': Stages, top: nat)
    requires Falls(c, s, s', top)
    ensures TotalOf(c, top, s') < TotalOf(c, top, s)
  {
    var pool, out, unread, waiting, sent :|
      StagesBy(c, s, s', top, pool, out, unread, waiting, sent) && pool + out + unread + waiting + sent < 0;
    LessWork(c, s, s', top, pool, out, unread, waiting, sent);
  }

  lemma AdvanceLessWork(c: Config, n: Net, s: Step, top: nat)
    requires ValidConfig(c) && Network.Inv(c, n) && Advances(c, n, s) && forall p :: p in c.processes ==> p < top
    ensures WorkLeft(c, Next(c, n, s), top) < WorkLeft(c, n, top)
  {
    AdvanceFalls(c, n, s, top);
    FallsIsLess(c, StagesOf(c, n), StagesOf(c, Next(c, n, s)), top);
  }
}
