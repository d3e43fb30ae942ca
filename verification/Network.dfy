/**
 The whole wide-area path as a step system: any number of processes, clusters and gateways,
 and any number of streams per gateway pair. Process p hands its messages to its fixed gateway, which
 queues, frames and writes them; the peer gateway parses, queues and forwards them to q.
 */
module Network {
  import opened Common
  import opened Messages
  import opened Ranks
  import opened Framing
  import opened Gateway

  /**
   Every cluster has the same number of gateways; gateway g talks to gateway g of the others.
   streams[(a, g)]: the clusters to which the streams of gateway g of cluster a lead.
   */
  datatype Config = Config(clusters: nat, gateways: nat, processes: set<uint32>, streams: map<(nat, nat), seq<nat>>)

  function StreamsOf(c: Config, a: nat, g: nat): seq<nat> { if (a, g) in c.streams then c.streams[(a, g)] else [] }

  ghost predicate ValidConfig(c: Config) {
    && c.gateways > 0 && (forall p :: p in c.processes ==> GetClusterRank(p) < c.clusters)
    && forall a: nat, g: nat, s: nat :: s < |StreamsOf(c, a, g)| ==> StreamsOf(c, a, g)[s] < c.clusters
  }

  /** my_gateway: the gateway a process uses for all its outgoing messages. */
  function GatewayOf(c: Config, pid: uint32): nat
    requires c.gateways > 0
  {
    GetProcessRank(pid) % c.gateways
  }

  /** Process number r of its cluster uses gateway r modulo the number of gateways. */
  lemma GatewayOfRank(c: Config, cluster: nat, r: nat)
    requires c.gateways > 0 && cluster < 0x100 && r < 0x100_0000
    ensures GatewayOf(c, SetPid(cluster, r)) == r % c.gateways
  {
    assert GetProcessRank(SetPid(cluster, r)) == r;
  }

  /** The reading end of one stream: the parser and the number of bytes it has consumed. */
  datatype Reader = Reader(parser: Parser, consumed: nat)

  /**
   A gateway: its outbound side; per peer cluster a reader for each stream of that cluster's
   gateway (those for streams that lead elsewhere stay unused); everything ever put on the
   incoming queue, of which a prefix has been forwarded.
   */
  datatype Node = Node(out: Trace, readers: seq<seq<Reader>>, incoming: seq<Frame>, forwarded: nat)

  /**
   sent[p]: what p has sent, of which its gateway has taken a prefix; arrived[q]: what q has
   probed and received; received[(g, q)]: how many of those came from gateway g.
   */
  datatype Net = Net(sent: map<uint32, seq<Frame>>, taken: map<uint32, nat>,
                     nodes: map<(nat, nat), Node>,
                     arrived: map<uint32, seq<Frame>>, received: map<(nat, uint32), nat>)

  datatype Step =
    | AppSend(m: Frame)
    | Intake(p: uint32)
    | Drive(cluster: nat, gateway: nat, action: Action)
    | StreamRead(cluster: nat, gateway: nat, from: nat, stream: nat, count: nat)
    | Forward(cluster: nat, gateway: nat)
    | Deliver(gateway: nat, q: uint32)

  ghost predicate OutShape(c: Config, a: nat, g: nat, out: Trace) {
    && Peers(out.now) == StreamsOf(c, a, g) && |out.now.queues| == c.clusters
    && |out.streams| == |out.finished| == |out.now.slots|
  }

  ghost predicate InShape(c: Config, g: nat, node: Node) {
    |node.readers| == c.clusters && forall f :: 0 <= f < c.clusters ==> |node.readers[f]| == |StreamsOf(c, f, g)|
  }

  ghost predicate Shape(c: Config, n: Net) {
    && n.sent.Keys == n.taken.Keys == n.arrived.Keys == c.processes
    && (forall a: nat, g: nat :: a < c.clusters && g < c.gateways ==>
          (a, g) in n.nodes && OutShape(c, a, g, n.nodes[(a, g)].out) && InShape(c, g, n.nodes[(a, g)]))
    && (forall g: nat, q :: g < c.gateways && q in c.processes ==> (g, q) in n.received)
  }

  // Which messages go to or come from where.

  function To(q: uint32): Frame -> bool { m => |m| >= HEADER_SIZE && DstPid(m) == q }
  function From(p: uint32): Frame -> bool { m => |m| >= HEADER_SIZE && SrcPid(m) == p }
  function FromCluster(a: nat): Frame -> bool { m => |m| >= HEADER_SIZE && GetClusterRank(SrcPid(m)) == a }
  function Via(c: Config, g: nat): Frame -> bool
    requires c.gateways > 0
  {
    m => |m| >= HEADER_SIZE && GatewayOf(c, SrcPid(m)) == g
  }
  function FromTo(p: uint32, q: uint32): Frame -> bool {
    m => |m| >= HEADER_SIZE && SrcPid(m) == p && DstPid(m) == q
  }

  /** What a gateway has sent to q, in the order the sends were started. */
  function SentTo(node: Node, q: uint32): seq<Frame>
    requires node.forwarded <= |node.incoming|
  {
    Filter(node.incoming[..node.forwarded], To(q))
  }

  /** A message an application process may hand to its gateway: to a process of another cluster. */
  predicate Sendable(c: Config, m: Frame) {
    && IsDataMessage(m) && SrcPid(m) in c.processes && DstPid(m) in c.processes
    && GetClusterRank(SrcPid(m)) != GetClusterRank(DstPid(m))
  }

  ghost predicate CanStep(c: Config, n: Net, s: Step)
    requires ValidConfig(c) && Shape(c, n)
  {
    match s
    case AppSend(m) => Sendable(c, m)
    case Intake(p) =>
      && p in c.processes && n.taken[p] < |n.sent[p]|
      && Enabled(n.nodes[(GetClusterRank(p), GatewayOf(c, p))].out, AcceptMessage(n.sent[p][n.taken[p]]))
    case Drive(a, g, action) =>
      a < c.clusters && g < c.gateways && !action.AcceptMessage? && Enabled(n.nodes[(a, g)].out, action)
    case StreamRead(a, g, from, s, count) =>
      && a < c.clusters && g < c.gateways && from < c.clusters && from != a
      && s < |StreamsOf(c, from, g)| && StreamsOf(c, from, g)[s] == a
      && n.nodes[(a, g)].readers[from][s].consumed + count <= |n.nodes[(from, g)].out.streams[s]|
    case Forward(a, g) => a < c.clusters && g < c.gateways && n.nodes[(a, g)].forwarded < |n.nodes[(a, g)].incoming|
    case Deliver(g, q) =>
      && q in c.processes && g < c.gateways
      && var node := n.nodes[(GetClusterRank(q), g)];
         node.forwarded <= |node.incoming| && n.received[(g, q)] < |SentTo(node, q)|
  }

  ghost function Next(c: Config, n: Net, s: Step): Net
    requires ValidConfig(c) && Shape(c, n) && CanStep(c, n, s)
  {
    match s
    case AppSend(m) => n.(sent := n.sent[SrcPid(m) := n.sent[SrcPid(m)] + [m]])
    case Intake(p) =>
      var at := (GetClusterRank(p), GatewayOf(c, p));
      n.(taken := n.taken[p := n.taken[p] + 1],
         nodes := n.nodes[at := n.nodes[at].(out := Do(n.nodes[at].out, AcceptMessage(n.sent[p][n.taken[p]])))])
    case Drive(a, g, action) =>
      n.(nodes := n.nodes[(a, g) := n.nodes[(a, g)].(out := Do(n.nodes[(a, g)].out, action))])
    case StreamRead(a, g, from, s, count) =>
      n.(nodes := n.nodes[(a, g) := ReadInto(n.nodes[(a, g)], from, s, n.nodes[(from, g)].out.streams[s], count)])
    case Forward(a, g) =>
      n.(nodes := n.nodes[(a, g) := n.nodes[(a, g)].(forwarded := n.nodes[(a, g)].forwarded + 1)])
    case Deliver(g, q) =>
      var m := SentTo(n.nodes[(GetClusterRank(q), g)], q)[n.received[(g, q)]];
      n.(arrived := n.arrived[q := n.arrived[q] + [m]],
         received := n.received[(g, q) := n.received[(g, q)] + 1])
  }

  /** One reader consumes count more bytes; the messages this completes are put on the incoming queue. */
  function ReadInto(node: Node, from: nat, s: nat, stream: seq<byte>, count: nat): Node
    requires from < |node.readers| && s < |node.readers[from]|
    requires node.readers[from][s].consumed + count <= |stream|
  {
    var r := node.readers[from][s];
    var r' := Advanced(r, stream, count);
    node.(readers := node.readers[from := node.readers[from][s := r']],
          incoming := node.incoming + NewlyDelivered(r.parser, r'.parser))
  }

  function Advanced(r: Reader, stream: seq<byte>, count: nat): Reader
    requires r.consumed + count <= |stream|
  {
    Reader(FeedAll(Data, r.parser, stream[r.consumed..r.consumed + count]), r.consumed + count)
  }

  function NewlyDelivered(before: Parser, after: Parser): seq<Frame> {
    if |before.delivered| <= |after.delivered| then after.delivered[|before.delivered|..] else []
  }

  function InitialNode(c: Config, a: nat, g: nat): Node
    requires ValidConfig(c)
  {
    Node(Start(c.clusters, StreamsOf(c, a, g)),
         seq(c.clusters, f requires f >= 0 => seq(|StreamsOf(c, f, g)|, _ => Reader(Parser([], []), 0))), [], 0)
  }

  /** Nothing has been sent, and every gateway has just started. */
  ghost predicate Initial(c: Config, n: Net)
    requires ValidConfig(c)
  {
    && Shape(c, n)
    && (forall p :: p in c.processes ==> n.sent[p] == [] && n.taken[p] == 0 && n.arrived[p] == [])
    && (forall a: nat, g: nat :: a < c.clusters && g < c.gateways ==> n.nodes[(a, g)] == InitialNode(c, a, g))
    && (forall g: nat, q :: g < c.gateways && q in c.processes ==> n.received[(g, q)] == 0)
  }

  ghost predicate Runs(c: Config, n: Net, steps: seq<Step>, n': Net)
    requires ValidConfig(c)
    decreases |steps|
  {
    if steps == [] then n == n'
    else Shape(c, n) && CanStep(c, n, steps[0]) && Runs(c, Next(c, n, steps[0]), steps[1..], n')
  }

  // ---- the invariant, one part per stage of the path ----

  /** p's gateway has taken p's messages in the order p sent them. */
  ghost predicate IntakeOk(c: Config, sent: seq<Frame>, taken: nat, accepted: seq<Frame>, p: uint32) {
    && (forall m :: m in sent ==> Sendable(c, m) && SrcPid(m) == p)
    && taken <= |sent| && Filter(accepted, From(p)) == sent[..taken]
  }

  ghost function IntakeNode(c: Config, n: Net, p: uint32): Node
    requires ValidConfig(c) && Shape(c, n) && p in c.processes
  {
    n.nodes[(GetClusterRank(p), GatewayOf(c, p))]
  }

  ghost predicate IntakeInv(c: Config, n: Net)
    requires ValidConfig(c) && Shape(c, n)
  {
    forall p {:trigger IntakeOk(c, n.sent[p], n.taken[p], IntakeNode(c, n, p).out.accepted, p)} ::
      p in c.processes ==> IntakeOk(c, n.sent[p], n.taken[p], IntakeNode(c, n, p).out.accepted, p)
  }

  ghost predicate Originates(c: Config, m: Frame, a: nat, g: nat)
    requires ValidConfig(c)
  {
    Sendable(c, m) && GetClusterRank(SrcPid(m)) == a && GatewayOf(c, SrcPid(m)) == g
  }

  /** A gateway that carries only what its own processes sent, and keeps order where a sole stream leads. */
  ghost predicate OutOk(c: Config, a: nat, g: nat, out: Trace)
    requires ValidConfig(c)
  {
    && Gateway.Inv(out) && OutShape(c, a, g, out)
    && (forall m :: m in out.accepted ==> Originates(c, m, a, g))
    && (forall s: nat, b: nat {:trigger OrderedOn(out, s, b)} ::
          SoleStream(StreamsOf(c, a, g), s, b) ==> OrderedOn(out, s, b))
  }

  ghost predicate OutInv(c: Config, n: Net)
    requires ValidConfig(c) && Shape(c, n)
  {
    forall a: nat, g: nat {:trigger OutOk(c, a, g, n.nodes[(a, g)].out)} ::
      a < c.clusters && g < c.gateways ==> OutOk(c, a, g, n.nodes[(a, g)].out)
  }

  /** A reader is where the bytes it consumed put it; one for a stream that leads elsewhere has read nothing. */
  ghost predicate ReadOk(r: Reader, stream: seq<byte>, here: bool) {
    && r.consumed <= |stream| && (!here ==> r.consumed == 0)
    && r.parser == FeedAll(Data, Parser([], []), stream[..r.consumed])
  }

  ghost predicate ReadAt(c: Config, n: Net, a: nat, g: nat, f: nat, s: nat)
    requires ValidConfig(c) && Shape(c, n) && a < c.clusters && g < c.gateways && f < c.clusters
    requires s < |StreamsOf(c, f, g)|
  {
    assert |Peers(n.nodes[(f, g)].out.now)| == |n.nodes[(f, g)].out.streams|;
    ReadOk(n.nodes[(a, g)].readers[f][s], n.nodes[(f, g)].out.streams[s], StreamsOf(c, f, g)[s] == a)
  }

  ghost predicate ReadInv(c: Config, n: Net)
    requires ValidConfig(c) && Shape(c, n)
  {
    forall a: nat, g: nat, f: nat, s: nat {:trigger ReadAt(c, n, a, g, f, s)} ::
      a < c.clusters && g < c.gateways && f < c.clusters && s < |StreamsOf(c, f, g)| ==> ReadAt(c, n, a, g, f, s)
  }

  function Deliveries(readers: seq<Reader>): seq<seq<Frame>> {
    seq(|readers|, s requires 0 <= s < |readers| => readers[s].parser.delivered)
  }

  /** The incoming messages from cluster f are those its readers delivered, and in order if there is a sole stream. */
  ghost predicate GatherOk(incoming: seq<Frame>, readers: seq<Reader>, peers: seq<nat>, f: nat, a: nat) {
    && |readers| == |peers|
    && multiset(Filter(incoming, FromCluster(f))) == multiset(Flatten(Deliveries(readers)))
    && forall s: nat {:trigger SoleStream(peers, s, a)} ::
         SoleStream(peers, s, a) ==> Filter(incoming, FromCluster(f)) == readers[s].parser.delivered
  }

  ghost predicate GatherAt(c: Config, n: Net, a: nat, g: nat, f: nat)
    requires ValidConfig(c) && Shape(c, n) && a < c.clusters && g < c.gateways && f < c.clusters
  {
    GatherOk(n.nodes[(a, g)].incoming, n.nodes[(a, g)].readers[f], StreamsOf(c, f, g), f, a)
  }

  ghost predicate GatherInv(c: Config, n: Net)
    requires ValidConfig(c) && Shape(c, n)
  {
    forall a: nat, g: nat, f: nat {:trigger GatherAt(c, n, a, g, f)} ::
      a < c.clusters && g < c.gateways && f < c.clusters ==> GatherAt(c, n, a, g, f)
  }

  ghost predicate InOk(c: Config, a: nat, g: nat, node: Node)
    requires ValidConfig(c)
  {
    && node.forwarded <= |node.incoming|
    && forall m :: m in node.incoming ==>
         Sendable(c, m) && GatewayOf(c, SrcPid(m)) == g && GetClusterRank(DstPid(m)) == a
  }

  ghost predicate InInv(c: Config, n: Net)
    requires ValidConfig(c) && Shape(c, n)
  {
    forall a: nat, g: nat {:trigger InOk(c, a, g, n.nodes[(a, g)])} ::
      a < c.clusters && g < c.gateways ==> InOk(c, a, g, n.nodes[(a, g)])
  }

  /** What q has received via gateway g is, in order, what g started to send to it. */
  ghost predicate DeliverOk(c: Config, node: Node, arrived: seq<Frame>, received: nat, g: nat, q: uint32)
    requires ValidConfig(c)
  {
    && node.forwarded <= |node.incoming| && received <= |SentTo(node, q)|
    && Filter(arrived, Via(c, g)) == SentTo(node, q)[..received]
  }

  ghost predicate DeliverInv(c: Config, n: Net)
    requires ValidConfig(c) && Shape(c, n)
  {
    forall g: nat, q {:trigger DeliverOk(c, n.nodes[(GetClusterRank(q), g)], n.arrived[q], n.received[(g, q)], g, q)} ::
      g < c.gateways && q in c.processes ==>
      DeliverOk(c, n.nodes[(GetClusterRank(q), g)], n.arrived[q], n.received[(g, q)], g, q)
  }

  ghost predicate Inv(c: Config, n: Net)
    requires ValidConfig(c)
  {
    && Shape(c, n) && IntakeInv(c, n) && OutInv(c, n)
    && ReadInv(c, n) && GatherInv(c, n) && InInv(c, n) && DeliverInv(c, n)
  }

  // ---- what the invariant says end to end ----

  /** The bytes written to a stream are a prefix of the framing of what was finished and begun. */
  lemma StreamIsFramed(t: Trace, s: nat)
    requires Gateway.Inv(t) && s < |t.streams|
    ensures t.streams[s] <= Flatten(t.finished[s] + Held(t.now.slots[s]))
  {
    var slot := t.now.slots[s];
    FlattenConcat(t.finished[s], Held(slot));
    if slot.out.Some? {
      FlattenOne(slot.out.value);
      assert WrittenPart(slot) <= slot.out.value;
    }
  }

  lemma {:induction false} InFlatten<T>(bins: seq<seq<T>>, s: nat, x: T)
    requires s < |bins| && x in bins[s]
    ensures x in Flatten(bins)
  {
    if s > 0 { InFlatten(bins[1..], s - 1, x); }
  }

  /** What is on a stream was accepted for the cluster to which it leads. */
  lemma StreamMessages(c: Config, a: nat, g: nat, out: Trace, s: nat, m: Frame)
    requires ValidConfig(c) && OutOk(c, a, g, out) && s < |out.streams| && m in out.finished[s] + Held(out.now.slots[s])
    ensures m in out.accepted && ToCluster(out.now.slots[s].peer)(m) && WellFramed(Data, m)
  {
    assert AllTo(out.finished[s], out.now.slots[s].peer) && AllTo(Held(out.now.slots[s]), out.now.slots[s].peer);
    if m in out.finished[s] {
      InFlatten(out.finished, s, m);
    } else {
      assert m in InProgress(out.now.slots)[s];
      InFlatten(InProgress(out.now.slots), s, m);
      assert m in Backlog(out.now);
    }
    assert m in multiset(out.accepted);
  }

  /** What a reader has parsed from a stream is, in order, a prefix of what was put on it. */
  lemma ParsedIsWritten(c: Config, a: nat, g: nat, out: Trace, s: nat, bytes: seq<byte>)
    requires ValidConfig(c) && OutOk(c, a, g, out) && s < |out.streams| && bytes <= out.streams[s]
    ensures var d := FeedAll(Data, Parser([], []), bytes).delivered;
            && d <= out.finished[s] + Held(out.now.slots[s])
            && forall m :: m in d ==> m in out.accepted && ToCluster(out.now.slots[s].peer)(m)
  {
    var ms := out.finished[s] + Held(out.now.slots[s]);
    forall m | m in ms ensures m in out.accepted && ToCluster(out.now.slots[s].peer)(m) && WellFramed(Data, m) {
      StreamMessages(c, a, g, out, s, m);
    }
    StreamIsFramed(out, s);
    ParsePrefix(Data, ms, bytes);
  }

  lemma ArrivedWasForwarded(c: Config, node: Node, arrived: seq<Frame>, received: nat, p: uint32, q: uint32)
    requires ValidConfig(c) && DeliverOk(c, node, arrived, received, GatewayOf(c, p), q)
    ensures Filter(arrived, FromTo(p, q)) <= Filter(node.incoming, FromTo(p, q))
  {
    FilterTwice(arrived, Via(c, GatewayOf(c, p)), FromTo(p, q));
    FilterPrefix(SentTo(node, q)[..received], SentTo(node, q), FromTo(p, q));
    FilterTwice(node.incoming[..node.forwarded], To(q), FromTo(p, q));
    FilterPrefix(node.incoming[..node.forwarded], node.incoming, FromTo(p, q));
  }

  lemma IncomingWasAccepted(c: Config, incoming: seq<Frame>, readers: seq<Reader>, out: Trace, s: nat,
                            p: uint32, q: uint32)
    requires ValidConfig(c)
    requires var a, g, b := GetClusterRank(p), GatewayOf(c, p), GetClusterRank(q);
             && OutOk(c, a, g, out) && SoleStream(StreamsOf(c, a, g), s, b)
             && s < |out.streams| && |readers| == |StreamsOf(c, a, g)|
             && GatherOk(incoming, readers, StreamsOf(c, a, g), a, b) && ReadOk(readers[s], out.streams[s], true)
    ensures Filter(incoming, FromTo(p, q)) <= Filter(out.accepted, FromTo(p, q))
  {
    var a, b := GetClusterRank(p), GetClusterRank(q);
    FilterTwice(incoming, FromCluster(a), FromTo(p, q));
    ParsedIsWritten(c, a, GatewayOf(c, p), out, s, out.streams[s][..readers[s].consumed]);
    assert OrderedOn(out, s, b);
    FilterPrefix(readers[s].parser.delivered, Filter(out.accepted, ToCluster(b)), FromTo(p, q));
    FilterTwice(out.accepted, ToCluster(b), FromTo(p, q));
  }

  lemma AcceptedWasSent(c: Config, sent: seq<Frame>, taken: nat, accepted: seq<Frame>, p: uint32, q: uint32)
    requires IntakeOk(c, sent, taken, accepted, p)
    ensures Filter(accepted, FromTo(p, q)) <= Filter(sent, FromTo(p, q))
  {
    FilterTwice(accepted, From(p), FromTo(p, q));
    FilterPrefix(sent[..taken], sent, FromTo(p, q));
  }

  /** No stream leads to the cluster: nothing from there has come in. */
  lemma NothingIncoming(c: Config, n: Net, a: nat, g: nat, f: nat)
    requires ValidConfig(c) && Shape(c, n) && ReadInv(c, n) && GatherInv(c, n)
    requires a < c.clusters && g < c.gateways && f < c.clusters
    requires forall s :: 0 <= s < |StreamsOf(c, f, g)| ==> StreamsOf(c, f, g)[s] != a
    ensures Filter(n.nodes[(a, g)].incoming, FromCluster(f)) == []
  {
    var readers := n.nodes[(a, g)].readers[f];
    assert GatherAt(c, n, a, g, f);
    forall s | 0 <= s < |readers| ensures Deliveries(readers)[s] == [] {
      assert ReadAt(c, n, a, g, f, s);
      assert n.nodes[(f, g)].out.streams[s][..0] == [];
    }
    FlattenEmpties(Deliveries(readers));
    assert |multiset(Filter(n.nodes[(a, g)].incoming, FromCluster(f)))| == 0;
  }

  /** With at most one stream on the way, what has come in from p for q are, in order, the first p sent to q. */
  lemma IncomingWasSent(c: Config, n: Net, p: uint32, q: uint32)
    requires ValidConfig(c) && Inv(c, n) && p in c.processes && q in c.processes
    requires AtMostOneStream(StreamsOf(c, GetClusterRank(p), GatewayOf(c, p)), GetClusterRank(q))
    ensures Filter(n.nodes[(GetClusterRank(q), GatewayOf(c, p))].incoming, FromTo(p, q))
            <= Filter(n.sent[p], FromTo(p, q))
  {
    var a, b, g := GetClusterRank(p), GetClusterRank(q), GatewayOf(c, p);
    var peers := StreamsOf(c, a, g);
    if s: nat :| s < |peers| && peers[s] == b {
      assert SoleStream(peers, s, b);
      SoleIncoming(c, n, p, q, s);
    } else {
      NothingIncoming(c, n, b, g, a);
      FilterTwice(n.nodes[(b, g)].incoming, FromCluster(a), FromTo(p, q));
    }
  }

  lemma SoleIncoming(c: Config, n: Net, p: uint32, q: uint32, s: nat)
    requires ValidConfig(c) && Inv(c, n) && p in c.processes && q in c.processes
    requires SoleStream(StreamsOf(c, GetClusterRank(p), GatewayOf(c, p)), s, GetClusterRank(q))
    ensures Filter(n.nodes[(GetClusterRank(q), GatewayOf(c, p))].incoming, FromTo(p, q))
            <= Filter(n.sent[p], FromTo(p, q))
  {
    var a, b, g := GetClusterRank(p), GetClusterRank(q), GatewayOf(c, p);
    var node, out := n.nodes[(b, g)], n.nodes[(a, g)].out;
    assert ReadAt(c, n, b, g, a, s) && GatherAt(c, n, b, g, a) && OutOk(c, a, g, out);
    IncomingWasAccepted(c, node.incoming, node.readers[a], out, s, p, q);
    assert IntakeOk(c, n.sent[p], n.taken[p], IntakeNode(c, n, p).out.accepted, p);
    AcceptedWasSent(c, n.sent[p], n.taken[p], out.accepted, p, q);
  }

  /** The same holds of what has arrived at q. */
  lemma InvIsOrder(c: Config, n: Net, p: uint32, q: uint32)
    requires ValidConfig(c) && Inv(c, n) && p in c.processes && q in c.processes
    requires AtMostOneStream(StreamsOf(c, GetClusterRank(p), GatewayOf(c, p)), GetClusterRank(q))
    ensures Filter(n.arrived[q], FromTo(p, q)) <= Filter(n.sent[p], FromTo(p, q))
  {
    var b, g := GetClusterRank(q), GatewayOf(c, p);
    assert DeliverOk(c, n.nodes[(b, g)], n.arrived[q], n.received[(g, q)], g, q);
    ArrivedWasForwarded(c, n.nodes[(b, g)], n.arrived[q], n.received[(g, q)], p, q);
    IncomingWasSent(c, n, p, q);
  }

  // ---- every step keeps the invariant ----

  // Parts of the invariant whose stage a step does not touch.

  ghost predicate SameOuts(c: Config, n: Net, n': Net)
    requires ValidConfig(c) && Shape(c, n) && Shape(c, n')
  {
    forall a: nat, g: nat :: a < c.clusters && g < c.gateways ==> n'.nodes[(a, g)].out == n.nodes[(a, g)].out
  }

  lemma IntakeFrame(c: Config, n: Net, n': Net)
    requires ValidConfig(c) && Shape(c, n) && Shape(c, n') && SameOuts(c, n, n')
    requires n'.sent == n.sent && n'.taken == n.taken && IntakeInv(c, n)
    ensures IntakeInv(c, n')
  {
    forall p | p in c.processes
      ensures IntakeOk(c, n'.sent[p], n'.taken[p], IntakeNode(c, n', p).out.accepted, p)
    {
      assert IntakeOk(c, n.sent[p], n.taken[p], IntakeNode(c, n, p).out.accepted, p);
    }
  }

  lemma OutFrame(c: Config, n: Net, n': Net)
    requires ValidConfig(c) && Shape(c, n) && Shape(c, n') && SameOuts(c, n, n') && OutInv(c, n)
    ensures OutInv(c, n')
  {
    forall a: nat, g: nat | a < c.clusters && g < c.gateways ensures OutOk(c, a, g, n'.nodes[(a, g)].out) {
      assert OutOk(c, a, g, n.nodes[(a, g)].out);
    }
  }

  ghost predicate SameIns(c: Config, n: Net, n': Net)
    requires ValidConfig(c) && Shape(c, n) && Shape(c, n')
  {
    forall a: nat, g: nat :: a < c.clusters && g < c.gateways ==>
      n'.nodes[(a, g)].readers == n.nodes[(a, g)].readers && n'.nodes[(a, g)].incoming == n.nodes[(a, g)].incoming
  }

  lemma ReadFrame(c: Config, n: Net, n': Net)
    requires ValidConfig(c) && Shape(c, n) && Shape(c, n') && SameOuts(c, n, n') && SameIns(c, n, n') && ReadInv(c, n)
    ensures ReadInv(c, n')
  {
    forall a: nat, g: nat, f: nat, s: nat
      | a < c.clusters && g < c.gateways && f < c.clusters && s < |StreamsOf(c, f, g)|
      ensures ReadAt(c, n', a, g, f, s)
    {
      assert ReadAt(c, n, a, g, f, s);
    }
  }

  lemma GatherFrame(c: Config, n: Net, n': Net)
    requires ValidConfig(c) && Shape(c, n) && Shape(c, n') && SameIns(c, n, n') && GatherInv(c, n)
    ensures GatherInv(c, n')
  {
    forall a: nat, g: nat, f: nat | a < c.clusters && g < c.gateways && f < c.clusters
      ensures GatherAt(c, n', a, g, f)
    {
      assert GatherAt(c, n, a, g, f);
    }
  }

  lemma NodesFrame(c: Config, n: Net, n': Net)
    requires ValidConfig(c) && Shape(c, n) && Shape(c, n') && n'.nodes == n.nodes
    requires ReadInv(c, n) && GatherInv(c, n) && InInv(c, n)
    ensures SameOuts(c, n, n') && ReadInv(c, n') && GatherInv(c, n') && InInv(c, n')
  {
    ReadFrame(c, n, n');
    GatherFrame(c, n, n');
  }

  lemma DeliverFrame(c: Config, n: Net, n': Net)
    requires ValidConfig(c) && Shape(c, n) && Shape(c, n') && n'.nodes == n.nodes
    requires n'.arrived == n.arrived && n'.received == n.received && DeliverInv(c, n)
    ensures DeliverInv(c, n')
  {
    forall g: nat, q | g < c.gateways && q in c.processes
      ensures DeliverOk(c, n'.nodes[(GetClusterRank(q), g)], n'.arrived[q], n'.received[(g, q)], g, q)
    {
      assert DeliverOk(c, n.nodes[(GetClusterRank(q), g)], n.arrived[q], n.received[(g, q)], g, q);
    }
  }

  lemma SendKeepsIntake(c: Config, n: Net, m: Frame)
    requires ValidConfig(c) && Shape(c, n) && IntakeInv(c, n) && CanStep(c, n, AppSend(m))
    requires Shape(c, Next(c, n, AppSend(m)))
    ensures IntakeInv(c, Next(c, n, AppSend(m)))
  {
    var n' := Next(c, n, AppSend(m));
    forall p | p in c.processes
      ensures IntakeOk(c, n'.sent[p], n'.taken[p], IntakeNode(c, n', p).out.accepted, p)
    {
      assert IntakeOk(c, n.sent[p], n.taken[p], IntakeNode(c, n, p).out.accepted, p);
      assert n'.sent[p][..n.taken[p]] == n.sent[p][..n.taken[p]];
    }
  }

  lemma SendKeepsInv(c: Config, n: Net, m: Frame)
    requires ValidConfig(c) && Inv(c, n) && CanStep(c, n, AppSend(m))
    ensures Inv(c, Next(c, n, AppSend(m)))
  {
    var n' := Next(c, n, AppSend(m));
    assert Shape(c, n');
    NodesFrame(c, n, n');
    OutFrame(c, n, n');
    DeliverFrame(c, n, n');
    SendKeepsIntake(c, n, m);
  }

  lemma OutAfter(c: Config, a: nat, g: nat, out: Trace, action: Action)
    requires ValidConfig(c) && OutOk(c, a, g, out) && Gateway.Enabled(out, action)
    requires action.AcceptMessage? ==> Originates(c, action.m, a, g)
    ensures OutOk(c, a, g, Do(out, action))
  {
    ActionKeepsInv(out, action);
    ActionKeepsPeers(out, action);
    forall s: nat, b: nat | SoleStream(StreamsOf(c, a, g), s, b) ensures OrderedOn(Do(out, action), s, b) {
      assert OrderedOn(out, s, b);
      ActionKeepsOrder(out, action, s, b);
    }
  }

  /** Streams only grow, so what a reader has consumed of one stays as it was. */
  lemma ReadAfterWrite(r: Reader, out: Trace, action: Action, s: nat, here: bool)
    requires Gateway.Enabled(out, action) && s < |out.streams| && ReadOk(r, out.streams[s], here)
    ensures s < |Do(out, action).streams| && ReadOk(r, Do(out, action).streams[s], here)
  {
    var b, b' := out.streams[s], Do(out, action).streams[s];
    assert b <= b';
    assert b'[..r.consumed] == b[..r.consumed];
  }

  /** An action of one gateway's outbound side, whatever else it means for the intake. */
  ghost predicate OutboundStep(c: Config, n: Net, a: nat, g: nat, action: Action, n': Net)
    requires ValidConfig(c) && Shape(c, n)
  {
    && a < c.clusters && g < c.gateways && Gateway.Enabled(n.nodes[(a, g)].out, action)
    && (action.AcceptMessage? ==> Originates(c, action.m, a, g))
    && n'.nodes == n.nodes[(a, g) := n.nodes[(a, g)].(out := Do(n.nodes[(a, g)].out, action))]
    && n'.arrived == n.arrived && n'.received == n.received
    && n'.taken.Keys == n.taken.Keys && n'.sent == n.sent
  }

  lemma OutboundKeepsShape(c: Config, n: Net, a: nat, g: nat, action: Action, n': Net)
    requires ValidConfig(c) && Shape(c, n) && OutboundStep(c, n, a, g, action, n')
    ensures Shape(c, n')
  {
    ActionKeepsPeers(n.nodes[(a, g)].out, action);
    assert OutShape(c, a, g, Do(n.nodes[(a, g)].out, action));
  }

  lemma OutboundKeepsOut(c: Config, n: Net, a: nat, g: nat, action: Action, n': Net)
    requires ValidConfig(c) && Shape(c, n) && OutInv(c, n) && OutboundStep(c, n, a, g, action, n') && Shape(c, n')
    ensures OutInv(c, n')
  {
    forall b: nat, h: nat | b < c.clusters && h < c.gateways ensures OutOk(c, b, h, n'.nodes[(b, h)].out) {
      assert OutOk(c, b, h, n.nodes[(b, h)].out);
      if (b, h) == (a, g) { OutAfter(c, a, g, n.nodes[(a, g)].out, action); }
    }
  }

  lemma OutboundKeepsRead(c: Config, n: Net, a: nat, g: nat, action: Action, n': Net)
    requires ValidConfig(c) && Shape(c, n) && ReadInv(c, n) && OutboundStep(c, n, a, g, action, n') && Shape(c, n')
    ensures ReadInv(c, n')
  {
    forall b: nat, h: nat, f: nat, s: nat
      | b < c.clusters && h < c.gateways && f < c.clusters && s < |StreamsOf(c, f, h)|
      ensures ReadAt(c, n', b, h, f, s)
    {
      assert ReadAt(c, n, b, h, f, s);
      if (f, h) == (a, g) {
        ReadAfterWrite(n.nodes[(b, h)].readers[f][s], n.nodes[(a, g)].out, action, s, StreamsOf(c, f, h)[s] == b);
      }
    }
  }

  lemma OutboundKeepsIn(c: Config, n: Net, a: nat, g: nat, action: Action, n': Net)
    requires ValidConfig(c) && Shape(c, n) && InInv(c, n) && OutboundStep(c, n, a, g, action, n') && Shape(c, n')
    ensures InInv(c, n')
  {
    forall b: nat, h: nat | b < c.clusters && h < c.gateways ensures InOk(c, b, h, n'.nodes[(b, h)]) {
      assert InOk(c, b, h, n.nodes[(b, h)]);
    }
  }

  lemma OutboundKeepsDeliver(c: Config, n: Net, a: nat, g: nat, action: Action, n': Net)
    requires ValidConfig(c) && Shape(c, n) && DeliverInv(c, n) && OutboundStep(c, n, a, g, action, n') && Shape(c, n')
    ensures DeliverInv(c, n')
  {
    forall h: nat, q | h < c.gateways && q in c.processes
      ensures DeliverOk(c, n'.nodes[(GetClusterRank(q), h)], n'.arrived[q], n'.received[(h, q)], h, q)
    {
      assert DeliverOk(c, n.nodes[(GetClusterRank(q), h)], n.arrived[q], n.received[(h, q)], h, q);
    }
  }

  lemma OutboundKeepsRest(c: Config, n: Net, a: nat, g: nat, action: Action, n': Net)
    requires ValidConfig(c) && Inv(c, n) && OutboundStep(c, n, a, g, action, n')
    ensures Shape(c, n') && OutInv(c, n') && ReadInv(c, n') && GatherInv(c, n') && InInv(c, n') && DeliverInv(c, n')
  {
    OutboundKeepsShape(c, n, a, g, action, n');
    OutboundKeepsOut(c, n, a, g, action, n');
    OutboundKeepsRead(c, n, a, g, action, n');
    GatherFrame(c, n, n');
    OutboundKeepsIn(c, n, a, g, action, n');
    OutboundKeepsDeliver(c, n, a, g, action, n');
  }

  lemma DriveKeepsInv(c: Config, n: Net, a: nat, g: nat, action: Action)
    requires ValidConfig(c) && Inv(c, n) && CanStep(c, n, Drive(a, g, action))
    ensures Inv(c, Next(c, n, Drive(a, g, action)))
  {
    var n' := Next(c, n, Drive(a, g, action));
    OutboundKeepsRest(c, n, a, g, action, n');
    forall p | p in c.processes
      ensures IntakeOk(c, n'.sent[p], n'.taken[p], IntakeNode(c, n', p).out.accepted, p)
    {
      assert IntakeOk(c, n.sent[p], n.taken[p], IntakeNode(c, n, p).out.accepted, p);
    }
  }

  /** The gateway takes the next message of p; its other processes do not notice. */
  lemma IntakeAfter(c: Config, sent: seq<Frame>, taken: nat, accepted: seq<Frame>, p: uint32, m: Frame)
    requires IntakeOk(c, sent, taken, accepted, p) && |m| >= HEADER_SIZE
    requires SrcPid(m) == p ==> taken < |sent| && m == sent[taken]
    ensures IntakeOk(c, sent, if SrcPid(m) == p then taken + 1 else taken, accepted + [m], p)
  {
    FilterConcat(accepted, [m], From(p));
    assert Filter([m], From(p)) == if SrcPid(m) == p then [m] else [];
    if SrcPid(m) == p { assert sent[..taken + 1] == sent[..taken] + [m]; }
  }

  lemma IntakeKeepsIntake(c: Config, n: Net, p: uint32)
    requires ValidConfig(c) && Shape(c, n) && IntakeInv(c, n) && CanStep(c, n, Intake(p))
    requires Shape(c, Next(c, n, Intake(p)))
    ensures IntakeInv(c, Next(c, n, Intake(p)))
  {
    var n', m := Next(c, n, Intake(p)), n.sent[p][n.taken[p]];
    assert IntakeOk(c, n.sent[p], n.taken[p], IntakeNode(c, n, p).out.accepted, p) && m in n.sent[p];
    forall r | r in c.processes
      ensures IntakeOk(c, n'.sent[r], n'.taken[r], IntakeNode(c, n', r).out.accepted, r)
    {
      var accepted := IntakeNode(c, n, r).out.accepted;
      assert IntakeOk(c, n.sent[r], n.taken[r], accepted, r);
      IntakeAfter(c, n.sent[r], n.taken[r], accepted, r, m);
    }
  }

  lemma IntakeKeepsInv(c: Config, n: Net, p: uint32)
    requires ValidConfig(c) && Inv(c, n) && CanStep(c, n, Intake(p))
    ensures Inv(c, Next(c, n, Intake(p)))
  {
    var m := n.sent[p][n.taken[p]];
    assert IntakeOk(c, n.sent[p], n.taken[p], IntakeNode(c, n, p).out.accepted, p) && m in n.sent[p];
    OutboundKeepsRest(c, n, GetClusterRank(p), GatewayOf(c, p), AcceptMessage(m), Next(c, n, Intake(p)));
    IntakeKeepsIntake(c, n, p);
  }

  lemma {:induction false} FeedGrows(t: SocketType, p: Parser, bs: seq<byte>)
    ensures p.delivered <= FeedAll(t, p, bs).delivered
  {
    if bs != [] { FeedGrows(t, p, bs[..|bs| - 1]); }
  }

  /** After a read, the reader is again where its bytes put it. */
  lemma ReadAfterRead(r: Reader, stream: seq<byte>, count: nat)
    requires ReadOk(r, stream, true) && r.consumed + count <= |stream|
    ensures ReadOk(Advanced(r, stream, count), stream, true)
    ensures r.parser.delivered <= Advanced(r, stream, count).parser.delivered
  {
    FeedOn(stream, r.consumed, count);
    FeedGrows(Data, r.parser, stream[r.consumed..r.consumed + count]);
  }

  /** The messages a read completes are added to what has come in from that cluster. */
  lemma GatherAfterRead(incoming: seq<Frame>, readers: seq<Reader>, peers: seq<nat>, f: nat, a: nat, s: nat, r: Reader)
    requires GatherOk(incoming, readers, peers, f, a) && s < |readers| && peers[s] == a
    requires readers[s].parser.delivered <= r.parser.delivered
    requires forall m :: m in r.parser.delivered ==> FromCluster(f)(m)
    ensures GatherOk(incoming + NewlyDelivered(readers[s].parser, r.parser), readers[s := r], peers, f, a)
  {
    var before, added := readers[s].parser.delivered, NewlyDelivered(readers[s].parser, r.parser);
    assert r.parser.delivered == before + added;
    forall i | 0 <= i < |added| ensures FromCluster(f)(added[i]) { assert added[i] in r.parser.delivered; }
    FilterEvery(added, FromCluster(f));
    FilterConcat(incoming, added, FromCluster(f));
    DeliveriesGrow(readers, s, r, before, added);
  }

  lemma DeliveriesGrow(readers: seq<Reader>, s: nat, r: Reader, before: seq<Frame>, added: seq<Frame>)
    requires s < |readers| && readers[s].parser.delivered == before && r.parser.delivered == before + added
    ensures multiset(Flatten(Deliveries(readers[s := r]))) == multiset(Flatten(Deliveries(readers))) + multiset(added)
  {
    GrownConcat(before, added);
    GrowBin(Deliveries(readers), s, before + added, added);
    assert Deliveries(readers[s := r]) == Deliveries(readers)[s := before + added];
  }

  /** They are not added to what has come in from other clusters. */
  lemma GatherElsewhere(incoming: seq<Frame>, added: seq<Frame>, readers: seq<Reader>, peers: seq<nat>, f: nat, a: nat)
    requires GatherOk(incoming, readers, peers, f, a)
    requires forall i :: 0 <= i < |added| ==> !FromCluster(f)(added[i])
    ensures GatherOk(incoming + added, readers, peers, f, a)
  {
    FilterConcat(incoming, added, FromCluster(f));
    FilterNone(added, FromCluster(f));
  }

  lemma FeedOn(stream: seq<byte>, k: nat, count: nat)
    requires k + count <= |stream|
    ensures FeedAll(Data, FeedAll(Data, Parser([], []), stream[..k]), stream[k..k + count])
            == FeedAll(Data, Parser([], []), stream[..k + count])
  {
    FeedConcat(Data, Parser([], []), stream[..k], stream[k..k + count]);
    assert stream[..k] + stream[k..k + count] == stream[..k + count];
  }

  /** The reader for stream s of gateway (from, g), and what it delivers. */
  lemma ReaderFacts(c: Config, r: Reader, out: Trace, a: nat, from: nat, g: nat, s: nat, count: nat)
    requires ValidConfig(c) && OutOk(c, from, g, out) && s < |out.streams| && StreamsOf(c, from, g)[s] == a
    requires ReadOk(r, out.streams[s], true) && r.consumed + count <= |out.streams[s]|
    ensures var r' := Advanced(r, out.streams[s], count);
            && ReadOk(r', out.streams[s], true) && r.parser.delivered <= r'.parser.delivered
            && AllFrom(c, r'.parser.delivered, from, g, a)
  {
    ReadAfterRead(r, out.streams[s], count);
    ParsedOriginates(c, from, g, out, s, Advanced(r, out.streams[s], count), a);
  }

  /** Messages of processes of gateway (from, g) for cluster a. */
  ghost predicate AllFrom(c: Config, ms: seq<Frame>, from: nat, g: nat, a: nat)
    requires ValidConfig(c)
  {
    forall m :: m in ms ==> Originates(c, m, from, g) && ToCluster(a)(m)
  }

  lemma ParsedOriginates(c: Config, from: nat, g: nat, out: Trace, s: nat, r: Reader, a: nat)
    requires ValidConfig(c) && OutOk(c, from, g, out) && s < |out.streams| && StreamsOf(c, from, g)[s] == a
    requires ReadOk(r, out.streams[s], true)
    ensures AllFrom(c, r.parser.delivered, from, g, a)
  {
    assert out.now.slots[s].peer == Peers(out.now)[s] == a;
    ParsedIsWritten(c, from, g, out, s, out.streams[s][..r.consumed]);
  }

  lemma ReadFacts(c: Config, n: Net, a: nat, g: nat, from: nat, s: nat, count: nat)
    requires ValidConfig(c) && Shape(c, n) && OutInv(c, n) && ReadInv(c, n)
    requires CanStep(c, n, StreamRead(a, g, from, s, count))
    ensures var r, stream := n.nodes[(a, g)].readers[from][s], n.nodes[(from, g)].out.streams[s];
            var r' := Advanced(r, stream, count);
            && ReadOk(r', stream, true) && r.parser.delivered <= r'.parser.delivered
            && AllFrom(c, r'.parser.delivered, from, g, a)
  {
    assert ReadAt(c, n, a, g, from, s) && OutOk(c, from, g, n.nodes[(from, g)].out);
    ReaderFacts(c, n.nodes[(a, g)].readers[from][s], n.nodes[(from, g)].out, a, from, g, s, count);
  }

  lemma NewAreDelivered(before: Parser, after: Parser, m: Frame)
    requires m in NewlyDelivered(before, after)
    ensures m in after.delivered
  {}

  lemma ReadKeepsRead(c: Config, n: Net, a: nat, g: nat, from: nat, s: nat, count: nat)
    requires ValidConfig(c) && Shape(c, n) && OutInv(c, n) && ReadInv(c, n)
    requires CanStep(c, n, StreamRead(a, g, from, s, count)) && Shape(c, Next(c, n, StreamRead(a, g, from, s, count)))
    ensures ReadInv(c, Next(c, n, StreamRead(a, g, from, s, count)))
  {
    var n' := Next(c, n, StreamRead(a, g, from, s, count));
    ReadFacts(c, n, a, g, from, s, count);
    forall b: nat, h: nat, f: nat, r: nat
      | b < c.clusters && h < c.gateways && f < c.clusters && r < |StreamsOf(c, f, h)|
      ensures ReadAt(c, n', b, h, f, r)
    {
      assert ReadAt(c, n, b, h, f, r);
      assert n'.nodes[(f, h)].out == n.nodes[(f, h)].out;
    }
  }

  lemma ReadKeepsGather(c: Config, n: Net, a: nat, g: nat, from: nat, s: nat, count: nat)
    requires ValidConfig(c) && Shape(c, n) && OutInv(c, n) && ReadInv(c, n) && GatherInv(c, n)
    requires CanStep(c, n, StreamRead(a, g, from, s, count)) && Shape(c, Next(c, n, StreamRead(a, g, from, s, count)))
    ensures GatherInv(c, Next(c, n, StreamRead(a, g, from, s, count)))
  {
    var n', node := Next(c, n, StreamRead(a, g, from, s, count)), n.nodes[(a, g)];
    var r := node.readers[from][s];
    var r' := Advanced(r, n.nodes[(from, g)].out.streams[s], count);
    ReadFacts(c, n, a, g, from, s, count);
    forall b: nat, h: nat, f: nat | b < c.clusters && h < c.gateways && f < c.clusters
      ensures GatherAt(c, n', b, h, f)
    {
      assert GatherAt(c, n, b, h, f);
      if (b, h) == (a, g) {
        if f == from {
          GatherAfterRead(node.incoming, node.readers[f], StreamsOf(c, f, g), f, a, s, r');
        } else {
          var added := NewlyDelivered(r.parser, r'.parser);
          forall i | 0 <= i < |added| ensures !FromCluster(f)(added[i]) {
            NewAreDelivered(r.parser, r'.parser, added[i]);
          }
          GatherElsewhere(node.incoming, added, node.readers[f], StreamsOf(c, f, g), f, a);
        }
      }
    }
  }

  lemma ReadKeepsDeliver(c: Config, n: Net, a: nat, g: nat, from: nat, s: nat, count: nat)
    requires ValidConfig(c) && Shape(c, n) && DeliverInv(c, n) && CanStep(c, n, StreamRead(a, g, from, s, count))
    requires var n' := Next(c, n, StreamRead(a, g, from, s, count));
             Shape(c, n') && n.nodes[(a, g)].incoming <= n'.nodes[(a, g)].incoming
    ensures DeliverInv(c, Next(c, n, StreamRead(a, g, from, s, count)))
  {
    var n', node := Next(c, n, StreamRead(a, g, from, s, count)), n.nodes[(a, g)];
    forall h: nat, q | h < c.gateways && q in c.processes
      ensures DeliverOk(c, n'.nodes[(GetClusterRank(q), h)], n'.arrived[q], n'.received[(h, q)], h, q)
    {
      assert DeliverOk(c, n.nodes[(GetClusterRank(q), h)], n.arrived[q], n.received[(h, q)], h, q);
      if (GetClusterRank(q), h) == (a, g) {
        assert n'.nodes[(a, g)].incoming[..node.forwarded] == node.incoming[..node.forwarded];
      }
    }
  }

  lemma ReadKeepsInv(c: Config, n: Net, a: nat, g: nat, from: nat, s: nat, count: nat)
    requires ValidConfig(c) && Inv(c, n) && CanStep(c, n, StreamRead(a, g, from, s, count))
    ensures Inv(c, Next(c, n, StreamRead(a, g, from, s, count)))
  {
    var n' := Next(c, n, StreamRead(a, g, from, s, count));
    ReadKeepsShape(c, n, a, g, from, s, count);
    ReadFacts(c, n, a, g, from, s, count);
    ReadKeepsRead(c, n, a, g, from, s, count);
    ReadKeepsGather(c, n, a, g, from, s, count);
    ReadKeepsDeliver(c, n, a, g, from, s, count);
    ReadKeepsIn(c, n, a, g, from, s, count);
    IntakeFrame(c, n, n');
    OutFrame(c, n, n');
  }

  lemma ReadKeepsShape(c: Config, n: Net, a: nat, g: nat, from: nat, s: nat, count: nat)
    requires ValidConfig(c) && Shape(c, n) && CanStep(c, n, StreamRead(a, g, from, s, count))
    ensures var n' := Next(c, n, StreamRead(a, g, from, s, count)); Shape(c, n') && SameOuts(c, n, n')
  {}

  lemma InAfterRead(c: Config, a: nat, g: nat, from: nat, s: nat, node: Node, stream: seq<byte>, count: nat)
    requires ValidConfig(c) && InOk(c, a, g, node)
    requires from < |node.readers| && s < |node.readers[from]| && node.readers[from][s].consumed + count <= |stream|
    requires forall m :: m in Advanced(node.readers[from][s], stream, count).parser.delivered ==>
               Originates(c, m, from, g) && ToCluster(a)(m)
    ensures InOk(c, a, g, ReadInto(node, from, s, stream, count))
  {
    var r := node.readers[from][s];
    var r' := Advanced(r, stream, count);
    forall m | m in NewlyDelivered(r.parser, r'.parser) ensures Originates(c, m, from, g) && ToCluster(a)(m) {
      NewAreDelivered(r.parser, r'.parser, m);
    }
  }

  lemma ReadKeepsIn(c: Config, n: Net, a: nat, g: nat, from: nat, s: nat, count: nat)
    requires ValidConfig(c) && Shape(c, n) && OutInv(c, n) && ReadInv(c, n) && InInv(c, n)
    requires CanStep(c, n, StreamRead(a, g, from, s, count)) && Shape(c, Next(c, n, StreamRead(a, g, from, s, count)))
    ensures InInv(c, Next(c, n, StreamRead(a, g, from, s, count)))
  {
    var n' := Next(c, n, StreamRead(a, g, from, s, count));
    ReadFacts(c, n, a, g, from, s, count);
    assert InOk(c, a, g, n.nodes[(a, g)]);
    InAfterRead(c, a, g, from, s, n.nodes[(a, g)], n.nodes[(from, g)].out.streams[s], count);
    forall b: nat, h: nat | b < c.clusters && h < c.gateways ensures InOk(c, b, h, n'.nodes[(b, h)]) {
      assert InOk(c, b, h, n.nodes[(b, h)]);
    }
  }

  /** Starting one more send. */
  lemma DeliverAfterForward(c: Config, node: Node, arrived: seq<Frame>, received: nat, g: nat, q: uint32)
    requires ValidConfig(c) && DeliverOk(c, node, arrived, received, g, q) && node.forwarded < |node.incoming|
    ensures DeliverOk(c, node.(forwarded := node.forwarded + 1), arrived, received, g, q)
  {
    var k := node.forwarded;
    assert node.incoming[..k + 1] == node.incoming[..k] + [node.incoming[k]];
    FilterConcat(node.incoming[..k], [node.incoming[k]], To(q));
  }

  lemma ForwardKeepsInv(c: Config, n: Net, a: nat, g: nat)
    requires ValidConfig(c) && Inv(c, n) && CanStep(c, n, Forward(a, g))
    ensures Inv(c, Next(c, n, Forward(a, g)))
  {
    var n' := Next(c, n, Forward(a, g));
    assert Shape(c, n');
    ReadFrame(c, n, n');
    GatherFrame(c, n, n');
    ForwardKeepsIn(c, n, a, g);
    ForwardKeepsDeliver(c, n, a, g);
    IntakeFrame(c, n, n');
    OutFrame(c, n, n');
  }

  lemma ForwardKeepsDeliverAt(c: Config, n: Net, a: nat, g: nat, h: nat, q: uint32)
    requires ValidConfig(c) && Shape(c, n) && DeliverInv(c, n) && CanStep(c, n, Forward(a, g))
    requires Shape(c, Next(c, n, Forward(a, g))) && h < c.gateways && q in c.processes
    ensures var n' := Next(c, n, Forward(a, g));
            DeliverOk(c, n'.nodes[(GetClusterRank(q), h)], n'.arrived[q], n'.received[(h, q)], h, q)
  {
    var node := n.nodes[(GetClusterRank(q), h)];
    assert DeliverOk(c, node, n.arrived[q], n.received[(h, q)], h, q);
    if (GetClusterRank(q), h) == (a, g) { DeliverAfterForward(c, node, n.arrived[q], n.received[(h, q)], h, q); }
  }

  lemma ForwardKeepsDeliver(c: Config, n: Net, a: nat, g: nat)
    requires ValidConfig(c) && Shape(c, n) && DeliverInv(c, n) && CanStep(c, n, Forward(a, g))
    requires Shape(c, Next(c, n, Forward(a, g)))
    ensures DeliverInv(c, Next(c, n, Forward(a, g)))
  {
    var n' := Next(c, n, Forward(a, g));
    forall h: nat, q | h < c.gateways && q in c.processes
      ensures DeliverOk(c, n'.nodes[(GetClusterRank(q), h)], n'.arrived[q], n'.received[(h, q)], h, q)
    {
      ForwardKeepsDeliverAt(c, n, a, g, h, q);
    }
  }

  lemma ForwardKeepsIn(c: Config, n: Net, a: nat, g: nat)
    requires ValidConfig(c) && Shape(c, n) && InInv(c, n) && CanStep(c, n, Forward(a, g))
    requires Shape(c, Next(c, n, Forward(a, g)))
    ensures InInv(c, Next(c, n, Forward(a, g)))
  {
    var n' := Next(c, n, Forward(a, g));
    forall b: nat, h: nat | b < c.clusters && h < c.gateways ensures InOk(c, b, h, n'.nodes[(b, h)]) {
      assert InOk(c, b, h, n.nodes[(b, h)]);
    }
  }

  /** q takes the next message gateway g has for it. */
  lemma DeliverAfterDelivery(c: Config, node: Node, arrived: seq<Frame>, received: nat, h: nat, q: uint32,
                             m: Frame, g: nat)
    requires ValidConfig(c) && DeliverOk(c, node, arrived, received, h, q)
    requires |m| >= HEADER_SIZE && GatewayOf(c, SrcPid(m)) == g
    requires g == h ==> received < |SentTo(node, q)| && m == SentTo(node, q)[received]
    ensures DeliverOk(c, node, arrived + [m], if g == h then received + 1 else received, h, q)
  {
    FilterConcat(arrived, [m], Via(c, h));
    assert Filter([m], Via(c, h)) == if g == h then [m] else [];
    if g == h { assert SentTo(node, q)[..received + 1] == SentTo(node, q)[..received] + [m]; }
  }

  /** The next message that gateway g has for q came in by way of g. */
  lemma NextDelivery(c: Config, n: Net, g: nat, q: uint32)
    requires ValidConfig(c) && Shape(c, n) && InInv(c, n) && CanStep(c, n, Deliver(g, q))
    ensures var m := SentTo(n.nodes[(GetClusterRank(q), g)], q)[n.received[(g, q)]];
            |m| >= HEADER_SIZE && GatewayOf(c, SrcPid(m)) == g
  {
    var node := n.nodes[(GetClusterRank(q), g)];
    var m := SentTo(node, q)[n.received[(g, q)]];
    FilterMembers(node.incoming[..node.forwarded], To(q));
    assert m in SentTo(node, q) && m in node.incoming;
    assert InOk(c, GetClusterRank(q), g, node);
  }

  lemma DeliverKeepsDeliver(c: Config, n: Net, g: nat, q: uint32)
    requires ValidConfig(c) && Shape(c, n) && InInv(c, n) && DeliverInv(c, n) && CanStep(c, n, Deliver(g, q))
    requires Shape(c, Next(c, n, Deliver(g, q)))
    ensures DeliverInv(c, Next(c, n, Deliver(g, q)))
  {
    var n', m := Next(c, n, Deliver(g, q)), SentTo(n.nodes[(GetClusterRank(q), g)], q)[n.received[(g, q)]];
    NextDelivery(c, n, g, q);
    forall h: nat, r | h < c.gateways && r in c.processes
      ensures DeliverOk(c, n'.nodes[(GetClusterRank(r), h)], n'.arrived[r], n'.received[(h, r)], h, r)
    {
      var at := n.nodes[(GetClusterRank(r), h)];
      assert DeliverOk(c, at, n.arrived[r], n.received[(h, r)], h, r);
      if r == q { DeliverAfterDelivery(c, at, n.arrived[r], n.received[(h, r)], h, r, m, g); }
    }
  }

  lemma DeliverKeepsInv(c: Config, n: Net, g: nat, q: uint32)
    requires ValidConfig(c) && Inv(c, n) && CanStep(c, n, Deliver(g, q))
    ensures Inv(c, Next(c, n, Deliver(g, q)))
  {
    var n' := Next(c, n, Deliver(g, q));
    assert Shape(c, n');
    NodesFrame(c, n, n');
    OutFrame(c, n, n');
    IntakeFrame(c, n, n');
    DeliverKeepsDeliver(c, n, g, q);
  }

  lemma StepKeepsInv(c: Config, n: Net, s: Step)
    requires ValidConfig(c) && Inv(c, n) && CanStep(c, n, s)
    ensures Inv(c, Next(c, n, s))
  {
    match s
    case AppSend(m) => SendKeepsInv(c, n, m);
    case Intake(p) => IntakeKeepsInv(c, n, p);
    case Drive(a, g, action) => DriveKeepsInv(c, n, a, g, action);
    case StreamRead(a, g, from, s, count) => ReadKeepsInv(c, n, a, g, from, s, count);
    case Forward(a, g) => ForwardKeepsInv(c, n, a, g);
    case Deliver(g, q) => DeliverKeepsInv(c, n, g, q);
  }

  lemma {:induction false} RunKeepsInv(c: Config, n: Net, steps: seq<Step>, n': Net)
    requires ValidConfig(c) && Inv(c, n) && Runs(c, n, steps, n')
    ensures Inv(c, n')
    decreases |steps|
  {
    if steps != [] {
      StepKeepsInv(c, n, steps[0]);
      RunKeepsInv(c, Next(c, n, steps[0]), steps[1..], n');
    }
  }

  /** Each part of the invariant holds of a gateway that has done nothing. */
  lemma InitialOut(c: Config, a: nat, g: nat)
    requires ValidConfig(c)
    ensures var node := InitialNode(c, a, g);
            && OutOk(c, a, g, node.out) && InShape(c, g, node) && InOk(c, a, g, node)
            && forall s :: 0 <= s < |node.out.streams| ==> node.out.streams[s] == []
  {
    var out := InitialNode(c, a, g).out;
    StartInv(c.clusters, StreamsOf(c, a, g));
    assert Peers(out.now) == StreamsOf(c, a, g);
    forall s: nat, b: nat | SoleStream(StreamsOf(c, a, g), s, b) ensures OrderedOn(out, s, b) {
      assert out.finished[s] == [] && Held(out.now.slots[s]) == [] && out.now.queues[b] == [];
    }
  }

  lemma InitialGather(c: Config, a: nat, g: nat, f: nat)
    requires ValidConfig(c) && f < c.clusters
    ensures GatherOk([], InitialNode(c, a, g).readers[f], StreamsOf(c, f, g), f, a)
  {
    var readers := InitialNode(c, a, g).readers[f];
    FlattenEmpties(Deliveries(readers));
  }

  ghost function InitialNodes(c: Config): (nodes: map<(nat, nat), Node>)
    requires ValidConfig(c)
    ensures forall a: nat, g: nat :: a < c.clusters && g < c.gateways ==>
              (a, g) in nodes && nodes[(a, g)] == InitialNode(c, a, g)
  {
    map a: nat, g: nat | a < c.clusters && g < c.gateways :: (a, g) := InitialNode(c, a, g)
  }

  /** Every configuration has an initial state. */
  lemma InitialExists(c: Config) returns (n: Net)
    requires ValidConfig(c)
    ensures Initial(c, n)
  {
    n := Net(map p | p in c.processes :: [], map p | p in c.processes :: 0, InitialNodes(c),
             map p | p in c.processes :: [], map g: nat, q | g < c.gateways && q in c.processes :: (g, q) := 0);
    forall a: nat, g: nat | a < c.clusters && g < c.gateways
      ensures OutShape(c, a, g, n.nodes[(a, g)].out) && InShape(c, g, n.nodes[(a, g)])
    {
      InitialOut(c, a, g);
    }
  }

  lemma InitialReads(c: Config, n: Net)
    requires ValidConfig(c) && Initial(c, n)
    ensures ReadInv(c, n) && GatherInv(c, n)
  {
    forall a: nat, g: nat, f: nat, s: nat
      | a < c.clusters && g < c.gateways && f < c.clusters && s < |StreamsOf(c, f, g)|
      ensures ReadAt(c, n, a, g, f, s)
    {
      assert n.nodes[(a, g)] == InitialNode(c, a, g);
      assert n.nodes[(f, g)].out.streams[s][..0] == [];
    }
    forall a: nat, g: nat, f: nat | a < c.clusters && g < c.gateways && f < c.clusters
      ensures GatherAt(c, n, a, g, f)
    {
      assert n.nodes[(a, g)] == InitialNode(c, a, g);
      InitialGather(c, a, g, f);
    }
  }

  lemma InitialGateways(c: Config, n: Net)
    requires ValidConfig(c) && Initial(c, n)
    ensures OutInv(c, n) && InInv(c, n)
  {
    forall a: nat, g: nat | a < c.clusters && g < c.gateways
      ensures OutOk(c, a, g, n.nodes[(a, g)].out) && InOk(c, a, g, n.nodes[(a, g)])
    {
      InitialOut(c, a, g);
      assert n.nodes[(a, g)] == InitialNode(c, a, g);
    }
  }

  lemma NothingYet(c: Config, node: Node, g: nat, q: uint32)
    requires ValidConfig(c) && node.forwarded == 0
    ensures IntakeOk(c, [], 0, [], q) && DeliverOk(c, node, [], 0, g, q)
  {}

  lemma InitialIntake(c: Config, n: Net)
    requires ValidConfig(c) && Initial(c, n)
    ensures IntakeInv(c, n)
  {
    forall p | p in c.processes ensures IntakeOk(c, n.sent[p], n.taken[p], IntakeNode(c, n, p).out.accepted, p) {
      assert IntakeNode(c, n, p) == InitialNode(c, GetClusterRank(p), GatewayOf(c, p));
      NothingYet(c, IntakeNode(c, n, p), 0, p);
    }
  }

  lemma InitialDeliver(c: Config, n: Net)
    requires ValidConfig(c) && Initial(c, n)
    ensures DeliverInv(c, n)
  {
    forall g: nat, q | g < c.gateways && q in c.processes
      ensures DeliverOk(c, n.nodes[(GetClusterRank(q), g)], n.arrived[q], n.received[(g, q)], g, q)
    {
      assert n.nodes[(GetClusterRank(q), g)] == InitialNode(c, GetClusterRank(q), g);
      NothingYet(c, n.nodes[(GetClusterRank(q), g)], g, q);
    }
  }

  lemma InitialInv(c: Config, n: Net)
    requires ValidConfig(c) && Initial(c, n)
    ensures Inv(c, n)
  {
    InitialReads(c, n);
    InitialGateways(c, n);
    InitialIntake(c, n);
    InitialDeliver(c, n);
  }

  /**
   Non-overtaking (MPI 2.1 section 3.5), end to end: in every run, if at most one stream leads
   from p's gateway to q's cluster, the messages of p that have arrived at q are exactly the
   first messages p sent to q, in the order p sent them.
   */
  lemma NonOvertaking(c: Config, init: Net, steps: seq<Step>, n: Net, p: uint32, q: uint32)
    requires ValidConfig(c) && Initial(c, init) && Runs(c, init, steps, n) && p in c.processes && q in c.processes
    requires AtMostOneStream(StreamsOf(c, GetClusterRank(p), GatewayOf(c, p)), GetClusterRank(q))
    ensures p in n.sent && q in n.arrived
    ensures Filter(n.arrived[q], FromTo(p, q)) <= Filter(n.sent[p], FromTo(p, q))
  {
    InitialInv(c, init);
    RunKeepsInv(c, init, steps, n);
    InvIsOrder(c, n, p, q);
  }
}
