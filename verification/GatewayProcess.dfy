/**
 The outbound data path of a gateway process over its real queues and sockets. Every
 method is an action of the pure gateway, or a run of them.
 */
module GatewayProcess {
  import opened Common
  import opened Messages
  import opened MessageQueue
  import opened Ranks
  import opened Socket
  import opened Gateway

  const MAX_MPI_RECEIVE_SEQUENCE := 16

  class Process {
    const outQueues: seq<Queue<Frame>>  // one per cluster
    const sockets: seq<SocketInfo>      // all streams to all peers
    const peers: seq<nat>               // the cluster each socket leads to
    const pending: Pending
    ghost var nodes: set<Node<Frame>>   // every node a queue has used

    constructor (outQueues: seq<Queue<Frame>>, sockets: seq<SocketInfo>, peers: seq<nat>, pending: Pending)
      ensures this.outQueues == outQueues && this.sockets == sockets && this.peers == peers && this.pending == pending
    {
      this.outQueues, this.sockets, this.peers, this.pending := outQueues, sockets, peers, pending;
      nodes := set c, n | 0 <= c < |outQueues| && n in outQueues[c].spine :: n;
    }

    ghost predicate QueueValid(c: nat)
      requires c < |outQueues|
      reads this, outQueues, nodes
    {
      && (forall n :: n in outQueues[c].spine ==> n in nodes)
      && outQueues[c].Valid()
      && (forall m :: m in outQueues[c].Contents() ==> WellFramed(Data, m))
    }

    ghost predicate QueuesValid()
      reads this, outQueues, nodes
    {
      && (forall c, d :: 0 <= c < d < |outQueues| ==> outQueues[c] != outQueues[d])
      && (forall c :: 0 <= c < |outQueues| ==> QueueValid(c))
    }

    ghost predicate SocketsValid()
      reads sockets
    {
      && |peers| == |sockets|
      && (forall s, r :: 0 <= s < r < |sockets| ==> sockets[s] != sockets[r])
      && (forall s :: 0 <= s < |sockets| ==>
            && peers[s] < |outQueues| && sockets[s].outQueue == outQueues[peers[s]]
            && sockets[s].pending == pending && sockets[s].kind == Data && sockets[s].WriteValid())
    }

    ghost predicate Valid()
      reads this, outQueues, nodes, sockets
    {
      QueuesValid() && SocketsValid()
    }

    ghost function QueueView(): seq<seq<Frame>>
      requires QueuesValid()
      reads this, outQueues, nodes
    {
      seq(|outQueues|, c requires 0 <= c < |outQueues| && QueueValid(c) reads this, outQueues, nodes =>
        outQueues[c].Contents())
    }

    ghost function SlotView(): seq<Slot>
      requires |peers| == |sockets|
      reads sockets
    {
      seq(|sockets|, s requires 0 <= s < |sockets| reads sockets => Slot(peers[s], sockets[s].out, sockets[s].outPos))
    }

    ghost function View(): Outbound
      requires Valid()
      reads this, outQueues, nodes, sockets, pending
    {
      Outbound(QueueView(), SlotView(), pending.messages, pending.size)
    }

    method EnqueueDataMessage(m: Frame, size: nat)
      requires Valid() && WellFramed(Data, m) && size == |m| && GetClusterRank(DstPid(m)) < |outQueues|
      modifies this`nodes, pending, outQueues, nodes
      ensures Valid() && View() == Accept(old(View()), m) && fresh(nodes - old(nodes))
    {
      pending.messages := Wrap64(pending.messages + 1);
      pending.size := Wrap64(pending.size + size);
      EnqueueAt(GetClusterRank(DstPid(m)), m);
      assert SlotView() == old(SlotView());
    }

    method EnqueueAt(target: nat, m: Frame)
      requires QueuesValid() && WellFramed(Data, m) && target < |outQueues|
      modifies this`nodes, outQueues, nodes
      ensures QueuesValid() && fresh(nodes - old(nodes))
      ensures QueueView() == old(QueueView())[target := old(QueueView())[target] + [m]]
    {
      var q := outQueues[target];
      assert QueueValid(target);
      q.Enqueue(m);
      nodes := nodes + {q.spine[|q.spine| - 1]};
      forall c | 0 <= c < |outQueues| && c != target
        ensures QueueValid(c) && outQueues[c].Contents() == old(outQueues[c].Contents())
      {
        assert old(QueueValid(c));
        assert forall i :: 0 <= i < |outQueues[c].spine| ==> outQueues[c].spine[i].owner == outQueues[c];
      }
      assert QueueValid(target);
    }

    /** prepare_message on one of the sockets. */
    method PrepareSocket(s: nat) returns (ready: bool)
      requires Valid() && s < |sockets|
      modifies outQueues, sockets
      ensures Valid() && View() == Prepare(old(View()), s)
      ensures ready == sockets[s].out.Some?
    {
      ghost var o := View();
      ready := PrepareAt(s);
      assert SlotView()[s] == Prepare(o, s).slots[s];
    }

    method PrepareAt(s: nat) returns (ready: bool)
      requires Valid() && s < |sockets|
      modifies outQueues, sockets
      ensures Valid() && ready == sockets[s].out.Some?
      ensures sockets[s].out == old(sockets[s].NextOut()) && sockets[s].outPos == old(sockets[s].outPos)
      ensures QueueView() == old(QueueView())[peers[s] := old(sockets[s].NextQueue())]
      ensures SlotView() == old(SlotView())[s := SlotView()[s]]
    {
      assert QueueValid(peers[s]);
      ready := sockets[s].PrepareMessage();
      forall c | 0 <= c < |outQueues| ensures QueueValid(c) { assert old(QueueValid(c)); }
    }

    /**
     One round of nonblock_write_messages on a socket: it writes a part of one message. After a
     failure the bytes written before it do not count. It fails exactly if the socket's last answer is
     a failure.
     */
    method WriteSocket(s: nat) returns (ok: bool, more: bool, ghost n: nat, ghost r: IoResult)
      requires Valid() && s < |sockets|
      modifies outQueues, sockets, pending, set r | 0 <= r < |sockets| :: sockets[r].sink
      ensures Valid()
      ensures n == 0 ==> View() == Prepare(old(View()), s)
      ensures n > 0 ==> MayWrite(Prepare(old(View()), s), s, n) && View() == Write(Prepare(old(View()), s), s, n)
      ensures !ok ==> n == 0
      ensures more <==> n > 0 && sockets[s].out == None
      ensures old(sockets[s].NextOut()) == None ==> ok && sockets[s].sink.answers == old(sockets[s].sink.answers)
      ensures old(sockets[s].NextOut()).Some? ==>
                LastAnswer(old(sockets[s].sink.answers), sockets[s].sink.answers, r) && (ok <==> !r.Failed?)
    {
      ghost var p, o := Prepare(View(), s), View();
      assert QueueValid(peers[s]);
      SlotIsValid(s);
      ghost var written;
      ok, more, written, r := WriteAt(s);
      n := if ok then |written| else 0;
      WriteOutcome(o, View(), s, n, more);
    }

    lemma SlotIsValid(s: nat)
      requires Valid() && s < |sockets|
      ensures ValidSlot(Prepare(View(), s).slots[s])
    {
      assert sockets[s].WriteValid() && QueueValid(peers[s]);
      assert QueueView()[peers[s]] == outQueues[peers[s]].Contents();
      if outQueues[peers[s]].Contents() != [] {
        assert outQueues[peers[s]].Contents()[0] in outQueues[peers[s]].Contents();
      }
    }

    method WriteAt(s: nat) returns (ok: bool, more: bool, ghost written: seq<byte>, ghost r: IoResult)
      requires Valid() && s < |sockets|
      modifies outQueues, sockets, pending, set r | 0 <= r < |sockets| :: sockets[r].sink
      ensures Valid()
      ensures QueueView() == old(QueueView())[peers[s] := old(sockets[s].NextQueue())]
      ensures SlotView() == old(SlotView())[s := SlotView()[s]]
      ensures old(sockets[s].NextOut()) == None ==> ok && !more && written == [] && sockets[s].out == None
      ensures ok && old(sockets[s].NextOut()).Some? ==>
                var m, end := old(sockets[s].NextOut().value), old(sockets[s].outPos) + |written|;
                && end <= |m| && (more <==> end == |m|)
                && sockets[s].out == (if more then None else Some(m))
                && sockets[s].outPos == (if more then 0 else end)
                && (more ==> written != [])
      ensures !ok ==> !more && sockets[s].out == old(sockets[s].NextOut())
                      && sockets[s].outPos == old(sockets[s].outPos)
      ensures old(sockets[s].NextOut()) == None ==> sockets[s].sink.answers == old(sockets[s].sink.answers)
      ensures old(sockets[s].NextOut()).Some? ==>
                LastAnswer(old(sockets[s].sink.answers), sockets[s].sink.answers, r) && (ok <==> !r.Failed?)
      ensures var size := if more then |old(sockets[s].NextOut()).value| else 0;
              && pending.messages == (if more then Wrap64(old(pending.messages) - 1) else old(pending.messages))
              && pending.size == (if more then Wrap64(old(pending.size) - size) else old(pending.size))
    {
      assert QueueValid(peers[s]);
      ok, more, written, r := sockets[s].NonblockWriteMessage();
      forall c | 0 <= c < |outQueues| ensures QueueValid(c) { assert old(QueueValid(c)); }
    }

    /**
     The intake loop of process_mpi_messages: arrived is what MPI has waiting, in order. It
     stops when MPI has nothing more, after 16 messages, or when the throttle says so.
     */
    method ReceiveData(arrived: seq<Frame>) returns (taken: nat)
      requires Valid()
      requires forall m :: m in arrived ==> WellFramed(Data, m) && GetClusterRank(DstPid(m)) < |outQueues|
      modifies this`nodes, pending, outQueues, nodes
      ensures Valid() && taken <= |arrived| && taken <= 16
      ensures AcceptsAll(old(View()), arrived[..taken], View())
      ensures taken == |arrived| || taken == 16 || View().messages >= 128 || View().size >= 0x4000_0000
    {
      taken := 0;
      var receivedData := true;
      var count := 0;
      assert AcceptsAll(View(), [], View());
      while pending.messages < MAX_PENDING_DATA_MSG && pending.size < MAX_PENDING_DATA_SIZE
            && receivedData && count < MAX_MPI_RECEIVE_SEQUENCE
        invariant Valid() && fresh(nodes - old(nodes))
        invariant taken <= |arrived| && count <= MAX_MPI_RECEIVE_SEQUENCE
        invariant if receivedData then taken == count else taken == |arrived| && taken == count - 1
        invariant AcceptsAll(old(View()), arrived[..taken], View())
        decreases MAX_MPI_RECEIVE_SEQUENCE - count
      {
        receivedData := taken < |arrived|;
        if receivedData {
          ghost var o := View();
          EnqueueDataMessage(arrived[taken], |arrived[taken]|);
          AcceptsOneMore(old(View()), arrived, taken, o);
          taken := taken + 1;
        }
        count := count + 1;
      }
    }
  }

  /** o' is o after the messages ms were accepted one by one, each under the throttle. */
  ghost predicate AcceptsAll(o: Outbound, ms: seq<Frame>, o': Outbound) {
    if ms == [] then o == o'
    else
      var m := ms[|ms| - 1];
      exists mid :: AcceptsAll(o, ms[..|ms| - 1], mid) && MayAccept(mid)
                    && WellFramed(Data, m) && GetClusterRank(DstPid(m)) < |mid.queues| && o' == Accept(mid, m)
  }

  lemma AcceptsOneMore(o: Outbound, ms: seq<Frame>, k: nat, mid: Outbound)
    requires k < |ms| && AcceptsAll(o, ms[..k], mid) && MayAccept(mid)
    requires WellFramed(Data, ms[k]) && GetClusterRank(DstPid(ms[k])) < |mid.queues|
    ensures AcceptsAll(o, ms[..k + 1], Accept(mid, ms[k]))
  {
    assert ms[..k + 1][..k] == ms[..k];
  }

  /** What the fields of a socket say after a write is what the pure actions say. */
  lemma WriteOutcome(o: Outbound, o': Outbound, s: nat, n: nat, more: bool)
    requires s < |o.slots| && o.slots[s].peer < |o.queues|
    requires var p := Prepare(o, s);
             && o'.queues == p.queues && |o'.slots| == |o.slots| && o'.slots == o.slots[s := o'.slots[s]]
             && o'.slots[s].peer == o.slots[s].peer
             && match p.slots[s].out
                case None => o'.slots[s].out == None && o'.slots[s].outPos == p.slots[s].outPos && n == 0 && !more
                case Some(m) =>
                  var end := p.slots[s].outPos + n;
                  && end <= |m| && (more <==> end == |m|) && (more ==> n > 0)
                  && o'.slots[s].out == (if more then None else Some(m))
                  && o'.slots[s].outPos == (if more then 0 else end)
    requires var size := if more then |Prepare(o, s).slots[s].out.value| else 0;
             && o'.messages == (if more then Wrap64(o.messages - 1) else o.messages)
             && o'.size == (if more then Wrap64(o.size - size) else o.size)
    ensures n == 0 ==> o' == Prepare(o, s)
    ensures n > 0 ==> MayWrite(Prepare(o, s), s, n) && o' == Write(Prepare(o, s), s, n)
  {
    var p := Prepare(o, s);
    assert p.slots == o.slots[s := p.slots[s]];
  }
}
