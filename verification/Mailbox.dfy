/**
 The receiving end in an application process: messages that arrive before a receive asks
 for them wait in the queue of their communicator, and a receive takes the earliest match.
 */
module Mailbox {
  import opened Common
  import opened Messages
  import opened MessageQueue

  /** What has become of an arrived message. Dropped: its communicator did not exist. */
  datatype Fate = Waiting | Consumed | Dropped

  ghost predicate History(arrived: seq<Frame>, fate: seq<Fate>) {
    |arrived| == |fate| && forall i :: 0 <= i < |arrived| ==> IsDataMessage(arrived[i])
  }

  /** The waiting messages of a communicator, in arrival order. */
  ghost function WaitingFor(arrived: seq<Frame>, fate: seq<Fate>, comm: int): seq<Frame>
    requires History(arrived, fate)
  {
    if arrived == [] then []
    else
      var n := |arrived| - 1;
      WaitingFor(arrived[..n], fate[..n], comm)
      + (if fate[n] == Waiting && Comm(arrived[n]) == comm then [arrived[n]] else [])
  }

  ghost predicate Answers(arrived: seq<Frame>, fate: seq<Fate>, r: Request, i: nat)
    requires History(arrived, fate) && i < |arrived|
  {
    fate[i] == Waiting && MatchMessage(r, arrived[i])
  }

  /** Arrival i is the earliest one still waiting that answers the receive r. */
  ghost predicate Earliest(arrived: seq<Frame>, fate: seq<Fate>, r: Request, i: nat)
    requires History(arrived, fate)
  {
    && i < |arrived| && Answers(arrived, fate, r, i)
    && forall j :: 0 <= j < i ==> !Answers(arrived, fate, r, j)
  }

  ghost predicate NoAnswer(arrived: seq<Frame>, fate: seq<Fate>, r: Request)
    requires History(arrived, fate)
  {
    forall j :: 0 <= j < |arrived| ==> !Answers(arrived, fate, r, j)
  }

  /** The fields of m are those asked for; -1 asks for any source or any tag. */
  ghost predicate HasFields(m: Frame, comm: int, source: int, tag: int) {
    |m| >= DATA_MESSAGE_SIZE && Comm(m) == comm && (source == -1 || Source(m) == source) && (tag == -1 || Tag(m) == tag)
  }

  /** A receive for (comm, source, tag) took arrival i: it has these fields, and none that waited before it. */
  ghost predicate TookFirst(arrived: seq<Frame>, fate: seq<Fate>, comm: int, source: int, tag: int, i: nat)
    requires |fate| <= |arrived|
  {
    && i < |arrived| && HasFields(arrived[i], comm, source, tag) && (i < |fate| ==> fate[i] == Waiting)
    && NoneBefore(arrived, fate, comm, source, tag, i)
  }

  /** Below n, no arrival that waited at first (fate) or came later has these fields. */
  ghost predicate NoneBefore(arrived: seq<Frame>, fate: seq<Fate>, comm: int, source: int, tag: int, n: nat)
    requires |fate| <= |arrived| && n <= |arrived|
  {
    forall j :: 0 <= j < n && (j < |fate| ==> fate[j] == Waiting) ==> !HasFields(arrived[j], comm, source, tag)
  }

  /** A message with these fields is waiting, or is the first of those still to be received. */
  ghost predicate AtHand(arrived: seq<Frame>, fate: seq<Fate>, pending: seq<Frame>, comm: int, source: int, tag: int)
    requires |fate| == |arrived|
  {
    || (exists j :: 0 <= j < |arrived| && fate[j] == Waiting && HasFields(arrived[j], comm, source, tag))
    || (pending != [] && HasFields(pending[0], comm, source, tag))
  }

  function Accepts(r: Request): Frame -> bool {
    m => |m| >= DATA_MESSAGE_SIZE && MatchMessage(r, m)
  }

  /** One more arrival. */
  lemma WaitingAfterArrival(arrived: seq<Frame>, fate: seq<Fate>, m: Frame, f: Fate, comm: int)
    requires History(arrived, fate) && IsDataMessage(m)
    ensures WaitingFor(arrived + [m], fate + [f], comm)
            == WaitingFor(arrived, fate, comm) + (if f == Waiting && Comm(m) == comm then [m] else [])
  {
    assert (arrived + [m])[..|arrived|] == arrived && (fate + [f])[..|fate|] == fate;
  }

  /** The k-th waiting message of a communicator, found back among the arrivals. */
  lemma {:induction false} FindArrival(arrived: seq<Frame>, fate: seq<Fate>, comm: int, k: nat) returns (i: nat)
    requires History(arrived, fate) && k < |WaitingFor(arrived, fate, comm)|
    ensures i < |arrived| && fate[i] == Waiting && Comm(arrived[i]) == comm
    ensures arrived[i] == WaitingFor(arrived, fate, comm)[k]
    ensures forall j :: 0 <= j < i && fate[j] == Waiting && Comm(arrived[j]) == comm ==>
              arrived[j] in WaitingFor(arrived, fate, comm)[..k]
    ensures WaitingFor(arrived, fate[i := Consumed], comm) == RemoveAt(WaitingFor(arrived, fate, comm), k)
  {
    var n := |arrived| - 1;
    var front := WaitingFor(arrived[..n], fate[..n], comm);
    if k < |front| {
      i := FindArrival(arrived[..n], fate[..n], comm, k);
      assert fate[i := Consumed][..n] == fate[..n][i := Consumed];
      assert WaitingFor(arrived, fate, comm)[..k] == front[..k];
    } else {
      i := n;
      assert fate[i := Consumed][..n] == fate[..n];
      assert WaitingFor(arrived, fate, comm)[..k] == front;
      forall j | 0 <= j < n && fate[j] == Waiting && Comm(arrived[j]) == comm ensures arrived[j] in front {
        WaitingMembers(arrived[..n], fate[..n], comm, j);
      }
    }
  }

  lemma {:induction false} WaitingMembers(arrived: seq<Frame>, fate: seq<Fate>, comm: int, j: nat)
    requires History(arrived, fate) && j < |arrived| && fate[j] == Waiting && Comm(arrived[j]) == comm
    ensures arrived[j] in WaitingFor(arrived, fate, comm)
  {
    if j < |arrived| - 1 { WaitingMembers(arrived[..|arrived| - 1], fate[..|arrived| - 1], comm, j); }
  }

  /** Consuming a message of one communicator does not touch the queues of the others. */
  lemma {:induction false} ConsumeElsewhere(arrived: seq<Frame>, fate: seq<Fate>, i: nat, comm: int)
    requires History(arrived, fate) && i < |arrived| && Comm(arrived[i]) != comm
    ensures WaitingFor(arrived, fate[i := Consumed], comm) == WaitingFor(arrived, fate, comm)
  {
    var n := |arrived| - 1;
    if i < n {
      assert fate[i := Consumed][..n] == fate[..n][i := Consumed];
      ConsumeElsewhere(arrived[..n], fate[..n], i, comm);
    } else {
      assert fate[i := Consumed][..n] == fate[..n];
    }
  }

  /** The first match in the queue is the earliest waiting answer among all arrivals. */
  lemma FirstMatchIsEarliest(arrived: seq<Frame>, fate: seq<Fate>, r: Request) returns (i: nat)
    requires History(arrived, fate)
    requires var q := WaitingFor(arrived, fate, r.comm); FirstMatch(q, Accepts(r)) < |q|
    ensures Earliest(arrived, fate, r, i)
    ensures var q := WaitingFor(arrived, fate, r.comm); var k := FirstMatch(q, Accepts(r));
            && arrived[i] == q[k]
            && WaitingFor(arrived, fate[i := Consumed], r.comm) == RemoveAt(q, k)
    ensures forall c :: c != r.comm ==> WaitingFor(arrived, fate[i := Consumed], c) == WaitingFor(arrived, fate, c)
  {
    var q := WaitingFor(arrived, fate, r.comm);
    var k := FirstMatch(q, Accepts(r));
    i := FindArrival(arrived, fate, r.comm, k);
    forall c | c != r.comm ensures WaitingFor(arrived, fate[i := Consumed], c) == WaitingFor(arrived, fate, c) {
      ConsumeElsewhere(arrived, fate, i, c);
    }
    forall j | 0 <= j < i ensures !Answers(arrived, fate, r, j) {}
  }

  lemma NoMatchNoAnswer(arrived: seq<Frame>, fate: seq<Fate>, r: Request)
    requires History(arrived, fate)
    requires var q := WaitingFor(arrived, fate, r.comm); FirstMatch(q, Accepts(r)) == |q|
    ensures NoAnswer(arrived, fate, r)
  {
    var q := WaitingFor(arrived, fate, r.comm);
    forall j | 0 <= j < |arrived| ensures !Answers(arrived, fate, r, j) {
      if Answers(arrived, fate, r, j) { WaitingMembers(arrived, fate, r.comm, j); }
    }
  }

  lemma AnswerFields(arrived: seq<Frame>, fate: seq<Fate>, r: Request)
    requires History(arrived, fate)
    ensures NoAnswer(arrived, fate, r)
            <==> !AtHand(arrived, fate, [], r.comm, r.source, r.tag)
  {
    forall j | 0 <= j < |arrived|
      ensures Answers(arrived, fate, r, j)
              <==> fate[j] == Waiting && HasFields(arrived[j], r.comm, r.source, r.tag)
    {
    }
  }

  /** What becomes of messages that are stored because no receive takes them on arrival. */
  ghost function StoredFates(ms: seq<Frame>, live: set<int>): seq<Fate>
    requires forall i :: 0 <= i < |ms| ==> IsDataMessage(ms[i])
  {
    seq(|ms|, i requires 0 <= i < |ms| && IsDataMessage(ms[i]) => if Comm(ms[i]) in live then Waiting else Dropped)
  }

  /** A match among new arrivals is the earliest answer when nothing before it is one. */
  lemma NewMatchIsEarliest(arrived: seq<Frame>, fate: seq<Fate>, r: Request, m: Frame)
    requires History(arrived, fate) && NoAnswer(arrived, fate, r) && IsDataMessage(m) && MatchMessage(r, m)
    ensures Earliest(arrived + [m], fate + [Waiting], r, |arrived|)
  {
    forall j | 0 <= j < |arrived| ensures !Answers(arrived + [m], fate + [Waiting], r, j) {
      assert !Answers(arrived, fate, r, j);
    }
  }

  /** Storing one more arrival. */
  lemma StoredFatesNext(before: seq<Fate>, arrived: seq<Frame>, m: Frame, live: set<int>)
    requires |before| <= |arrived| && IsDataMessage(m) && forall i :: 0 <= i < |arrived| ==> IsDataMessage(arrived[i])
    ensures before + StoredFates((arrived + [m])[|before|..], live)
            == before + StoredFates(arrived[|before|..], live) + [if Comm(m) in live then Waiting else Dropped]
  {
    assert (arrived + [m])[|before|..] == arrived[|before|..] + [m];
  }

  lemma StoredIsNoAnswer(arrived: seq<Frame>, fate: seq<Fate>, r: Request, m: Frame, f: Fate)
    requires History(arrived, fate) && NoAnswer(arrived, fate, r) && IsDataMessage(m) && !MatchMessage(r, m)
    ensures NoAnswer(arrived + [m], fate + [f], r)
  {
    forall j | 0 <= j <= |arrived| ensures !Answers(arrived + [m], fate + [f], r, j) {
      if j < |arrived| { assert !Answers(arrived, fate, r, j); }
    }
  }

  /** The messages gateways have delivered and MPI has not yet handed over, in probe order. */
  class Arrivals {
    var pending: seq<Frame>

    constructor (pending: seq<Frame>)
      ensures this.pending == pending
    {
      this.pending := pending;
    }
  }

  class Inbox {
    var queues: map<int, seq<Frame>>  // by handle, for the communicators that exist
    ghost var arrived: seq<Frame>
    ghost var fate: seq<Fate>

    /** Every waiting message is in the queue of its communicator, in arrival order. */
    ghost predicate Valid()
      reads this
    {
      && History(arrived, fate)
      && (forall c :: c in queues ==> queues[c] == WaitingFor(arrived, fate, c))
      && (forall i :: 0 <= i < |fate| && fate[i] == Waiting ==> Comm(arrived[i]) in queues)
    }

    constructor (handles: set<int>)
      ensures Valid() && queues.Keys == handles && arrived == []
    {
      queues := map c | c in handles :: [];
      arrived, fate := [], [];
    }

    ghost predicate FutureOk(net: Arrivals)
      reads net
    {
      forall i :: 0 <= i < |net.pending| ==> IsDataMessage(net.pending[i])
    }

    /** store_message: to the end of its communicator's queue, or nowhere. */
    method StoreMessage(m: Frame)
      requires Valid() && IsDataMessage(m)
      modifies this
      ensures Valid() && queues.Keys == old(queues.Keys) && arrived == old(arrived) + [m]
      ensures fate == old(fate) + [if Comm(m) in queues then Waiting else Dropped]
    {
      var c := Comm(m);
      ghost var f := if c in queues then Waiting else Dropped;
      forall d | d in queues
        ensures WaitingFor(arrived + [m], fate + [f], d) == queues[d] + (if d == c then [m] else [])
      {
        WaitingAfterArrival(arrived, fate, m, f, d);
      }
      if c in queues { queues := queues[c := queues[c] + [m]]; }
      arrived, fate := arrived + [m], fate + [f];
    }

    /** find_pending_message. */
    method FindPending(r: Request) returns (m: Option<Frame>, ghost i: nat)
      requires Valid() && r.comm in queues
      modifies this
      ensures Valid() && queues.Keys == old(queues.Keys) && arrived == old(arrived)
      ensures m == None ==> fate == old(fate) && NoAnswer(arrived, fate, r)
      ensures m.Some? ==> Earliest(arrived, old(fate), r, i) && m.value == arrived[i]
                          && fate == old(fate)[i := Consumed]
    {
      var q := queues[r.comm];
      var k := FirstMatch(q, Accepts(r));
      i := 0;
      if k == |q| {
        NoMatchNoAnswer(arrived, fate, r);
        return None, i;
      }
      i := FirstMatchIsEarliest(arrived, fate, r);
      m := Some(q[k]);
      queues := queues[r.comm := RemoveAt(q, k)];
      fate := fate[i := Consumed];
    }

    /** One message is probed and received: it is taken if it matches, and stored otherwise. */
    method TakeOne(r: Request, net: Arrivals) returns (m: Option<Frame>)
      requires Valid() && r.comm in queues && net.pending != [] && FutureOk(net)
      modifies this, net
      ensures Valid() && queues.Keys == old(queues.Keys) && net.pending == old(net.pending)[1..]
      ensures arrived == old(arrived) + [old(net.pending)[0]]
      ensures var next := old(net.pending)[0];
              if MatchMessage(r, next) then m == Some(next) && fate == old(fate) + [Consumed]
              else m == None && fate == old(fate) + [if Comm(next) in queues then Waiting else Dropped]
    {
      var next := net.pending[0];
      net.pending := net.pending[1..];
      if MatchMessage(r, next) {
        forall d | d in queues ensures WaitingFor(arrived + [next], fate + [Consumed], d) == queues[d] {
          WaitingAfterArrival(arrived, fate, next, Consumed, d);
        }
        arrived, fate := arrived + [next], fate + [Consumed];
        return Some(next);
      }
      StoreMessage(next);
      m := None;
    }

    /**
     The arrivals loop of a receive that found nothing waiting. It is as if all arrivals it
     took had been stored, and then the earliest match consumed. None: it is still blocked
     (or, when not blocking, gave up after one arrival).
     */
    method AwaitMatch(r: Request, net: Arrivals, blocking: bool) returns (m: Option<Frame>, ghost i: nat)
      requires Valid() && r.comm in queues && FutureOk(net) && NoAnswer(arrived, fate, r)
      modifies this, net
      ensures Valid() && queues.Keys == old(queues.Keys) && FutureOk(net) && Took(old(arrived), old(net.pending), net)
      ensures Outcome(old(fate), r, m, i)
      ensures m == None && blocking ==> net.pending == []
      ensures m.Some? ==> i == |arrived| - 1 && i >= |old(arrived)|
      ensures !blocking ==> |arrived| == |old(arrived)| + if old(net.pending) == [] then 0 else 1
      ensures !blocking ==> (m.Some? <==> old(net.pending) != [] && MatchMessage(r, old(net.pending)[0]))
    {
      m, i := None, 0;
      var again := true;
      StoredNothing();
      while again && net.pending != []
        invariant Valid() && queues.Keys == old(queues.Keys) && FutureOk(net)
        invariant Took(old(arrived), old(net.pending), net)
        invariant m == None && Outcome(old(fate), r, m, i)
        invariant blocking ==> again
        invariant !blocking ==> |arrived| == |old(arrived)| + if again then 0 else 1
        invariant !blocking && !again ==> old(net.pending) != [] && !MatchMessage(r, old(net.pending)[0])
        invariant !blocking && again ==> net.pending == old(net.pending)
        invariant |arrived| >= |old(arrived)|
        decreases |net.pending|
      {
        ghost var got, left := arrived, net.pending;
        m, i := AwaitOne(old(fate), r, net);
        TookMore(old(arrived), old(net.pending), got, left, arrived, net.pending);
        if m.Some? { return; }
        again := blocking;
      }
    }

    static lemma TookMore(before: seq<Frame>, offered: seq<Frame>, got: seq<Frame>, left: seq<Frame>,
                          got': seq<Frame>, left': seq<Frame>)
      requires before <= got && offered == got[|before|..] + left && left != []
      requires got' == got + [left[0]] && left' == left[1..]
      ensures before <= got' && offered == got'[|before|..] + left'
    {
      assert got'[|before|..] == got[|before|..] + [left[0]];
      assert [left[0]] + left' == left;
    }

    /** One turn of the arrivals loop. */
    method AwaitOne(ghost before: seq<Fate>, r: Request, net: Arrivals) returns (m: Option<Frame>, ghost i: nat)
      requires Valid() && r.comm in queues && FutureOk(net) && net.pending != []
      requires |before| <= |arrived| && Outcome(before, r, None, 0)
      modifies this, net
      ensures Valid() && queues.Keys == old(queues.Keys) && FutureOk(net)
      ensures arrived == old(arrived) + [old(net.pending)[0]] && net.pending == old(net.pending)[1..]
      ensures Outcome(before, r, m, i) && i == |old(arrived)|
      ensures m.Some? <==> MatchMessage(r, old(net.pending)[0])
    {
      ghost var all, fates, next := arrived, fate, net.pending[0];
      i := |arrived|;
      StoredFatesNext(before, all, next, queues.Keys);
      m := TakeOne(r, net);
      if m.Some? {
        NewMatchIsEarliest(all, fates, r, next);
        assert fate == (fates + [Waiting])[i := Consumed];
      } else {
        StoredIsNoAnswer(all, fates, r, next, fate[i]);
      }
    }

    lemma StoredNothing()
      requires Valid()
      ensures fate + StoredFates(arrived[|fate|..], queues.Keys) == fate
    {
      assert arrived[|fate|..] == [];
    }

    /** arrived has grown by what was taken from the network. */
    ghost predicate Took(before: seq<Frame>, offered: seq<Frame>, net: Arrivals)
      reads this, net
    {
      before <= arrived && offered == arrived[|before|..] + net.pending
    }

    /** The fates after a receive: everything new stored, then the earliest answer, if any, consumed. */
    ghost predicate Outcome(before: seq<Fate>, r: Request, m: Option<Frame>, i: nat)
      requires Valid() && |before| <= |arrived|
      reads this
    {
      var stored := before + StoredFates(arrived[|before|..], queues.Keys);
      if m == None then fate == stored && NoAnswer(arrived, fate, r)
      else Earliest(arrived, stored, r, i) && m.value == arrived[i] && fate == stored[i := Consumed]
    }

    /** What the outcome of a receive says of the fields of the messages. */
    lemma OutcomeFields(before: seq<Fate>, r: Request, m: Option<Frame>, i: nat)
      requires Valid() && |before| <= |arrived| && r.comm in queues && Outcome(before, r, m, i)
      ensures if m.Some? then m.value == arrived[i] && TookFirst(arrived, before, r.comm, r.source, r.tag, i)
              else NoneBefore(arrived, before, r.comm, r.source, r.tag, |arrived|)
    {
      var stored := before + StoredFates(arrived[|before|..], queues.Keys);
      var n := if m.Some? then i else |arrived|;
      forall j | 0 <= j < n && (j < |before| ==> before[j] == Waiting)
        ensures !HasFields(arrived[j], r.comm, r.source, r.tag)
      {
        assert !Answers(arrived, stored, r, j);
        assert j >= |before| ==> arrived[|before|..][j - |before|] == arrived[j];
      }
    }

    /**
     messaging_receive. It takes the first message with the fields asked for, among those that
     waited and then those that arrive, and no arrival behind that.
     */
    method Receive(r: Request, net: Arrivals) returns (m: Option<Frame>, ghost i: nat)
      requires Valid() && r.comm in queues && FutureOk(net)
      modifies this, net
      ensures Valid() && queues.Keys == old(queues.Keys) && FutureOk(net) && Took(old(arrived), old(net.pending), net)
      ensures Outcome(old(fate), r, m, i)
      ensures m == None ==> net.pending == [] && NoneBefore(arrived, old(fate), r.comm, r.source, r.tag, |arrived|)
      ensures m.Some? ==> TookFirst(arrived, old(fate), r.comm, r.source, r.tag, i) && m.value == arrived[i]
      ensures m.Some? ==> if i < |old(arrived)| then arrived == old(arrived) else i == |arrived| - 1
    {
      StoredNothing();
      m, i := FindPending(r);
      if m == None {
        m, i := AwaitMatch(r, net, true);
      }
      OutcomeFields(old(fate), r, m, i);
    }

    /** The search of messaging_probe_receive: among the waiting messages, then among the arrivals. */
    method ProbeOnce(r: Request, blocking: bool, net: Arrivals) returns (m: Option<Frame>, ghost i: nat)
      requires Valid() && r.comm in queues && FutureOk(net)
      modifies this, net
      ensures Valid() && queues.Keys == old(queues.Keys) && FutureOk(net) && Took(old(arrived), old(net.pending), net)
      ensures Outcome(old(fate), r, m, i)
      ensures m == None && blocking ==> net.pending == []
      ensures m.Some? ==> TookFirst(arrived, old(fate), r.comm, r.source, r.tag, i) && m.value == arrived[i]
      ensures m.Some? ==> if i < |old(arrived)| then arrived == old(arrived) else i == |arrived| - 1
      ensures !blocking ==>
                if m.Some? && i < |old(arrived)| then arrived == old(arrived)
                else |arrived| == |old(arrived)| + if old(net.pending) == [] then 0 else 1
      ensures !blocking ==>
                (m.Some? <==> AtHand(old(arrived), old(fate), old(net.pending), r.comm, r.source, r.tag))
    {
      StoredNothing();
      m, i := FindPending(r);
      if m == None {
        AnswerFields(arrived, fate, r);
        m, i := AwaitMatch(r, net, blocking);
      } else {
        AnswerFields(arrived, old(fate), r);
      }
      OutcomeFields(old(fate), r, m, i);
    }

    /**
     messaging_probe_receive: a request completes at most once, with the earliest match. When not
     blocking, that is exactly if a waiting message or the first arrival has the fields asked for.
     */
    method ProbeReceive(q: RecvRequest, blocking: bool, net: Arrivals) returns (ghost i: nat)
      requires Valid() && q.request.comm in queues && FutureOk(net)
      modifies this, net, q
      ensures Valid() && queues.Keys == old(queues.Keys) && FutureOk(net) && Took(old(arrived), old(net.pending), net)
      ensures old(q.completed) ==> q.completed && arrived == old(arrived) && fate == old(fate)
                                   && q.message == old(q.message)
      ensures !old(q.completed) ==> Outcome(old(fate), q.request, q.message, i) && q.completed == q.message.Some?
      ensures !q.completed && blocking ==> net.pending == []
      ensures !old(q.completed) && q.completed ==>
                && TookFirst(arrived, old(fate), q.request.comm, q.request.source, q.request.tag, i)
                && q.message == Some(arrived[i])
                && if i < |old(arrived)| then arrived == old(arrived) else i == |arrived| - 1
      ensures !blocking && !old(q.completed) ==>
                if q.completed && i < |old(arrived)| then arrived == old(arrived)
                else |arrived| == |old(arrived)| + if old(net.pending) == [] then 0 else 1
      ensures !blocking && !old(q.completed) ==>
                (q.completed <==> AtHand(old(arrived), old(fate), old(net.pending),
                                         q.request.comm, q.request.source, q.request.tag))
      ensures q.unpacked == old(q.unpacked)
    {
      i := 0;
      if q.completed { return; }
      var m;
      m, i := ProbeOnce(q.request, blocking, net);
      q.message, q.completed := m, m.Some?;
    }
  }

  /** A pending non-blocking receive. */
  class RecvRequest {
    const request: Request
    var completed: bool
    var unpacked: bool
    var message: Option<Frame>

    constructor (request: Request)
      ensures this.request == request && !completed && !unpacked && message == None
    {
      this.request, completed, unpacked, message := request, false, false, None;
    }

    /** messaging_finalize_receive: the payload is handed over by the first successful call only. */
    method FinalizeReceive() returns (ok: bool, payload: Option<Frame>)
      requires completed ==> message.Some? && |message.value| >= DATA_MESSAGE_SIZE
      modifies this`unpacked
      ensures ok <==> completed
      ensures payload == if completed && !old(unpacked) then Some(message.value[DATA_MESSAGE_SIZE..]) else None
      ensures unpacked == (completed || old(unpacked))
    {
      payload := None;
      if !completed { return false, payload; }
      if unpacked { return true, payload; }
      payload := Some(message.value[DATA_MESSAGE_SIZE..]);
      unpacked := true;
      ok := true;
    }
  }
}
