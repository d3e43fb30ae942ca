/**
 The wide-area Alltoallv: in phase i rank i receives from everyone in rank order while all
 others send to it.
 */
module Alltoallv {
  import opened Common
  import opened Choreography
  import opened Buffers

  /** data[s][r]: what rank s has for rank r. */
  type Matrix<T> = seq<seq<seq<T>>>

  ghost predicate Square<T>(data: Matrix<T>) { forall s :: 0 <= s < |data| ==> |data[s]| == |data| }

  /** The messages of the phases below r, and those of phase r that ranks below s send. */
  function Messages<T>(data: Matrix<T>, r: nat, s: nat): seq<Message<seq<T>>>
    requires Square(data) && r <= |data| && s <= |data| && (s > 0 ==> r < |data|)
    decreases r, s
  {
    if s == 0 then (if r == 0 then [] else Messages(data, r - 1, |data|))
    else if s - 1 == r then Messages(data, r, s - 1)
    else Messages(data, r, s - 1) + [Message(s - 1, r, data[s - 1][r])]
  }

  function AllMessages<T>(data: Matrix<T>): seq<Message<seq<T>>>
    requires Square(data)
  {
    Messages(data, |data|, 0)
  }

  /** What WA_Alltoallv does on one rank, with mine[i] its block for rank i: its first i phases. */
  function RankProgram<T>(me: nat, mine: seq<seq<T>>, i: nat): seq<Op<seq<T>>>
    requires i <= |mine|
  {
    if i == 0 then []
    else RankProgram(me, mine, i - 1)
         + (if i - 1 == me then ReceiveOps(me, |mine|) else [SendTo(i - 1, mine[i - 1])])
  }

  /** The blocks of a send buffer. */
  ghost function Blocks<T>(buf: seq<T>, displs: seq<nat>, counts: seq<nat>): seq<seq<T>>
    requires |displs| == |counts| && forall i :: 0 <= i < |counts| ==> displs[i] + counts[i] <= |buf|
  {
    seq(|counts|, i requires 0 <= i < |counts| && displs[i] + counts[i] <= |buf| =>
      buf[displs[i]..displs[i] + counts[i]])
  }

  /**
   WA_Alltoallv on rank me. incoming[j] is what the receive from rank j delivers; ops records
   the sends and receives in the order they are made.
   */
  method WaAlltoallv<T>(me: nat, sendbuf: seq<T>, sendcounts: seq<nat>, sdispls: seq<nat>,
                        recvbuf: array<T>, recvcounts: seq<nat>, rdispls: seq<nat>, incoming: seq<seq<T>>)
    returns (ops: seq<Op<seq<T>>>)
    requires me < |sendcounts| == |sdispls| == |recvcounts| == |rdispls| == |incoming|
    requires forall i :: 0 <= i < |sendcounts| ==> sdispls[i] + sendcounts[i] <= |sendbuf|
    requires forall j :: 0 <= j < |incoming| ==> |incoming[j]| == recvcounts[j]
    requires incoming[me] == Blocks(sendbuf, sdispls, sendcounts)[me]
    requires Fits(recvbuf.Length, rdispls, incoming)
    modifies recvbuf
    ensures ops == RankProgram(me, Blocks(sendbuf, sdispls, sendcounts), |incoming|)
    ensures recvbuf[..] == PasteAll(old(recvbuf[..]), rdispls, incoming)
  {
    ops := [];
    ghost var mine := Blocks(sendbuf, sdispls, sendcounts);
    for i := 0 to |incoming|
      invariant ops == RankProgram(me, mine, i)
      invariant recvbuf[..] == if i <= me then old(recvbuf[..]) else PasteAll(old(recvbuf[..]), rdispls, incoming)
    {
      if i == me {
        var own := sendbuf[sdispls[i]..sdispls[i] + recvcounts[i]];
        assert own == mine[me];
        var receives := ReceiveFromAll(me, own, recvbuf, rdispls, incoming);
        ops := ops + receives;
      } else {
        ops := ops + [SendTo(i, sendbuf[sdispls[i]..sdispls[i] + sendcounts[i]])];
      }
    }
  }

  /** The phase in which me receives: from every rank in order, itself included by a copy. */
  method ReceiveFromAll<T>(me: nat, own: seq<T>, recvbuf: array<T>, rdispls: seq<nat>, incoming: seq<seq<T>>)
    returns (ops: seq<Op<seq<T>>>)
    requires me < |incoming| && incoming[me] == own && Fits(recvbuf.Length, rdispls, incoming)
    modifies recvbuf
    ensures ops == ReceiveOps(me, |incoming|)
    ensures recvbuf[..] == PasteAll(old(recvbuf[..]), rdispls, incoming)
  {
    ops := [];
    for j := 0 to |incoming|
      invariant ops == ReceiveOps(me, j)
      invariant recvbuf[..] == PasteAll(old(recvbuf[..]), rdispls[..j], incoming[..j])
    {
      PasteOneMore(old(recvbuf[..]), rdispls, incoming, j);
      if j == me {
        CopyInto(recvbuf, rdispls[j], own);
      } else {
        ops := ops + [RecvFrom(j)];
        CopyInto(recvbuf, rdispls[j], incoming[j]);
      }
    }
    assert rdispls[..|incoming|] == rdispls && incoming[..|incoming|] == incoming;
  }

  // ---- the rank programs are the parts of one list of messages ----

  lemma {:induction false} MessagesAddressed<T>(data: Matrix<T>, r: nat, s: nat)
    requires Square(data) && r <= |data| && s <= |data| && (s > 0 ==> r < |data|)
    ensures Addressed(Messages(data, r, s), |data|)
    decreases r, s
  {
    if s > 0 { MessagesAddressed(data, r, s - 1); } else if r > 0 { MessagesAddressed(data, r - 1, |data|); }
  }

  /** What rank p does in phase r for the ranks below s. */
  function PhaseProgram<T>(me: nat, mine: seq<seq<T>>, r: nat, s: nat): seq<Op<seq<T>>>
    requires s > 0 ==> r < |mine|
  {
    if r == me then ReceiveOps(me, s) else if me < s then [SendTo(r, mine[r])] else []
  }

  /** The messages so far give rank p its program so far, and carry p's block for q if its turn has come. */
  ghost predicate PartsOk<T>(data: Matrix<T>, r: nat, s: nat, p: nat)
    requires Square(data) && r <= |data| && s <= |data| && (s > 0 ==> r < |data|) && p < |data|
  {
    Parts(Messages(data, r, s), p) == RankProgram(p, data[p], r) + PhaseProgram(p, data[p], r, s)
  }

  /** What p has sent to q by then. */
  function Carried<T>(block: seq<T>, r: nat, s: nat, p: nat, q: nat): seq<seq<T>> {
    if q < r || (q == r && p < s) then [block] else []
  }

  ghost predicate BetweenOk<T>(data: Matrix<T>, r: nat, s: nat, p: nat, q: nat)
    requires Square(data) && r <= |data| && s <= |data| && (s > 0 ==> r < |data|)
    requires p < |data| && q < |data|
  {
    Between(Messages(data, r, s), p, q) == Carried(data[p][q], r, s, p, q)
  }

  lemma PartsTurn<T>(data: Matrix<T>, r: nat, s: nat, p: nat)
    requires Square(data) && r < |data| && s < |data| && p < |data| && PartsOk(data, r, s, p)
    ensures PartsOk(data, r, s + 1, p)
  {
    if s == r { PartsSkip(data, r, p); } else { PartsSend(data, r, s, p); }
  }

  lemma PartsSkip<T>(data: Matrix<T>, r: nat, p: nat)
    requires Square(data) && r < |data| && p < |data| && PartsOk(data, r, r, p)
    ensures PartsOk(data, r, r + 1, p)
  {}

  lemma PartsSend<T>(data: Matrix<T>, r: nat, s: nat, p: nat)
    requires Square(data) && r < |data| && s < |data| && p < |data| && s != r && PartsOk(data, r, s, p)
    ensures PartsOk(data, r, s + 1, p)
  {
    OneMoreMessage(Messages(data, r, s), Message(s, r, data[s][r]), p, 0, 0);
  }

  lemma BetweenTurn<T>(data: Matrix<T>, r: nat, s: nat, p: nat, q: nat)
    requires Square(data) && r < |data| && s < |data| && p < |data| && q < |data| && p != q
    requires BetweenOk(data, r, s, p, q)
    ensures BetweenOk(data, r, s + 1, p, q)
  {
    if s != r { OneMoreMessage(Messages(data, r, s), Message(s, r, data[s][r]), 0, p, q); }
  }

  lemma PartsInPhase<T>(data: Matrix<T>, r: nat, p: nat)
    requires Square(data) && r < |data| && p < |data| && PartsOk(data, r, 0, p)
    ensures PartsOk(data, r, |data|, p)
  {
    var n := |data|;
    var ok := (s: nat) => s <= n && PartsOk(data, r, s, p);
    forall s: nat | s < n && ok(s) ensures ok(s + 1) { PartsTurn(data, r, s, p); }
    Climb(ok, 0, n);
  }

  lemma BetweenInPhase<T>(data: Matrix<T>, r: nat, p: nat, q: nat)
    requires Square(data) && r < |data| && p < |data| && q < |data| && p != q && BetweenOk(data, r, 0, p, q)
    ensures BetweenOk(data, r, |data|, p, q)
  {
    var n := |data|;
    var ok := (s: nat) => s <= n && BetweenOk(data, r, s, p, q);
    forall s: nat | s < n && ok(s) ensures ok(s + 1) { BetweenTurn(data, r, s, p, q); }
    Climb(ok, 0, n);
  }

  lemma PartsNextPhase<T>(data: Matrix<T>, r: nat, p: nat)
    requires Square(data) && r < |data| && p < |data| && PartsOk(data, r, |data|, p)
    ensures PartsOk(data, r + 1, 0, p)
  {}

  lemma BetweenNextPhase<T>(data: Matrix<T>, r: nat, p: nat, q: nat)
    requires Square(data) && r < |data| && p < |data| && q < |data| && p != q && BetweenOk(data, r, |data|, p, q)
    ensures BetweenOk(data, r + 1, 0, p, q)
  {}

  lemma PartsOfPhase<T>(data: Matrix<T>, r: nat, p: nat)
    requires Square(data) && r < |data| && p < |data| && PartsOk(data, r, 0, p)
    ensures PartsOk(data, r + 1, 0, p)
  {
    PartsInPhase(data, r, p);
    PartsNextPhase(data, r, p);
  }

  lemma PartsInAll<T>(data: Matrix<T>, p: nat)
    requires Square(data) && p < |data|
    ensures PartsOk(data, |data|, 0, p)
  {
    var n := |data|;
    var ok := (r: nat) => r <= n && PartsOk(data, r, 0, p);
    forall r: nat | r < n && ok(r) ensures ok(r + 1) { PartsOfPhase(data, r, p); }
    Climb(ok, 0, n);
  }

  lemma BetweenOfPhase<T>(data: Matrix<T>, r: nat, p: nat, q: nat)
    requires Square(data) && r < |data| && p < |data| && q < |data| && p != q && BetweenOk(data, r, 0, p, q)
    ensures BetweenOk(data, r + 1, 0, p, q)
  {
    BetweenInPhase(data, r, p, q);
    BetweenNextPhase(data, r, p, q);
  }

  lemma BetweenInAll<T>(data: Matrix<T>, p: nat, q: nat)
    requires Square(data) && p < |data| && q < |data| && p != q
    ensures BetweenOk(data, |data|, 0, p, q)
  {
    var n := |data|;
    var ok := (r: nat) => r <= n && BetweenOk(data, r, 0, p, q);
    forall r: nat | r < n && ok(r) ensures ok(r + 1) { BetweenOfPhase(data, r, p, q); }
    Climb(ok, 0, n);
  }

  ghost function Programs<T>(data: Matrix<T>): seq<seq<Op<seq<T>>>>
    requires Square(data)
  {
    seq(|data|, p requires 0 <= p < |data| && |data[p]| == |data| => RankProgram(p, data[p], |data|))
  }

  lemma ProgramsAreParts<T>(data: Matrix<T>)
    requires Square(data)
    ensures Addressed(AllMessages(data), |data|)
    ensures forall p :: 0 <= p < |data| ==> Programs(data)[p] == Parts(AllMessages(data), p)
  {
    forall p | 0 <= p < |data| ensures Programs(data)[p] == Parts(AllMessages(data), p) {
      PartsInAll(data, p);
    }
    MessagesAddressed(data, |data|, 0);
  }

  /** No deadlock for any number of ranks, even if every send is a rendezvous; and every run ends. */
  lemma AlltoallvCompletes<T>(data: Matrix<T>, steps: seq<Step>, st: State<seq<T>>)
    requires Square(data) && Reaches(Start(Programs(data)), steps, st)
    ensures |steps| <= Left(Programs(data))
    ensures !Finished(st) ==> exists step :: Enabled(st, step) && !step.Post?
  {
    ProgramsAreParts(data);
    MessagesComplete(AllMessages(data), Programs(data), steps, st);
  }

  /**
   When it has ended, the receive of rank k from rank j delivered block k of rank j, and the
   receive buffer of rank k holds these blocks at their displacements and is unchanged elsewhere.
   */
  lemma AlltoallvDelivers<T>(data: Matrix<T>, steps: seq<Step>, st: State<seq<T>>, k: nat,
                             before: seq<T>, rdispls: seq<nat>, incoming: seq<seq<T>>)
    requires Square(data) && Reaches(Start(Programs(data)), steps, st) && Finished(st) && k < |data|
    requires |incoming| == |data| && incoming[k] == data[k][k]
    requires forall j :: 0 <= j < |data| && j != k ==> At(st.got, j, k) == [incoming[j]]
    requires Fits(|before|, rdispls, incoming) && Apart(rdispls, incoming)
    ensures var after := PasteAll(before, rdispls, incoming);
            && Scattered(before, after, rdispls, incoming)
            && forall j :: 0 <= j < |data| ==> after[rdispls[j]..rdispls[j] + |incoming[j]|] == data[j][k]
  {
    ProgramsAreParts(data);
    PasteAllScatters(before, rdispls, incoming);
    forall j | 0 <= j < |data| ensures incoming[j] == data[j][k] {
      if j != k {
        MessagesDelivered(AllMessages(data), Programs(data), steps, st, j, k);
        BetweenInAll(data, j, k);
        assert [incoming[j]][0] == [data[j][k]][0];
      }
    }
  }
}
