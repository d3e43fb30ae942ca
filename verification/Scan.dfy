/**
 The wide-area Scan: every rank receives from the ranks below it in order, merging each value
 into its buffer, and then sends its own value to the ranks above it in order.
 */
module Scan {
  import opened Common
  import opened Choreography
  import opened Reduction

  // ---- what a rank computes ----

  /** The receive buffer of a rank whose own value is own, after merging the first k values. */
  function Merged<T>(op: (T, T) -> T, xs: seq<T>, own: T, k: nat): T
    requires k <= |xs|
  {
    if k == 0 then own else op(xs[k - 1], Merged(op, xs, own, k - 1))
  }

  /** The sends and receives of rank me in its first i turns. */
  function RankProgram<T>(me: nat, own: T, i: nat): seq<Op<T>> {
    if i == 0 then []
    else if i - 1 > me then RankProgram(me, own, i - 1) + [SendTo(i - 1, own)]
    else if i - 1 < me then RankProgram(me, own, i - 1) + [RecvFrom(i - 1)]
    else RankProgram(me, own, i - 1)
  }

  /** EMPI_Scan on rank me of size; incoming[i] is what the receive from rank i delivers. */
  method WaScan<T>(op: (T, T) -> T, me: nat, size: nat, own: T, incoming: seq<T>)
    returns (recvbuf: T, ops: seq<Op<T>>)
    requires me < size && |incoming| == me
    ensures recvbuf == Merged(op, incoming, own, me)
    ensures ops == RankProgram(me, own, size)
  {
    recvbuf := own;
    ops := [];
    for i := 0 to size
      invariant ops == RankProgram(me, own, i)
      invariant recvbuf == Merged(op, incoming, own, if i < me then i else me)
    {
      if i > me {
        ops := ops + [SendTo(i, own)];
      } else if i < me {
        ops := ops + [RecvFrom(i)];
        var buffer := incoming[i];
        recvbuf := op(buffer, recvbuf);
      }
    }
  }

  lemma {:induction false} MergedIsPrefixTimesOwn<T(!new)>(op: (T, T) -> T, xs: seq<T>, own: T, k: nat)
    requires Associative(op) && LeftCommutative(op) && 0 < k <= |xs|
    ensures Merged(op, xs, own, k) == op(Fold(op, xs[..k]), own)
  {
    if k == 1 {
      assert Merged(op, xs, own, 0) == own;
    } else {
      MergedIsPrefixTimesOwn(op, xs, own, k - 1);
      assert xs[..k][..k - 1] == xs[..k - 1];
      var f, x := Fold(op, xs[..k - 1]), xs[k - 1];
      assert op(x, op(f, own)) == op(f, op(x, own)) == op(op(f, x), own);
    }
  }

  /** Rank p ends up with the reduction over ranks 0..p. */
  ghost predicate RightAt<T>(op: (T, T) -> T, xs: seq<T>, p: nat)
    requires p < |xs|
  {
    Merged(op, xs[..p], xs[p], p) == Fold(op, xs[..p + 1])
  }

  lemma ScanIsPrefixReduction<T(!new)>(op: (T, T) -> T, xs: seq<T>, p: nat)
    requires Associative(op) && LeftCommutative(op) && p < |xs|
    ensures RightAt(op, xs, p)
  {
    assert xs[..p + 1][..p] == xs[..p];
    if p > 0 {
      MergedIsPrefixTimesOwn(op, xs[..p], xs[p], p);
      assert xs[..p][..p] == xs[..p];
    }
  }

  /**
   Among associative operations, all that MPI asks of the user, Scan is right for exactly those
   for which the order of two operands to the left of a third does not matter.
   */
  lemma ScanCorrectIff<T(!new)>(op: (T, T) -> T)
    requires Associative(op)
    ensures (forall xs: seq<T>, p: nat :: p < |xs| ==> RightAt(op, xs, p)) <==> LeftCommutative(op)
  {
    if LeftCommutative(op) {
      forall xs: seq<T>, p: nat | p < |xs| ensures RightAt(op, xs, p) {
        ScanIsPrefixReduction(op, xs, p);
      }
    }
    if forall xs: seq<T>, p: nat :: p < |xs| ==> RightAt(op, xs, p) {
      forall a, b, c ensures op(a, op(b, c)) == op(b, op(a, c)) {
        ThreeRanks(op, a, b, c);
        assert RightAt(op, [a, b, c], 2);
      }
    }
  }

  /** What rank 2 of three computes, and what it should. */
  lemma ThreeRanks<T(!new)>(op: (T, T) -> T, a: T, b: T, c: T)
    ensures var xs := [a, b, c];
            Merged(op, xs[..2], xs[2], 2) == op(b, op(a, c)) && Fold(op, xs[..3]) == op(op(a, b), c)
  {
    var xs := [a, b, c];
    assert Merged(op, xs[..2], xs[2], 1) == op(a, Merged(op, xs[..2], xs[2], 0));
    assert xs[..3][..2] == [a, b] && [a, b][..1] == [a];
    assert Fold(op, [a, b]) == op(Fold(op, [a]), b);
  }

  /** Taking the first operand is associative, and Scan gets it wrong. */
  lemma ScanWrongForFirst()
    ensures var op := (a: int, b: int) => a;
            Associative(op) && Merged(op, [1, 2], 3, 2) == 2 && Fold(op, [1, 2, 3]) == 1
  {
    var op := (a: int, b: int) => a;
    ThreeRanks(op, 1, 2, 3);
    var xs := [1, 2, 3];
    assert xs[..2] == [1, 2] && xs[..3] == xs;
  }

  // ---- the sends and receives of all ranks ----

  /** The messages of the senders below i, and those of sender i to the receivers below j. */
  function Messages<T>(xs: seq<T>, i: nat, j: nat): seq<Message<T>>
    requires i <= |xs| && j <= |xs| && (j > i + 1 ==> i < |xs|)
    decreases i, j
  {
    if j > i + 1 then Messages(xs, i, j - 1) + [Message(i, j - 1, xs[i])]
    else if i == 0 then []
    else Messages(xs, i - 1, |xs|)
  }

  /** How many turns rank p has had once these messages have been exchanged. */
  function Turns(n: nat, p: nat, i: nat, j: nat): nat {
    if p < i then n
    else if p == i then (if j > i + 1 then j else i + 1)
    else if p < j then i + 1 else i
  }

  ghost predicate PartsOk<T>(xs: seq<T>, i: nat, j: nat, p: nat)
    requires i <= |xs| && j <= |xs| && (j > i + 1 ==> i < |xs|) && p < |xs|
  {
    Parts(Messages(xs, i, j), p) == RankProgram(p, xs[p], Turns(|xs|, p, i, j))
  }

  ghost predicate BetweenOk<T>(xs: seq<T>, i: nat, j: nat, s: nat, r: nat)
    requires i <= |xs| && j <= |xs| && (j > i + 1 ==> i < |xs|) && s < |xs|
  {
    Between(Messages(xs, i, j), s, r) == if s < r < |xs| && (s < i || (s == i && r < j)) then [xs[s]] else []
  }

  lemma PartsNext<T>(xs: seq<T>, i: nat, j: nat, p: nat)
    requires i < j < |xs| && p < |xs| && PartsOk(xs, i, j, p)
    ensures PartsOk(xs, i, j + 1, p)
  {
    OneMoreMessage(Messages(xs, i, j), Message(i, j, xs[i]), p, 0, 0);
    assert Turns(|xs|, p, i, j + 1) == Turns(|xs|, p, i, j) + if p == i || p == j then 1 else 0;
  }

  lemma BetweenNext<T>(xs: seq<T>, i: nat, j: nat, s: nat, r: nat)
    requires i < j < |xs| && s < |xs| && BetweenOk(xs, i, j, s, r)
    ensures BetweenOk(xs, i, j + 1, s, r)
  {
    OneMoreMessage(Messages(xs, i, j), Message(i, j, xs[i]), 0, s, r);
  }

  lemma PartsForSender<T>(xs: seq<T>, i: nat, p: nat)
    requires i < |xs| && p < |xs| && PartsOk(xs, i, i + 1, p)
    ensures PartsOk(xs, i, |xs|, p)
  {
    var n := |xs|;
    var ok := (j: nat) => i < j <= n && PartsOk(xs, i, j, p);
    forall j: nat | i + 1 <= j < n && ok(j) ensures ok(j + 1) { PartsNext(xs, i, j, p); }
    Climb(ok, i + 1, n);
  }

  lemma BetweenForSender<T>(xs: seq<T>, i: nat, s: nat, r: nat)
    requires i < |xs| && s < |xs| && BetweenOk(xs, i, i + 1, s, r)
    ensures BetweenOk(xs, i, |xs|, s, r)
  {
    var n := |xs|;
    var ok := (j: nat) => i < j <= n && BetweenOk(xs, i, j, s, r);
    forall j: nat | i + 1 <= j < n && ok(j) ensures ok(j + 1) { BetweenNext(xs, i, j, s, r); }
    Climb(ok, i + 1, n);
  }

  lemma PartsFirst<T>(xs: seq<T>, i: nat, p: nat)
    requires i < |xs| && p < |xs| && PartsOk(xs, i, 0, p)
    ensures PartsOk(xs, i, i + 1, p)
  {
    assert Messages(xs, i, i + 1) == Messages(xs, i, 0);
    assert Turns(|xs|, p, i, i + 1) == Turns(|xs|, p, i, 0);
  }

  lemma PartsNextSender<T>(xs: seq<T>, i: nat, p: nat)
    requires i < |xs| && p < |xs| && PartsOk(xs, i, |xs|, p)
    ensures PartsOk(xs, i + 1, 0, p)
  {
    assert Messages(xs, i + 1, 0) == Messages(xs, i, |xs|);
    if p == i + 1 { assert RankProgram(p, xs[p], i + 2) == RankProgram(p, xs[p], i + 1); }
  }

  lemma BetweenFirst<T>(xs: seq<T>, i: nat, s: nat, r: nat)
    requires i < |xs| && s < |xs| && BetweenOk(xs, i, 0, s, r)
    ensures BetweenOk(xs, i, i + 1, s, r)
  {
    assert Messages(xs, i, i + 1) == Messages(xs, i, 0);
  }

  lemma BetweenNextSender<T>(xs: seq<T>, i: nat, s: nat, r: nat)
    requires i < |xs| && s < |xs| && BetweenOk(xs, i, |xs|, s, r)
    ensures BetweenOk(xs, i + 1, 0, s, r)
  {
    assert Messages(xs, i + 1, 0) == Messages(xs, i, |xs|);
  }

  lemma PartsOfSender<T>(xs: seq<T>, i: nat, p: nat)
    requires i < |xs| && p < |xs| && PartsOk(xs, i, 0, p)
    ensures PartsOk(xs, i + 1, 0, p)
  {
    PartsFirst(xs, i, p);
    PartsForSender(xs, i, p);
    PartsNextSender(xs, i, p);
  }

  lemma PartsInAll<T>(xs: seq<T>, p: nat)
    requires p < |xs|
    ensures PartsOk(xs, |xs|, 0, p)
  {
    var n := |xs|;
    var ok := (i: nat) => i <= n && PartsOk(xs, i, 0, p);
    assert p == 0 ==> RankProgram(p, xs[p], 1) == RankProgram(p, xs[p], 0);
    forall i: nat | i < n && ok(i) ensures ok(i + 1) { PartsOfSender(xs, i, p); }
    Climb(ok, 0, n);
  }

  lemma BetweenOfSender<T>(xs: seq<T>, i: nat, s: nat, r: nat)
    requires i < |xs| && s < |xs| && BetweenOk(xs, i, 0, s, r)
    ensures BetweenOk(xs, i + 1, 0, s, r)
  {
    BetweenFirst(xs, i, s, r);
    BetweenForSender(xs, i, s, r);
    BetweenNextSender(xs, i, s, r);
  }

  lemma BetweenInAll<T>(xs: seq<T>, s: nat, r: nat)
    requires s < |xs|
    ensures BetweenOk(xs, |xs|, 0, s, r)
  {
    var n := |xs|;
    var ok := (i: nat) => i <= n && BetweenOk(xs, i, 0, s, r);
    forall i: nat | i < n && ok(i) ensures ok(i + 1) { BetweenOfSender(xs, i, s, r); }
    Climb(ok, 0, n);
  }

  lemma {:induction false} MessagesAddressed<T>(xs: seq<T>, i: nat, j: nat)
    requires i <= |xs| && j <= |xs| && (j > i + 1 ==> i < |xs|)
    ensures Addressed(Messages(xs, i, j), |xs|)
    decreases i, j
  {
    if j > i + 1 { MessagesAddressed(xs, i, j - 1); } else if i > 0 { MessagesAddressed(xs, i - 1, |xs|); }
  }

  ghost function Programs<T>(xs: seq<T>): seq<seq<Op<T>>> {
    seq(|xs|, p requires 0 <= p < |xs| => RankProgram(p, xs[p], |xs|))
  }

  lemma ProgramsAreParts<T>(xs: seq<T>)
    ensures Addressed(Messages(xs, |xs|, 0), |xs|)
    ensures forall p :: 0 <= p < |xs| ==> Programs(xs)[p] == Parts(Messages(xs, |xs|, 0), p)
  {
    MessagesAddressed(xs, |xs|, 0);
    forall p | 0 <= p < |xs| ensures Programs(xs)[p] == Parts(Messages(xs, |xs|, 0), p) {
      PartsInAll(xs, p);
    }
  }

  /** No deadlock for any number of ranks, even if every send is a rendezvous; and every run ends. */
  lemma ScanCompletes<T>(xs: seq<T>, steps: seq<Step>, st: State<T>)
    requires Reaches(Start(Programs(xs)), steps, st)
    ensures |steps| <= Left(Programs(xs))
    ensures !Finished(st) ==> exists step :: Enabled(st, step) && !step.Post?
  {
    ProgramsAreParts(xs);
    MessagesComplete(Messages(xs, |xs|, 0), Programs(xs), steps, st);
  }

  /** When it has ended, rank p has merged the values of ranks 0..p, so it holds their reduction. */
  lemma ScanDelivers<T(!new)>(op: (T, T) -> T, xs: seq<T>, steps: seq<Step>, st: State<T>, p: nat, incoming: seq<T>)
    requires Associative(op) && LeftCommutative(op)
    requires Reaches(Start(Programs(xs)), steps, st) && Finished(st) && p < |xs| && |incoming| == p
    requires forall i :: 0 <= i < p ==> At(st.got, i, p) == [incoming[i]]
    ensures Merged(op, incoming, xs[p], p) == Fold(op, xs[..p + 1])
  {
    ProgramsAreParts(xs);
    forall i | 0 <= i < p ensures incoming[i] == xs[i] {
      MessagesDelivered(Messages(xs, |xs|, 0), Programs(xs), steps, st, i, p);
      BetweenInAll(xs, i, p);
      assert [incoming[i]][0] == [xs[i]][0];
    }
    assert incoming == xs[..p];
    ScanIsPrefixReduction(op, xs, p);
    assert RightAt(op, xs, p);
  }
}
