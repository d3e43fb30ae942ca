/**
 The wide-area Reduce and Allreduce: every cluster reduces locally, and the root, or every
 coordinator, merges the partial results of the other clusters into its own.
 */
module WideReduce {
  import opened Common
  import opened Choreography
  import opened Reduction
  import opened Clusters
  import opened Broadcasts

  /** What the local reduction of cluster c yields: its members in rank order (MPI 2.1, 5.9.1). */
  function Partial<T>(op: (T, T) -> T, clusterOf: seq<nat>, xs: seq<T>, c: nat): T
    requires |xs| == |clusterOf| && Members(clusterOf, c) != []
  {
    Fold(op, Pick(xs, Members(clusterOf, c)))
  }

  ghost function Partials<T>(op: (T, T) -> T, clusterOf: seq<nat>, clusters: nat, xs: seq<T>): seq<T>
    requires |xs| == |clusterOf| && Populated(clusterOf, clusters)
  {
    seq(clusters, c requires 0 <= c < clusters && Populated(clusterOf, clusters) => Partial(op, clusterOf, xs, c))
  }

  // ---- the merge ----

  /** Cluster k's result once it has merged the partial results of the clusters below i into its own. */
  function MergeOthers<T>(op: (T, T) -> T, partials: seq<T>, k: nat, i: nat): T
    requires k < |partials| && i <= |partials|
  {
    if i == 0 then partials[k]
    else if i - 1 == k then MergeOthers(op, partials, k, i - 1)
    else op(partials[i - 1], MergeOthers(op, partials, k, i - 1))
  }

  lemma FoldSnoc<T>(op: (T, T) -> T, xs: seq<T>, i: nat)
    requires 0 < i < |xs|
    ensures Fold(op, xs[..i + 1]) == op(Fold(op, xs[..i]), xs[i])
  {
    assert xs[..i + 1][..i] == xs[..i];
  }

  /** Until its own cluster's turn, it holds the results of the clusters below, and its own. */
  lemma {:induction false} MergedBelow<T(!new)>(op: (T, T) -> T, partials: seq<T>, k: nat, i: nat)
    requires Associative(op) && Commutative(op) && 0 < i <= k < |partials|
    ensures MergeOthers(op, partials, k, i) == op(Fold(op, partials[..i]), partials[k])
  {
    var own, x := partials[k], partials[i - 1];
    if i == 1 {
      assert MergeOthers(op, partials, k, 0) == own;
    } else {
      MergedBelow(op, partials, k, i - 1);
      FoldSnoc(op, partials, i - 1);
      var f := Fold(op, partials[..i - 1]);
      assert op(x, op(f, own)) == op(op(x, f), own) && op(x, f) == op(f, x);
    }
  }

  lemma MergedOwn<T(!new)>(op: (T, T) -> T, partials: seq<T>, k: nat)
    requires Associative(op) && Commutative(op) && k < |partials|
    ensures MergeOthers(op, partials, k, k + 1) == Fold(op, partials[..k + 1])
  {
    assert MergeOthers(op, partials, k, k + 1) == MergeOthers(op, partials, k, k);
    if k > 0 {
      MergedBelow(op, partials, k, k);
      FoldSnoc(op, partials, k);
    }
  }

  /** From then on, it holds the reduction of all clusters so far, each of them once. */
  lemma {:induction false} MergedUpTo<T(!new)>(op: (T, T) -> T, partials: seq<T>, k: nat, i: nat)
    requires Associative(op) && Commutative(op) && k < i <= |partials|
    ensures MergeOthers(op, partials, k, i) == Fold(op, partials[..i])
  {
    if i == k + 1 {
      MergedOwn(op, partials, k);
    } else {
      MergedUpTo(op, partials, k, i - 1);
      FoldSnoc(op, partials, i - 1);
    }
  }

  /** Whichever cluster merges, and so in whichever order. */
  lemma MergedIsReduction<T(!new)>(op: (T, T) -> T, partials: seq<T>, k: nat)
    requires Associative(op) && Commutative(op) && k < |partials|
    ensures MergeOthers(op, partials, k, |partials|) == Fold(op, partials)
  {
    MergedUpTo(op, partials, k, |partials|);
    assert partials[..|partials|] == partials;
  }

  // ---- partial results add up ----

  function Folds<T>(op: (T, T) -> T, blocks: seq<seq<T>>): seq<T>
    requires forall i :: 0 <= i < |blocks| ==> blocks[i] != []
  {
    seq(|blocks|, i requires 0 <= i < |blocks| && blocks[i] != [] => Fold(op, blocks[i]))
  }

  lemma {:induction false} FoldOfFolds<T(!new)>(op: (T, T) -> T, blocks: seq<seq<T>>)
    requires Associative(op) && blocks != [] && forall i :: 0 <= i < |blocks| ==> blocks[i] != []
    ensures Flatten(blocks) != [] && Fold(op, Folds(op, blocks)) == Fold(op, Flatten(blocks))
  {
    var n := |blocks| - 1;
    assert blocks == blocks[..n] + [blocks[n]];
    FlattenSnoc(blocks[..n], blocks[n]);
    if n == 0 {
      assert Flatten(blocks) == blocks[0];
    } else {
      FoldOfFolds(op, blocks[..n]);
      assert Folds(op, blocks)[..n] == Folds(op, blocks[..n]);
      FoldConcat(op, Flatten(blocks[..n]), blocks[n]);
    }
  }

  function PickEach<T>(xs: seq<T>, groups: seq<seq<nat>>): seq<seq<T>>
    requires forall i :: 0 <= i < |groups| ==> Below(groups[i], |xs|)
  {
    seq(|groups|, i requires 0 <= i < |groups| && Below(groups[i], |xs|) => Pick(xs, groups[i]))
  }

  lemma {:induction false} PickFlattened<T>(xs: seq<T>, groups: seq<seq<nat>>)
    requires forall i :: 0 <= i < |groups| ==> Below(groups[i], |xs|)
    ensures Below(Flatten(groups), |xs|) && Pick(xs, Flatten(groups)) == Flatten(PickEach(xs, groups))
  {
    if groups != [] {
      PickFlattened(xs, groups[1..]);
      assert PickEach(xs, groups)[1..] == PickEach(xs, groups[1..]);
      PickConcat(xs, groups[0], Flatten(groups[1..]));
    }
  }

  lemma PartialsAddUp<T(!new)>(op: (T, T) -> T, clusterOf: seq<nat>, clusters: nat, xs: seq<T>)
    requires Associative(op) && Commutative(op)
    requires |xs| == |clusterOf| > 0 && Populated(clusterOf, clusters)
    ensures clusters > 0 && Fold(op, Partials(op, clusterOf, clusters, xs)) == Fold(op, xs)
  {
    var groups := ByCluster(clusterOf, clusters);
    var blocks := PickEach(xs, groups);
    assert clusterOf[0] < clusters;
    assert Partials(op, clusterOf, clusters, xs) == Folds(op, blocks);
    FoldOfFolds(op, blocks);
    PickFlattened(xs, groups);
    GroupingPermutes(clusterOf, clusters);
    PickPermuted(xs, Grouped(clusterOf, clusters), Iota(|xs|));
    PickAll(xs);
    FoldPermuted(op, Flatten(blocks), xs);
  }

  /** What cluster k ends up with. */
  ghost function ResultAt<T>(op: (T, T) -> T, clusterOf: seq<nat>, clusters: nat, xs: seq<T>, k: nat): T
    requires |xs| == |clusterOf| && Populated(clusterOf, clusters) && k < clusters
  {
    MergeOthers(op, Partials(op, clusterOf, clusters, xs), k, clusters)
  }

  /** Whichever cluster merges, the result is the reduction over all ranks, in rank order. */
  lemma ReducesAll<T(!new)>(op: (T, T) -> T, clusterOf: seq<nat>, clusters: nat, xs: seq<T>, k: nat)
    requires Associative(op) && Commutative(op)
    requires |xs| == |clusterOf| > 0 && Populated(clusterOf, clusters) && k < clusters
    ensures ResultAt(op, clusterOf, clusters, xs, k) == Fold(op, xs)
  {
    PartialsAddUp(op, clusterOf, clusters, xs);
    MergedIsReduction(op, Partials(op, clusterOf, clusters, xs), k);
  }

  ghost predicate AllAgree<T(!new)>(op: (T, T) -> T) {
    forall clusterOf: seq<nat>, clusters: nat, xs: seq<T>, j: nat, k: nat ::
      |xs| == |clusterOf| > 0 && Populated(clusterOf, clusters) && j < clusters && k < clusters ==>
        ResultAt(op, clusterOf, clusters, xs, j) == ResultAt(op, clusterOf, clusters, xs, k)
  }

  ghost predicate AlwaysRight<T(!new)>(op: (T, T) -> T) {
    forall clusterOf: seq<nat>, clusters: nat, xs: seq<T>, k: nat ::
      |xs| == |clusterOf| > 0 && Populated(clusterOf, clusters) && k < clusters ==>
        ResultAt(op, clusterOf, clusters, xs, k) == Fold(op, xs)
  }

  /** Two clusters of one rank each combine their values in opposite orders. */
  lemma TwoClusters<T(!new)>(op: (T, T) -> T, a: T, b: T)
    ensures var clusterOf := [0, 1];
            && Populated(clusterOf, 2)
            && ResultAt(op, clusterOf, 2, [a, b], 0) == op(b, a)
            && ResultAt(op, clusterOf, 2, [a, b], 1) == op(a, b)
            && Fold(op, [a, b]) == op(a, b)
  {
    var clusterOf: seq<nat>, xs := [0, 1], [a, b];
    MembersOfTwo();
    assert Pick(xs, [0]) == [a] && Pick(xs, [1]) == [b];
    assert Partials(op, clusterOf, 2, xs) == [a, b];
    MergeTwo(op, a, b);
    assert xs[..1] == [a];
  }

  lemma MembersOfTwo()
    ensures Members([0, 1], 0) == [0] && Members([0, 1], 1) == [1]
  {
    MembersSnoc([], 0, 0);
    MembersSnoc([], 0, 1);
    MembersSnoc([0], 1, 0);
    MembersSnoc([0], 1, 1);
    assert [] + [0] == [0] && [0] + [1] == [0, 1];
  }

  lemma MergeTwo<T>(op: (T, T) -> T, a: T, b: T)
    ensures MergeOthers(op, [a, b], 0, 2) == op(b, a) && MergeOthers(op, [a, b], 1, 2) == op(a, b)
  {
    assert MergeOthers(op, [a, b], 0, 1) == a && MergeOthers(op, [a, b], 1, 1) == op(a, b);
  }

  /**
   Among associative operations, the coordinators agree, and Allreduce and Reduce are right,
   for exactly the commutative ones; MPI also allows others.
   */
  lemma RightIffCommutative<T(!new)>(op: (T, T) -> T)
    requires Associative(op)
    ensures AllAgree(op) <==> Commutative(op)
    ensures AlwaysRight(op) <==> Commutative(op)
  {
    if Commutative(op) {
      CommutativeIsRight(op);
    }
    if AllAgree(op) || AlwaysRight(op) {
      forall a, b ensures op(a, b) == op(b, a) { TwoClusters(op, a, b); }
    }
  }

  lemma CommutativeIsRight<T(!new)>(op: (T, T) -> T)
    requires Associative(op) && Commutative(op)
    ensures AllAgree(op) && AlwaysRight(op)
  {
    forall clusterOf: seq<nat>, clusters: nat, xs: seq<T>, k: nat
      | |xs| == |clusterOf| > 0 && Populated(clusterOf, clusters) && k < clusters
      ensures ResultAt(op, clusterOf, clusters, xs, k) == Fold(op, xs)
    {
      ReducesAll(op, clusterOf, clusters, xs, k);
    }
  }

  // ---- Allreduce ----

  /**
   EMPI_Allreduce on the coordinator of cluster me, after the local reduction gave own.
   incoming[i] is what the receive from coordinator i delivers.
   */
  method WaAllreduce<T>(op: (T, T) -> T, me: nat, own: T, incoming: seq<T>) returns (recvbuf: T, ops: seq<Op<T>>)
    requires me < |incoming|
    ensures recvbuf == MergeOthers(op, incoming[me := own], me, |incoming|)
    ensures ops == BcastOps(me, own, |incoming|) + ReceiveOps(me, |incoming|)
  {
    recvbuf := own;
    ops := MessagingBcast(me, |incoming|, recvbuf);
    for i := 0 to |incoming|
      invariant recvbuf == MergeOthers(op, incoming[me := own], me, i)
      invariant ops == BcastOps(me, own, |incoming|) + ReceiveOps(me, i)
    {
      if i != me {
        ops := ops + [RecvFrom(i)];
        var buffer := incoming[i];
        recvbuf := op(buffer, recvbuf);
      }
    }
  }

  /** When the exchange has ended, every coordinator holds the reduction over all ranks. */
  lemma AllreduceDelivers<T(!new)>(op: (T, T) -> T, clusterOf: seq<nat>, clusters: nat, xs: seq<T>,
                                   steps: seq<Step>, st: State<T>, k: nat, incoming: seq<T>)
    requires Associative(op) && Commutative(op)
    requires |xs| == |clusterOf| > 0 && Populated(clusterOf, clusters) && k < clusters == |incoming|
    requires Reaches(Start(EagerPrograms(Partials(op, clusterOf, clusters, xs))), steps, st) && Finished(st)
    requires forall i :: 0 <= i < clusters && i != k ==> At(st.got, i, k) == [incoming[i]]
    ensures MergeOthers(op, incoming[k := Partial(op, clusterOf, xs, k)], k, clusters) == Fold(op, xs)
  {
    var partials := Partials(op, clusterOf, clusters, xs);
    forall i | 0 <= i < clusters && i != k ensures incoming[i] == partials[i] {
      EagerDelivers(partials, steps, st, i, k);
      assert [incoming[i]][0] == [partials[i]][0];
    }
    assert incoming[k := partials[k]] == partials;
    ReducesAll(op, clusterOf, clusters, xs, k);
  }

  /** The closing local broadcast: rank r gets the buffer of local rank 0 of its cluster. */
  function AfterBcast<T>(buffers: seq<T>, clusterOf: seq<nat>, r: nat): T
    requires r < |clusterOf| == |buffers| && Members(clusterOf, clusterOf[r]) != []
  {
    buffers[Members(clusterOf, clusterOf[r])[0]]
  }

  /** As coordinators have local rank 0, every rank of every cluster gets the reduction. */
  lemma EveryRankGetsReduction<T(!new)>(op: (T, T) -> T, clusterOf: seq<nat>, clusters: nat, xs: seq<T>,
                                        coordinators: seq<nat>, buffers: seq<T>, r: nat)
    requires Associative(op) && Commutative(op)
    requires r < |xs| == |clusterOf| == |buffers| && Populated(clusterOf, clusters) && |coordinators| == clusters
    requires forall c :: 0 <= c < clusters ==> coordinators[c] == Members(clusterOf, c)[0]
    requires forall c :: 0 <= c < clusters ==> buffers[coordinators[c]] == ResultAt(op, clusterOf, clusters, xs, c)
    ensures AfterBcast(buffers, clusterOf, r) == Fold(op, xs)
  {
    var c := clusterOf[r];
    assert buffers[coordinators[c]] == ResultAt(op, clusterOf, clusters, xs, c);
    ReducesAll(op, clusterOf, clusters, xs, c);
  }

  // ---- Reduce ----

  /** Coordinator c is a member of cluster c. */
  ghost predicate Coordinators(clusterOf: seq<nat>, coordinators: seq<nat>) {
    forall c :: 0 <= c < |coordinators| ==> coordinators[c] < |clusterOf| && clusterOf[coordinators[c]] == c
  }

  /** What the root receives from the coordinators below i. */
  function RootReceives<T>(coordinators: seq<nat>, k: nat, i: nat): seq<Op<T>>
    requires i <= |coordinators|
  {
    if i == 0 then []
    else if i - 1 == k then RootReceives(coordinators, k, i - 1)
    else RootReceives(coordinators, k, i - 1) + [RecvFrom(coordinators[i - 1])]
  }

  /** The wide-area part of EMPI_Reduce on rank me, after the local reduction gave own. */
  method WaReduce<T>(op: (T, T) -> T, me: nat, root: nat, clusterOf: seq<nat>, coordinators: seq<nat>, own: T,
                     incoming: seq<T>) returns (recvbuf: T, ops: seq<Op<T>>)
    requires me < |clusterOf| && root < |clusterOf| && Spread(clusterOf, |coordinators|)
    requires Coordinators(clusterOf, coordinators) && |incoming| == |coordinators|
    ensures me == root ==> recvbuf == MergeOthers(op, incoming[clusterOf[root] := own], clusterOf[root], |incoming|)
    ensures ops == ReduceProgram(me, root, clusterOf, coordinators, own)
  {
    var rootInCluster := clusterOf[root] == clusterOf[me];
    recvbuf := own;
    ops := [];
    if me == root {
      for i := 0 to |coordinators|
        invariant recvbuf == MergeOthers(op, incoming[clusterOf[root] := own], clusterOf[root], i)
        invariant ops == RootReceives(coordinators, clusterOf[root], i)
      {
        if me != coordinators[i] && !(clusterOf[coordinators[i]] == clusterOf[me]) {
          ops := ops + [RecvFrom(coordinators[i])];
          var buffer := incoming[i];
          recvbuf := op(buffer, recvbuf);
        }
      }
    } else if !rootInCluster && me == coordinators[clusterOf[me]] {
      ops := ops + [SendTo(root, own)];
    }
  }

  /** The part of rank me in the exchange: the root receives, remote coordinators send. */
  function ReduceProgram<T>(me: nat, root: nat, clusterOf: seq<nat>, coordinators: seq<nat>, own: T): seq<Op<T>>
    requires me < |clusterOf| && root < |clusterOf| && Spread(clusterOf, |coordinators|)
  {
    if me == root then RootReceives(coordinators, clusterOf[root], |coordinators|)
    else if clusterOf[root] != clusterOf[me] && me == coordinators[clusterOf[me]] then [SendTo(root, own)]
    else []
  }

  /** The messages of the coordinators below i to the root. */
  function RootMessages<T>(coordinators: seq<nat>, root: nat, k: nat, partials: seq<T>, i: nat): seq<Message<T>>
    requires i <= |coordinators| == |partials|
  {
    if i == 0 then []
    else if i - 1 == k then RootMessages(coordinators, root, k, partials, i - 1)
    else RootMessages(coordinators, root, k, partials, i - 1) + [Message(coordinators[i - 1], root, partials[i - 1])]
  }

  ghost function ReducePrograms<T>(root: nat, clusterOf: seq<nat>, coordinators: seq<nat>, partials: seq<T>)
    : seq<seq<Op<T>>>
    requires root < |clusterOf| && Spread(clusterOf, |coordinators|) && |partials| == |coordinators|
  {
    seq(|clusterOf|, me requires 0 <= me < |clusterOf| && Spread(clusterOf, |coordinators|) =>
      ReduceProgram(me, root, clusterOf, coordinators, partials[clusterOf[me]]))
  }

  ghost predicate RootPartsOk<T>(clusterOf: seq<nat>, coordinators: seq<nat>, root: nat, partials: seq<T>, i: nat)
    requires Coordinators(clusterOf, coordinators) && root < |clusterOf| && |partials| == |coordinators|
    requires i <= |coordinators|
  {
    Parts(RootMessages(coordinators, root, clusterOf[root], partials, i), root)
    == RootReceives(coordinators, clusterOf[root], i)
  }

  lemma RootPartsNext<T>(clusterOf: seq<nat>, coordinators: seq<nat>, root: nat, partials: seq<T>, i: nat)
    requires Coordinators(clusterOf, coordinators) && root < |clusterOf| && |partials| == |coordinators|
    requires i < |coordinators| && RootPartsOk(clusterOf, coordinators, root, partials, i)
    ensures RootPartsOk(clusterOf, coordinators, root, partials, i + 1)
  {
    if i != clusterOf[root] {
      OneMoreMessage(RootMessages(coordinators, root, clusterOf[root], partials, i),
                     Message(coordinators[i], root, partials[i]), root, 0, 0);
    }
  }

  lemma RootPartsAll<T>(clusterOf: seq<nat>, coordinators: seq<nat>, root: nat, partials: seq<T>)
    requires Coordinators(clusterOf, coordinators) && root < |clusterOf| && |partials| == |coordinators|
    ensures RootPartsOk(clusterOf, coordinators, root, partials, |coordinators|)
  {
    var n := |coordinators|;
    var ok := (i: nat) => i <= n && RootPartsOk(clusterOf, coordinators, root, partials, i);
    forall i: nat | i < n && ok(i) ensures ok(i + 1) { RootPartsNext(clusterOf, coordinators, root, partials, i); }
    Climb(ok, 0, n);
  }

  lemma {:induction false} RootAddressed<T>(clusterOf: seq<nat>, coordinators: seq<nat>, root: nat, partials: seq<T>,
                                            i: nat)
    requires Coordinators(clusterOf, coordinators) && root < |clusterOf| && |partials| == |coordinators|
    requires i <= |coordinators|
    ensures Addressed(RootMessages(coordinators, root, clusterOf[root], partials, i), |clusterOf|)
  {
    if i > 0 { RootAddressed(clusterOf, coordinators, root, partials, i - 1); }
  }

  /** What rank p other than the root does for the coordinators below i. */
  function SenderPart<T>(clusterOf: seq<nat>, coordinators: seq<nat>, root: nat, partials: seq<T>, i: nat, p: nat)
    : seq<Op<T>>
    requires Spread(clusterOf, |coordinators|) && root < |clusterOf| && p < |clusterOf| && |partials| == |coordinators|
  {
    var c := clusterOf[p];
    if c != clusterOf[root] && c < i && p == coordinators[c] then [SendTo(root, partials[c])] else []
  }

  ghost predicate SenderPartsOk<T>(clusterOf: seq<nat>, coordinators: seq<nat>, root: nat, partials: seq<T>,
                                   i: nat, p: nat)
    requires Coordinators(clusterOf, coordinators) && root < |clusterOf| && |partials| == |coordinators|
    requires Spread(clusterOf, |coordinators|) && p < |clusterOf| && p != root
    requires i <= |coordinators|
  {
    Parts(RootMessages(coordinators, root, clusterOf[root], partials, i), p)
    == SenderPart(clusterOf, coordinators, root, partials, i, p)
  }

  lemma SenderPartsNext<T>(clusterOf: seq<nat>, coordinators: seq<nat>, root: nat, partials: seq<T>, i: nat, p: nat)
    requires Coordinators(clusterOf, coordinators) && root < |clusterOf| && |partials| == |coordinators|
    requires Spread(clusterOf, |coordinators|) && p < |clusterOf| && p != root
    requires i < |coordinators| && SenderPartsOk(clusterOf, coordinators, root, partials, i, p)
    ensures SenderPartsOk(clusterOf, coordinators, root, partials, i + 1, p)
  {
    if i != clusterOf[root] {
      OneMoreMessage(RootMessages(coordinators, root, clusterOf[root], partials, i),
                     Message(coordinators[i], root, partials[i]), p, 0, 0);
    }
  }

  lemma SenderPartsNone<T>(clusterOf: seq<nat>, coordinators: seq<nat>, root: nat, partials: seq<T>, p: nat)
    requires Coordinators(clusterOf, coordinators) && root < |clusterOf| && |partials| == |coordinators|
    requires Spread(clusterOf, |coordinators|) && p < |clusterOf| && p != root
    ensures SenderPartsOk(clusterOf, coordinators, root, partials, 0, p)
  {}

  lemma SenderPartsAll<T>(clusterOf: seq<nat>, coordinators: seq<nat>, root: nat, partials: seq<T>, p: nat)
    requires Coordinators(clusterOf, coordinators) && root < |clusterOf| && |partials| == |coordinators|
    requires Spread(clusterOf, |coordinators|) && p < |clusterOf| && p != root
    ensures SenderPartsOk(clusterOf, coordinators, root, partials, |coordinators|, p)
  {
    var n := |coordinators|;
    var ok := (i: nat) => i <= n && SenderPartsOk(clusterOf, coordinators, root, partials, i, p);
    SenderPartsNone(clusterOf, coordinators, root, partials, p);
    forall i: nat | i < n && ok(i) ensures ok(i + 1) { SenderPartsNext(clusterOf, coordinators, root, partials, i, p); }
    Climb(ok, 0, n);
  }

  ghost predicate RootGetsOk<T>(clusterOf: seq<nat>, coordinators: seq<nat>, root: nat, partials: seq<T>,
                                i: nat, c: nat)
    requires Coordinators(clusterOf, coordinators) && root < |clusterOf| && |partials| == |coordinators|
    requires c < |coordinators| && c != clusterOf[root]
    requires i <= |coordinators|
  {
    Between(RootMessages(coordinators, root, clusterOf[root], partials, i), coordinators[c], root)
    == GotFrom(partials[c], c, i)
  }

  function GotFrom<T>(partial: T, c: nat, i: nat): seq<T> { if c < i then [partial] else [] }

  lemma RootGetsNext<T>(clusterOf: seq<nat>, coordinators: seq<nat>, root: nat, partials: seq<T>, i: nat, c: nat)
    requires Coordinators(clusterOf, coordinators) && root < |clusterOf| && |partials| == |coordinators|
    requires c < |coordinators| && c != clusterOf[root]
    requires i < |coordinators| && RootGetsOk(clusterOf, coordinators, root, partials, i, c)
    ensures RootGetsOk(clusterOf, coordinators, root, partials, i + 1, c)
  {
    if i != clusterOf[root] {
      OneMoreMessage(RootMessages(coordinators, root, clusterOf[root], partials, i),
                     Message(coordinators[i], root, partials[i]), 0, coordinators[c], root);
    }
  }

  lemma RootGetsAll<T>(clusterOf: seq<nat>, coordinators: seq<nat>, root: nat, partials: seq<T>, c: nat)
    requires Coordinators(clusterOf, coordinators) && root < |clusterOf| && |partials| == |coordinators|
    requires c < |coordinators| && c != clusterOf[root]
    ensures RootGetsOk(clusterOf, coordinators, root, partials, |coordinators|, c)
  {
    var n := |coordinators|;
    var ok := (i: nat) => i <= n && RootGetsOk(clusterOf, coordinators, root, partials, i, c);
    forall i: nat | i < n && ok(i) ensures ok(i + 1) { RootGetsNext(clusterOf, coordinators, root, partials, i, c); }
    Climb(ok, 0, n);
  }

  lemma ReduceProgramsAreParts<T>(clusterOf: seq<nat>, coordinators: seq<nat>, root: nat, partials: seq<T>)
    requires Spread(clusterOf, |coordinators|) && Coordinators(clusterOf, coordinators)
    requires root < |clusterOf| && |partials| == |coordinators|
    ensures var messages := RootMessages(coordinators, root, clusterOf[root], partials, |partials|);
            var programs := ReducePrograms(root, clusterOf, coordinators, partials);
            && Addressed(messages, |programs|)
            && forall p :: 0 <= p < |programs| ==> programs[p] == Parts(messages, p)
  {
    var messages := RootMessages(coordinators, root, clusterOf[root], partials, |partials|);
    var programs := ReducePrograms(root, clusterOf, coordinators, partials);
    RootAddressed(clusterOf, coordinators, root, partials, |partials|);
    RootPartsAll(clusterOf, coordinators, root, partials);
    forall p | 0 <= p < |programs| ensures programs[p] == Parts(messages, p) {
      if p != root { SenderPartsAll(clusterOf, coordinators, root, partials, p); }
    }
  }

  /** The exchange never deadlocks, even if every send is a rendezvous, and every run ends. */
  lemma ReduceCompletes<T>(clusterOf: seq<nat>, coordinators: seq<nat>, root: nat, partials: seq<T>,
                           steps: seq<Step>, st: State<T>)
    requires Spread(clusterOf, |coordinators|) && Coordinators(clusterOf, coordinators)
    requires root < |clusterOf| && |partials| == |coordinators|
    requires Reaches(Start(ReducePrograms(root, clusterOf, coordinators, partials)), steps, st)
    ensures |steps| <= Left(ReducePrograms(root, clusterOf, coordinators, partials))
    ensures !Finished(st) ==> exists step :: Enabled(st, step) && !step.Post?
  {
    ReduceProgramsAreParts(clusterOf, coordinators, root, partials);
    MessagesComplete(RootMessages(coordinators, root, clusterOf[root], partials, |partials|),
                     ReducePrograms(root, clusterOf, coordinators, partials), steps, st);
  }

  /** When it has ended, the root has got the partial result of each other cluster exactly once. */
  lemma RootHasPartial<T>(clusterOf: seq<nat>, coordinators: seq<nat>, root: nat, partials: seq<T>,
                          steps: seq<Step>, st: State<T>, c: nat)
    requires Spread(clusterOf, |coordinators|) && Coordinators(clusterOf, coordinators)
    requires root < |clusterOf| && |partials| == |coordinators| && c < |coordinators| && c != clusterOf[root]
    requires Reaches(Start(ReducePrograms(root, clusterOf, coordinators, partials)), steps, st) && Finished(st)
    ensures At(st.got, coordinators[c], root) == [partials[c]]
  {
    ReduceProgramsAreParts(clusterOf, coordinators, root, partials);
    MessagesDelivered(RootMessages(coordinators, root, clusterOf[root], partials, |partials|),
                      ReducePrograms(root, clusterOf, coordinators, partials), steps, st, coordinators[c], root);
    RootGetsAll(clusterOf, coordinators, root, partials, c);
  }

  /** When it has ended, the root, whichever rank it is, holds the reduction over all ranks. */
  lemma ReduceDelivers<T(!new)>(op: (T, T) -> T, clusterOf: seq<nat>, coordinators: seq<nat>, root: nat, xs: seq<T>,
                                steps: seq<Step>, st: State<T>, incoming: seq<T>)
    requires Associative(op) && Commutative(op)
    requires root < |clusterOf| == |xs| && Populated(clusterOf, |coordinators|) && Coordinators(clusterOf, coordinators)
    requires |incoming| == |coordinators|
    requires var partials := Partials(op, clusterOf, |coordinators|, xs);
             Reaches(Start(ReducePrograms(root, clusterOf, coordinators, partials)), steps, st) && Finished(st)
    requires forall c :: 0 <= c < |coordinators| && c != clusterOf[root] ==>
               At(st.got, coordinators[c], root) == [incoming[c]]
    ensures var k := clusterOf[root];
            MergeOthers(op, incoming[k := Partial(op, clusterOf, xs, k)], k, |coordinators|) == Fold(op, xs)
  {
    var k := clusterOf[root];
    var partials := Partials(op, clusterOf, |coordinators|, xs);
    forall c | 0 <= c < |coordinators| && c != k ensures incoming[c] == partials[c] {
      RootHasPartial(clusterOf, coordinators, root, partials, steps, st, c);
      assert [incoming[c]][0] == [partials[c]][0];
    }
    assert incoming[k := partials[k]] == partials;
    ReducesAll(op, clusterOf, |coordinators|, xs, k);
  }
}
