/** How the ranks of a communicator are spread over clusters. */
module Clusters {
  import opened Common

  ghost predicate Below(ranks: seq<nat>, n: nat) { forall j :: 0 <= j < |ranks| ==> ranks[j] < n }

  /** The ranks of cluster c, in rank order; clusterOf[i] is the cluster of rank i. */
  function Members(clusterOf: seq<nat>, c: nat): (r: seq<nat>)
    ensures Below(r, |clusterOf|)
  {
    if clusterOf == [] then []
    else if clusterOf[|clusterOf| - 1] == c then Members(clusterOf[..|clusterOf| - 1], c) + [|clusterOf| - 1]
    else Members(clusterOf[..|clusterOf| - 1], c)
  }

  /** One list of members per cluster. */
  function ByCluster(clusterOf: seq<nat>, clusters: nat): seq<seq<nat>> {
    seq(clusters, c requires 0 <= c < clusters => Members(clusterOf, c))
  }

  function Iota(n: nat): seq<nat> { seq(n, i => i) }

  ghost predicate Spread(clusterOf: seq<nat>, clusters: nat) {
    forall i :: 0 <= i < |clusterOf| ==> clusterOf[i] < clusters
  }

  /** Every rank is in one of the clusters, and no cluster is empty. */
  ghost predicate Populated(clusterOf: seq<nat>, clusters: nat) {
    Spread(clusterOf, clusters) && forall c :: 0 <= c < clusters ==> Members(clusterOf, c) != []
  }

  /** Adding an element to one bin adds it to the whole. */
  lemma {:induction false} BinGrows<T>(bins: seq<seq<T>>, k: nat, x: T)
    requires k < |bins|
    ensures multiset(Flatten(bins[k := bins[k] + [x]])) == multiset(Flatten(bins)) + multiset{x}
  {
    var bins' := bins[k := bins[k] + [x]];
    FlattenSplit(bins, k);
    FlattenSplit(bins', k);
    assert bins'[..k] == bins[..k] && bins'[k + 1..] == bins[k + 1..];
    var a, b, c := Flatten(bins[..k]), bins[k], Flatten(bins[k + 1..]);
    assert multiset(a + (b + [x]) + c) == multiset(a + b + c) + multiset{x};
  }

  /** All ranks, one cluster after the other. */
  function Grouped(clusterOf: seq<nat>, clusters: nat): seq<nat> { Flatten(ByCluster(clusterOf, clusters)) }

  lemma MembersSnoc(clusterOf: seq<nat>, k: nat, c: nat)
    ensures Members(clusterOf + [k], c) == Members(clusterOf, c) + if k == c then [|clusterOf|] else []
  {
    assert (clusterOf + [k])[..|clusterOf|] == clusterOf;
  }

  lemma OneMoreRank(clusterOf: seq<nat>, k: nat, clusters: nat)
    requires k < clusters
    ensures var bins := ByCluster(clusterOf, clusters);
            ByCluster(clusterOf + [k], clusters) == bins[k := bins[k] + [|clusterOf|]]
  {
    forall c | 0 <= c < clusters
      ensures ByCluster(clusterOf + [k], clusters)[c] == Members(clusterOf, c) + if k == c then [|clusterOf|] else []
    {
      MembersSnoc(clusterOf, k, c);
    }
  }

  lemma GroupedGrows(clusterOf: seq<nat>, k: nat, clusters: nat)
    requires k < clusters
    ensures var n: nat := |clusterOf|;
            multiset(Grouped(clusterOf + [k], clusters)) == multiset(Grouped(clusterOf, clusters)) + multiset{n}
  {
    var n: nat, bins := |clusterOf|, ByCluster(clusterOf, clusters);
    OneMoreRank(clusterOf, k, clusters);
    BinGrows(bins, k, n);
    assert ByCluster(clusterOf + [k], clusters) == bins[k := bins[k] + [n]];
  }

  /** Grouping the ranks by cluster loses none and repeats none. */
  lemma {:induction false} GroupingPermutes(clusterOf: seq<nat>, clusters: nat)
    requires Spread(clusterOf, clusters)
    ensures multiset(Grouped(clusterOf, clusters)) == multiset(Iota(|clusterOf|))
  {
    if |clusterOf| == 0 {
      FlattenEmpties(ByCluster(clusterOf, clusters));
    } else {
      var n := |clusterOf| - 1;
      GroupingPermutes(clusterOf[..n], clusters);
      GroupedGrows(clusterOf[..n], clusterOf[n], clusters);
      assert clusterOf[..n] + [clusterOf[n]] == clusterOf;
      assert Iota(n + 1) == Iota(n) + [n];
    }
  }

  /** xs at the given positions. */
  function Pick<T>(xs: seq<T>, ranks: seq<nat>): (r: seq<T>)
    requires Below(ranks, |xs|)
    ensures |r| == |ranks|
  {
    seq(|ranks|, j requires 0 <= j < |ranks| && ranks[j] < |xs| => xs[ranks[j]])
  }

  lemma PickConcat<T>(xs: seq<T>, a: seq<nat>, b: seq<nat>)
    requires Below(a, |xs|) && Below(b, |xs|)
    ensures Below(a + b, |xs|) && Pick(xs, a + b) == Pick(xs, a) + Pick(xs, b)
  {}

  /** Picking by a permutation of positions permutes the values. */
  lemma {:induction false} PickPermuted<T>(xs: seq<T>, a: seq<nat>, b: seq<nat>)
    requires multiset(a) == multiset(b) && Below(a, |xs|) && Below(b, |xs|)
    ensures multiset(Pick(xs, a)) == multiset(Pick(xs, b))
    decreases |a|
  {
    assert |multiset(a)| == |multiset(b)|;
    if a != [] {
      var n := |a| - 1;
      assert a[n] in multiset(a);
      var k :| 0 <= k < |b| && b[k] == a[n];
      PullOut(xs, a, n);
      PullOut(xs, b, k);
      assert a[..n] + a[n + 1..] == a[..n];
      PickPermuted(xs, a[..n], b[..k] + b[k + 1..]);
    }
  }

  lemma PullOut<T>(xs: seq<T>, a: seq<nat>, k: nat)
    requires k < |a| && Below(a, |xs|)
    ensures var rest := a[..k] + a[k + 1..];
            && Below(rest, |xs|)
            && multiset(rest) == multiset(a) - multiset{a[k]}
            && multiset(Pick(xs, a)) == multiset(Pick(xs, rest)) + multiset{xs[a[k]]}
  {
    var p := Pick(xs, a);
    RemoveOne(a, k);
    RemoveOne(p, k);
    assert Pick(xs, a[..k] + a[k + 1..]) == p[..k] + p[k + 1..];
  }

  lemma RemoveOne<T>(s: seq<T>, k: nat)
    requires k < |s|
    ensures multiset(s) == multiset(s[..k] + s[k + 1..]) + multiset{s[k]}
  {
    assert s == s[..k] + [s[k]] + s[k + 1..];
  }

  lemma PickAll<T>(xs: seq<T>)
    ensures Pick(xs, Iota(|xs|)) == xs
  {}
}
