/**
 The world communicator: how the processes of all clusters are numbered, and what identities
 they get.
 */
module World {
  import opened Common
  import opened Messages
  import opened Ranks
  import Clusters

  /** The processes of the clusters below c. */
  function Offset(sizes: seq<nat>, c: nat): nat
    requires c <= |sizes|
  {
    if c == 0 then 0 else Offset(sizes, c - 1) + sizes[c - 1]
  }

  /** What every cluster checks when it joins: at least one process, and no more than fit a PID. */
  ghost predicate Admitted(sizes: seq<nat>) {
    && 0 < |sizes| < MAX_CLUSTERS
    && forall c :: 0 <= c < |sizes| ==> 0 < sizes[c] < MAX_PROCESSES_PER_CLUSTER
  }

  lemma {:induction false} OffsetsGrow(sizes: seq<nat>, c: nat, d: nat)
    requires c < d <= |sizes|
    ensures Offset(sizes, c) + sizes[c] <= Offset(sizes, d)
  {
    if c + 1 < d { OffsetsGrow(sizes, c, d - 1); }
  }

  /** receive_cluster_sizes: the offsets of all clusters, and the total at the end. */
  method ClusterOffsets(sizes: seq<nat>) returns (offsets: array<nat>)
    ensures fresh(offsets) && offsets.Length == |sizes| + 1
    ensures forall c :: 0 <= c <= |sizes| ==> offsets[c] == Offset(sizes, c)
  {
    offsets := new nat[|sizes| + 1];
    offsets[0] := 0;
    for i := 1 to |sizes| + 1
      invariant forall c :: 0 <= c < i ==> offsets[c] == Offset(sizes, c)
    {
      offsets[i] := offsets[i - 1] + sizes[i - 1];
    }
  }

  /** Of each global rank: its PID, its cluster and its rank in there. */
  datatype Members = Members(pids: seq<uint32>, clusterOf: seq<nat>, localRanks: seq<nat>)

  /** Rank i is process p of cluster c. */
  ghost predicate Place(sizes: seq<nat>, i: nat, c: nat, p: nat) {
    c < |sizes| && p < sizes[c] && Offset(sizes, c) + p == i
  }

  ghost predicate Numbered(sizes: seq<nat>, m: Members) {
    && |m.pids| == |m.clusterOf| == |m.localRanks| == Offset(sizes, |sizes|)
    && forall i :: 0 <= i < |m.pids| ==>
         Place(sizes, i, m.clusterOf[i], m.localRanks[i]) && m.pids[i] == SetPid(m.clusterOf[i], m.localRanks[i])
  }

  /** The loop of init_communicators that numbers the world. */
  method NumberWorld(sizes: seq<nat>, offsets: array<nat>) returns (m: Members)
    requires Admitted(sizes) && offsets.Length == |sizes| + 1
    requires forall c :: 0 <= c <= |sizes| ==> offsets[c] == Offset(sizes, c)
    ensures Numbered(sizes, m)
  {
    var n := offsets[|sizes|];
    var pids, clusterOf, localRanks := new uint32[n], new nat[n], new nat[n];
    var process, cluster := 0, 0;
    for i := 0 to n
      invariant cluster < |sizes| && Offset(sizes, cluster) + process == i && process <= sizes[cluster]
      invariant forall k :: 0 <= k < i ==>
        Place(sizes, k, clusterOf[k], localRanks[k]) && pids[k] == SetPid(clusterOf[k], localRanks[k])
    {
      if i >= offsets[cluster + 1] {
        process := 0;
        cluster := cluster + 1;
      }
      pids[i] := SetPid(cluster, process);
      clusterOf[i] := cluster;
      localRanks[i] := process;
      process := process + 1;
    }
    m := Members(pids[..], clusterOf[..], localRanks[..]);
  }

  /** No rank has two places. */
  lemma PlaceUnique(sizes: seq<nat>, i: nat, c: nat, p: nat, d: nat, q: nat)
    requires Place(sizes, i, c, p) && Place(sizes, i, d, q)
    ensures c == d && p == q
  {
    if c < d { OffsetsGrow(sizes, c, d); } else if d < c { OffsetsGrow(sizes, d, c); }
  }

  /** Global ranks and processes of clusters correspond one to one. */
  lemma NumberingIsBijective(sizes: seq<nat>, m: Members, c: nat, p: nat)
    requires Numbered(sizes, m) && c < |sizes| && p < sizes[c]
    ensures var i := Offset(sizes, c) + p; i < |m.pids| && m.clusterOf[i] == c && m.localRanks[i] == p
    ensures forall i :: 0 <= i < |m.pids| && m.clusterOf[i] == c && m.localRanks[i] == p ==> i == Offset(sizes, c) + p
  {
    var i := Offset(sizes, c) + p;
    OffsetsGrow(sizes, c, |sizes|);
    assert Place(sizes, i, c, p) && Place(sizes, i, m.clusterOf[i], m.localRanks[i]);
    PlaceUnique(sizes, i, c, p, m.clusterOf[i], m.localRanks[i]);
  }

  /** get_local_rank and get_global_rank of a process with global rank me. */
  function GetLocalRank(m: Members, rank: nat): nat
    requires rank < |m.localRanks|
  {
    m.localRanks[rank]
  }

  /** The cluster that is asked for is ignored: the search is always in the own cluster. */
  method GetGlobalRank(m: Members, me: nat, cluster: nat, rank: nat) returns (r: Option<nat>)
    requires me < |m.clusterOf| == |m.localRanks|
    ensures r.Some? ==> r.value < |m.clusterOf| && InOwn(m, me, rank, r.value)
    ensures r.Some? ==> forall i :: 0 <= i < r.value ==> !InOwn(m, me, rank, i)
    ensures r.None? ==> forall i :: 0 <= i < |m.clusterOf| ==> !InOwn(m, me, rank, i)
  {
    for i := 0 to |m.clusterOf|
      invariant forall k :: 0 <= k < i ==> !InOwn(m, me, rank, k)
    {
      if m.clusterOf[i] == m.clusterOf[me] && m.localRanks[i] == rank { return Some(i); }
    }
    return None;
  }

  predicate InOwn(m: Members, me: nat, rank: nat, i: nat)
    requires me < |m.clusterOf| == |m.localRanks| && i < |m.clusterOf|
  {
    m.clusterOf[i] == m.clusterOf[me] && m.localRanks[i] == rank
  }

  /** Searching for the local rank of i finds i exactly if i is in the own cluster. */
  lemma GlobalOfLocalIff(sizes: seq<nat>, m: Members, me: nat, i: nat, r: Option<nat>)
    requires Numbered(sizes, m) && me < |m.pids| && i < |m.pids|
    requires r.Some? ==> r.value < |m.pids| && InOwn(m, me, GetLocalRank(m, i), r.value)
    requires r.None? ==> forall k :: 0 <= k < |m.pids| ==> !InOwn(m, me, GetLocalRank(m, i), k)
    ensures r == Some(i) <==> m.clusterOf[i] == m.clusterOf[me]
  {
    if m.clusterOf[i] == m.clusterOf[me] {
      assert InOwn(m, me, GetLocalRank(m, i), i);
      assert Place(sizes, i, m.clusterOf[i], m.localRanks[i]);
      NumberingIsBijective(sizes, m, m.clusterOf[i], m.localRanks[i]);
    }
  }

  // ---- identities ----

  /** A PID keeps a cluster and a process rank exactly if they fit their fields. */
  lemma PidRoundTripIff(c: nat, p: nat)
    ensures GetClusterRank(SetPid(c, p)) == c <==> c < MAX_CLUSTERS
    ensures GetProcessRank(SetPid(c, p)) == p <==> p < MAX_PROCESSES_PER_CLUSTER
  {}

  lemma PidJoin(pid: uint32)
    ensures SetPid(GetClusterRank(pid), GetProcessRank(pid)) == pid
  {}

  /** All PIDs of the world are different from each other and from the server's, and give back rank and cluster. */
  lemma IdentitiesDistinct(sizes: seq<nat>, m: Members)
    requires Admitted(sizes) && Numbered(sizes, m)
    ensures forall i :: 0 <= i < |m.pids| ==>
              && m.pids[i] != SERVER_PID
              && GetClusterRank(m.pids[i]) == m.clusterOf[i]
              && GetProcessRank(m.pids[i]) == m.localRanks[i]
    ensures Distinct(m.pids)
  {
    forall i | 0 <= i < |m.pids|
      ensures m.pids[i] != SERVER_PID
      ensures GetClusterRank(m.pids[i]) == m.clusterOf[i] && GetProcessRank(m.pids[i]) == m.localRanks[i]
    {
      assert Place(sizes, i, m.clusterOf[i], m.localRanks[i]);
      PidRoundTripIff(m.clusterOf[i], m.localRanks[i]);
    }
    forall i, j | 0 <= i < j < |m.pids| ensures m.pids[i] != m.pids[j] {
      assert Place(sizes, i, m.clusterOf[i], m.localRanks[i]) && Place(sizes, j, m.clusterOf[j], m.localRanks[j]);
    }
  }

  /**
   The world meets what the wide-area collectives rely on: no cluster is empty, and the first
   rank of each cluster, its coordinator, has local rank 0.
   */
  lemma WorldIsPopulated(sizes: seq<nat>, m: Members)
    requires Admitted(sizes) && Numbered(sizes, m)
    ensures Clusters.Populated(m.clusterOf, |sizes|)
    ensures forall c :: 0 <= c < |sizes| ==>
              Clusters.Members(m.clusterOf, c) != [] && Clusters.Members(m.clusterOf, c)[0] == Offset(sizes, c)
  {
    forall i | 0 <= i < |m.clusterOf| ensures m.clusterOf[i] < |sizes| {
      assert Place(sizes, i, m.clusterOf[i], m.localRanks[i]);
    }
    forall c | 0 <= c < |sizes|
      ensures Clusters.Members(m.clusterOf, c) != [] && Clusters.Members(m.clusterOf, c)[0] == Offset(sizes, c)
    {
      NumberingIsBijective(sizes, m, c, 0);
      forall i | 0 <= i < Offset(sizes, c) ensures m.clusterOf[i] != c {
        assert Place(sizes, i, m.clusterOf[i], m.localRanks[i]);
      }
      FirstMember(m.clusterOf, c, Offset(sizes, c));
    }
  }

  lemma {:induction false} FirstMember(clusterOf: seq<nat>, c: nat, first: nat)
    requires first < |clusterOf| && clusterOf[first] == c && forall i :: 0 <= i < first ==> clusterOf[i] != c
    ensures Clusters.Members(clusterOf, c) != [] && Clusters.Members(clusterOf, c)[0] == first
  {
    var n := |clusterOf| - 1;
    if first < n {
      FirstMember(clusterOf[..n], c, first);
    } else {
      NoMembers(clusterOf[..n], c);
    }
  }

  lemma {:induction false} NoMembers(clusterOf: seq<nat>, c: nat)
    requires forall i :: 0 <= i < |clusterOf| ==> clusterOf[i] != c
    ensures Clusters.Members(clusterOf, c) == []
  {
    if clusterOf != [] { NoMembers(clusterOf[..|clusterOf| - 1], c); }
  }
}
