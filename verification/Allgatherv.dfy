/**
 The wide-area Allgatherv: coordinators gather their cluster's blocks into a buffer grouped by
 cluster, exchange the groups, and every rank copies the blocks out of it, one by one.
 */
module Allgatherv {
  import opened Common
  import opened Choreography
  import opened Clusters
  import opened Broadcasts
  import opened Buffers

  // ---- the grouped buffer ----

  /** The elements that the ranks below i of cluster c contribute. */
  function ClusterSum(clusterOf: seq<nat>, counts: seq<nat>, c: nat, i: nat): nat
    requires i <= |clusterOf| == |counts|
  {
    if i == 0 then 0 else ClusterSum(clusterOf, counts, c, i - 1) + if clusterOf[i - 1] == c then counts[i - 1] else 0
  }

  /** The same over all clusters below c. */
  function Offset(clusterOf: seq<nat>, counts: seq<nat>, c: nat, i: nat): nat
    requires i <= |clusterOf| == |counts|
  {
    if c == 0 then 0 else Offset(clusterOf, counts, c - 1, i) + ClusterSum(clusterOf, counts, c - 1, i)
  }

  function Total(counts: seq<nat>): nat {
    if counts == [] then 0 else Total(counts[..|counts| - 1]) + counts[|counts| - 1]
  }

  /** The blocks of the ranks below i of cluster c, in rank order. */
  function Gathered<T>(clusterOf: seq<nat>, data: seq<seq<T>>, c: nat, i: nat): seq<T>
    requires i <= |clusterOf| == |data|
  {
    if i == 0 then []
    else Gathered(clusterOf, data, c, i - 1) + if clusterOf[i - 1] == c then data[i - 1] else []
  }

  /** One group per cluster. */
  ghost function Groups<T>(clusterOf: seq<nat>, data: seq<seq<T>>, clusters: nat): seq<seq<T>>
    requires |clusterOf| == |data|
  {
    seq(clusters, c requires 0 <= c < clusters => Gathered(clusterOf, data, c, |data|))
  }

  ghost predicate Sized<T>(data: seq<seq<T>>, counts: seq<nat>) {
    |data| == |counts| && forall i :: 0 <= i < |data| ==> |data[i]| == counts[i]
  }

  lemma {:induction false} OffsetGrows(clusterOf: seq<nat>, counts: seq<nat>, c: nat, i: nat)
    requires i < |clusterOf| == |counts|
    ensures Offset(clusterOf, counts, c, i + 1)
            == Offset(clusterOf, counts, c, i) + if clusterOf[i] < c then counts[i] else 0
  {
    if c > 0 { OffsetGrows(clusterOf, counts, c - 1, i); }
  }

  /** The groups make up the whole. */
  lemma {:induction false} OffsetsTotal(clusterOf: seq<nat>, counts: seq<nat>, clusters: nat, i: nat)
    requires i <= |clusterOf| == |counts| && Spread(clusterOf, clusters)
    ensures Offset(clusterOf, counts, clusters, i) == Total(counts[..i])
  {
    if i == 0 {
      NothingYet(clusterOf, counts, clusters);
    } else {
      OffsetsTotal(clusterOf, counts, clusters, i - 1);
      OffsetGrows(clusterOf, counts, clusters, i - 1);
      assert counts[..i][..i - 1] == counts[..i - 1];
    }
  }

  lemma {:induction false} NothingYet(clusterOf: seq<nat>, counts: seq<nat>, c: nat)
    requires |clusterOf| == |counts|
    ensures Offset(clusterOf, counts, c, 0) == 0
  {
    if c > 0 { NothingYet(clusterOf, counts, c - 1); }
  }

  lemma {:induction false} OffsetsOrdered(clusterOf: seq<nat>, counts: seq<nat>, c: nat, d: nat)
    requires |clusterOf| == |counts| && c < d
    ensures Offset(clusterOf, counts, c, |counts|) + ClusterSum(clusterOf, counts, c, |counts|)
            <= Offset(clusterOf, counts, d, |counts|)
  {
    if c + 1 < d { OffsetsOrdered(clusterOf, counts, c, d - 1); }
  }

  lemma {:induction false} SumGrows(clusterOf: seq<nat>, counts: seq<nat>, c: nat, i: nat, j: nat)
    requires i <= j <= |clusterOf| == |counts|
    ensures ClusterSum(clusterOf, counts, c, i) <= ClusterSum(clusterOf, counts, c, j)
  {
    if i < j { SumGrows(clusterOf, counts, c, i, j - 1); }
  }

  lemma {:induction false} GatheredLength<T>(clusterOf: seq<nat>, data: seq<seq<T>>, counts: seq<nat>, c: nat, i: nat)
    requires i <= |clusterOf| == |data| == |counts|
    requires forall j :: 0 <= j < |data| && clusterOf[j] == c ==> |data[j]| == counts[j]
    ensures |Gathered(clusterOf, data, c, i)| == ClusterSum(clusterOf, counts, c, i)
  {
    if i > 0 { GatheredLength(clusterOf, data, counts, c, i - 1); }
  }

  lemma {:induction false} GatheredPrefix<T>(clusterOf: seq<nat>, data: seq<seq<T>>, c: nat, i: nat, j: nat)
    requires i <= j <= |clusterOf| == |data|
    ensures Gathered(clusterOf, data, c, i) <= Gathered(clusterOf, data, c, j)
  {
    if i < j { GatheredPrefix(clusterOf, data, c, i, j - 1); }
  }

  /** As many elements per group as get_count_sums counts. */
  ghost predicate GroupsSized<T>(groups: seq<seq<T>>, clusterOf: seq<nat>, counts: seq<nat>) {
    && |clusterOf| == |counts|
    && forall c :: 0 <= c < |groups| ==> |groups[c]| == ClusterSum(clusterOf, counts, c, |counts|)
  }

  lemma GroupsOfSized<T>(clusterOf: seq<nat>, data: seq<seq<T>>, counts: seq<nat>, clusters: nat)
    requires |clusterOf| == |data| && Sized(data, counts)
    ensures GroupsSized(Groups(clusterOf, data, clusters), clusterOf, counts)
  {
    forall c | 0 <= c < clusters
      ensures |Groups(clusterOf, data, clusters)[c]| == ClusterSum(clusterOf, counts, c, |counts|)
    {
      GatheredLength(clusterOf, data, counts, c, |counts|);
    }
  }

  lemma {:induction false} GroupStart<T>(groups: seq<seq<T>>, clusterOf: seq<nat>, counts: seq<nat>, c: nat)
    requires GroupsSized(groups, clusterOf, counts) && c <= |groups|
    ensures |Flatten(groups[..c])| == Offset(clusterOf, counts, c, |counts|)
  {
    if c > 0 {
      GroupStart(groups, clusterOf, counts, c - 1);
      assert groups[..c] == groups[..c - 1] + [groups[c - 1]];
      FlattenSnoc(groups[..c - 1], groups[c - 1]);
    }
  }

  lemma WholeLength<T>(groups: seq<seq<T>>, clusterOf: seq<nat>, counts: seq<nat>)
    requires GroupsSized(groups, clusterOf, counts)
    ensures |Flatten(groups)| == Offset(clusterOf, counts, |groups|, |counts|)
  {
    GroupStart(groups, clusterOf, counts, |groups|);
    assert groups[..|groups|] == groups;
  }

  /** Where the block of rank i is in the group of its cluster. */
  lemma BlockInGroup<T>(clusterOf: seq<nat>, data: seq<seq<T>>, counts: seq<nat>, i: nat)
    requires Sized(data, counts) && i < |clusterOf| == |data|
    ensures IsBlock(Gathered(clusterOf, data, clusterOf[i], |data|), data[i],
                    ClusterSum(clusterOf, counts, clusterOf[i], i), counts[i])
  {
    var c := clusterOf[i];
    var before := Gathered(clusterOf, data, c, i);
    GatheredLength(clusterOf, data, counts, c, i);
    GatheredPrefix(clusterOf, data, c, i + 1, |data|);
    BlockBehind(before, data[i], Gathered(clusterOf, data, c, |data|));
  }

  lemma BlockBehind<T>(before: seq<T>, block: seq<T>, whole: seq<T>)
    requires before + block <= whole
    ensures IsBlock(whole, block, |before|, |block|)
  {
    assert whole[..|before| + |block|] == before + block;
  }

  /** Where it is in the grouped buffer. */
  function Place(clusterOf: seq<nat>, counts: seq<nat>, i: nat): nat
    requires i < |clusterOf| == |counts|
  {
    Offset(clusterOf, counts, clusterOf[i], |counts|) + ClusterSum(clusterOf, counts, clusterOf[i], i)
  }

  lemma PlaceInBuffer(clusterOf: seq<nat>, counts: seq<nat>, clusters: nat, i: nat)
    requires i < |clusterOf| == |counts| && Spread(clusterOf, clusters)
    ensures Place(clusterOf, counts, i) + counts[i] <= Offset(clusterOf, counts, clusters, |counts|)
  {
    OffsetsOrdered(clusterOf, counts, clusterOf[i], clusters);
    SumGrows(clusterOf, counts, clusterOf[i], i + 1, |counts|);
  }

  lemma BlockPlace<T>(clusterOf: seq<nat>, data: seq<seq<T>>, counts: seq<nat>, clusters: nat, i: nat)
    requires Sized(data, counts) && i < |clusterOf| == |data| && Spread(clusterOf, clusters)
    ensures IsBlock(Flatten(Groups(clusterOf, data, clusters)), data[i], Place(clusterOf, counts, i), counts[i])
  {
    var c, groups := clusterOf[i], Groups(clusterOf, data, clusters);
    GroupsOfSized(clusterOf, data, counts, clusters);
    GroupStart(groups, clusterOf, counts, c);
    BlockInGroup(clusterOf, data, counts, i);
    SliceOfGroup(groups, c, Offset(clusterOf, counts, c, |counts|),
                 ClusterSum(clusterOf, counts, c, i), counts[i], data[i]);
  }

  /** The blocks that the last loop takes out of a grouped buffer. */
  function Ungrouped<T>(clusterOf: seq<nat>, counts: seq<nat>, clusters: nat, buffer: seq<T>): (r: seq<seq<T>>)
    requires |clusterOf| == |counts| && Spread(clusterOf, clusters)
    requires |buffer| == Offset(clusterOf, counts, clusters, |counts|)
    ensures Sized(r, counts)
  {
    seq(|counts|, i requires 0 <= i < |counts| => BlockAt(clusterOf, counts, clusters, buffer, i))
  }

  function BlockAt<T>(clusterOf: seq<nat>, counts: seq<nat>, clusters: nat, buffer: seq<T>, i: nat): (r: seq<T>)
    requires i < |clusterOf| == |counts| && Spread(clusterOf, clusters)
    requires |buffer| == Offset(clusterOf, counts, clusters, |counts|)
    ensures |r| == counts[i]
  {
    PlaceInBuffer(clusterOf, counts, clusters, i);
    var at := Place(clusterOf, counts, i);
    buffer[at..at + counts[i]]
  }

  /** Ungrouping undoes the grouping by clusters. */
  lemma UngroupedGroups<T>(clusterOf: seq<nat>, data: seq<seq<T>>, counts: seq<nat>, clusters: nat)
    requires |clusterOf| == |data| && Sized(data, counts) && Spread(clusterOf, clusters)
    ensures |Flatten(Groups(clusterOf, data, clusters))| == Offset(clusterOf, counts, clusters, |counts|)
    ensures Ungrouped(clusterOf, counts, clusters, Flatten(Groups(clusterOf, data, clusters))) == data
  {
    var whole := Flatten(Groups(clusterOf, data, clusters));
    GroupsOfSized(clusterOf, data, counts, clusters);
    WholeLength(Groups(clusterOf, data, clusters), clusterOf, counts);
    forall i | 0 <= i < |data| ensures BlockAt(clusterOf, counts, clusters, whole, i) == data[i] {
      BlockPlace(clusterOf, data, counts, clusters, i);
    }
  }

  ghost predicate IsBlock<T>(buffer: seq<T>, block: seq<T>, at: nat, n: nat) {
    at + n <= |buffer| && buffer[at..at + n] == block
  }

  lemma SliceOfGroup<T>(groups: seq<seq<T>>, c: nat, start: nat, at: nat, n: nat, block: seq<T>)
    requires c < |groups| && start == |Flatten(groups[..c])| && IsBlock(groups[c], block, at, n)
    ensures IsBlock(Flatten(groups), block, start + at, n)
  {
    FlattenSplit(groups, c);
  }

  // ---- the steps of the operation ----

  ghost predicate AreSums(sums: seq<nat>, clusterOf: seq<nat>, counts: seq<nat>, i: nat) {
    && i <= |clusterOf| == |counts|
    && forall c :: 0 <= c < |sums| ==> sums[c] == ClusterSum(clusterOf, counts, c, i)
  }

  ghost predicate AreOffsets(offsets: seq<nat>, clusterOf: seq<nat>, counts: seq<nat>) {
    && |clusterOf| == |counts|
    && forall c :: 0 <= c < |offsets| ==> offsets[c] == Offset(clusterOf, counts, c, |counts|)
  }

  /** get_count_sums. */
  method GetCountSums(clusterOf: seq<nat>, recvcounts: seq<nat>, clusters: nat, sums: array<nat>, offsets: array<nat>)
    returns (sum: nat)
    requires |clusterOf| == |recvcounts| && Spread(clusterOf, clusters) && 0 < clusters
    requires sums.Length == clusters == offsets.Length && sums != offsets
    modifies sums, offsets
    ensures AreSums(sums[..], clusterOf, recvcounts, |recvcounts|) && AreOffsets(offsets[..], clusterOf, recvcounts)
    ensures sum == Total(recvcounts) == Offset(clusterOf, recvcounts, clusters, |recvcounts|)
  {
    sum := AddCounts(clusterOf, recvcounts, clusters, sums);
    SumOffsets(clusterOf, recvcounts, clusters, sums[..], offsets);
    OffsetsTotal(clusterOf, recvcounts, clusters, |recvcounts|);
    assert recvcounts[..|recvcounts|] == recvcounts;
  }

  lemma OffsetNext(offsets: seq<nat>, sums: seq<nat>, clusterOf: seq<nat>, counts: seq<nat>, c: nat)
    requires AreSums(sums, clusterOf, counts, |counts|) && AreOffsets(offsets, clusterOf, counts)
    requires 0 < c == |offsets| <= |sums|
    ensures AreOffsets(offsets + [offsets[c - 1] + sums[c - 1]], clusterOf, counts)
  {}

  /** The last loop of get_count_sums. */
  method SumOffsets(clusterOf: seq<nat>, recvcounts: seq<nat>, clusters: nat, sums: seq<nat>, offsets: array<nat>)
    requires 0 < clusters == |sums| == offsets.Length && AreSums(sums, clusterOf, recvcounts, |recvcounts|)
    modifies offsets
    ensures AreOffsets(offsets[..], clusterOf, recvcounts)
  {
    offsets[0] := 0;
    for i := 1 to clusters
      invariant AreOffsets(offsets[..i], clusterOf, recvcounts)
    {
      ghost var before := offsets[..i];
      OffsetNext(before, sums, clusterOf, recvcounts, i);
      offsets[i] := offsets[i - 1] + sums[i - 1];
      assert offsets[..i + 1] == before + [offsets[i]];
    }
    assert offsets[..clusters] == offsets[..];
  }

  /** Its first two loops. */
  method AddCounts(clusterOf: seq<nat>, recvcounts: seq<nat>, clusters: nat, sums: array<nat>) returns (sum: nat)
    requires |clusterOf| == |recvcounts| && Spread(clusterOf, clusters) && sums.Length == clusters
    modifies sums
    ensures AreSums(sums[..], clusterOf, recvcounts, |recvcounts|)
    ensures sum == Total(recvcounts)
  {
    sum := 0;
    for i := 0 to clusters
      invariant forall c :: 0 <= c < i ==> sums[c] == 0
    {
      sums[i] := 0;
    }
    for i := 0 to |recvcounts|
      invariant AreSums(sums[..], clusterOf, recvcounts, i)
      invariant sum == Total(recvcounts[..i])
    {
      AddCount(sums[..], clusterOf, recvcounts, i);
      sums[clusterOf[i]] := sums[clusterOf[i]] + recvcounts[i];
      sum := sum + recvcounts[i];
      assert recvcounts[..i + 1][..i] == recvcounts[..i];
    }
    assert recvcounts[..|recvcounts|] == recvcounts;
  }

  lemma AddCount(sums: seq<nat>, clusterOf: seq<nat>, counts: seq<nat>, i: nat)
    requires AreSums(sums, clusterOf, counts, i) && i < |counts| && clusterOf[i] < |sums|
    ensures AreSums(sums[clusterOf[i] := sums[clusterOf[i]] + counts[i]], clusterOf, counts, i + 1)
  {}

  lemma PasteOnward<T>(buf: seq<T>, off: nat, a: seq<T>, b: seq<T>)
    requires off + |a| + |b| <= |buf|
    ensures Paste(Paste(buf, off, a), off + |a|, b) == Paste(buf, off, a + b)
  {}

  /**
   A coordinator of cluster me collects the blocks of its cluster; incoming[i] is what rank i
   sends, or for the coordinator itself its send buffer.
   */
  method GatherLocal<T>(me: nat, clusterOf: seq<nat>, recvcounts: seq<nat>, incoming: seq<seq<T>>, start: nat,
                        buffer: array<T>)
    requires |clusterOf| == |recvcounts| == |incoming|
    requires forall i :: 0 <= i < |incoming| && clusterOf[i] == me ==> |incoming[i]| == recvcounts[i]
    requires start + ClusterSum(clusterOf, recvcounts, me, |recvcounts|) <= buffer.Length
    modifies buffer
    ensures start + |Gathered(clusterOf, incoming, me, |incoming|)| <= buffer.Length
    ensures buffer[..] == Paste(old(buffer[..]), start, Gathered(clusterOf, incoming, me, |incoming|))
  {
    var offset := start;
    GatheredLength(clusterOf, incoming, recvcounts, me, |incoming|);
    for i := 0 to |incoming|
      invariant offset == start + |Gathered(clusterOf, incoming, me, i)|
                       == start + ClusterSum(clusterOf, recvcounts, me, i)
      invariant offset <= buffer.Length
      invariant buffer[..] == Paste(old(buffer[..]), start, Gathered(clusterOf, incoming, me, i))
    {
      if clusterOf[i] == me {
        SumGrows(clusterOf, recvcounts, me, i + 1, |recvcounts|);
        PasteOnward(old(buffer[..]), start, Gathered(clusterOf, incoming, me, i), incoming[i]);
        CopyInto(buffer, offset, incoming[i]);
        offset := offset + recvcounts[i];
      }
    }
  }

  lemma {:induction false} StartsOrdered<T>(blocks: seq<seq<T>>, i: nat, j: nat)
    requires i < j <= |blocks|
    ensures |Flatten(blocks[..i])| + |blocks[i]| <= |Flatten(blocks[..j])|
  {
    assert blocks[..j] == blocks[..j - 1] + [blocks[j - 1]];
    FlattenSnoc(blocks[..j - 1], blocks[j - 1]);
    if i < j - 1 { StartsOrdered(blocks, i, j - 1); }
  }

  /** buf starts with the first i blocks, and block me is in place if its turn is still to come. */
  ghost predicate Filled<T>(buf: seq<T>, blocks: seq<seq<T>>, me: nat, i: nat)
    requires me < |blocks| && i <= |blocks|
  {
    && |buf| == |Flatten(blocks)|
    && Flatten(blocks[..i]) <= buf
    && (i <= me ==>
          var at := |Flatten(blocks[..me])|;
          at + |blocks[me]| <= |buf| && buf[at..at + |blocks[me]|] == blocks[me])
  }

  lemma FilledNext<T>(buf: seq<T>, blocks: seq<seq<T>>, me: nat, i: nat)
    requires me < |blocks| && i < |blocks| && i != me && Filled(buf, blocks, me, i)
    ensures var at := |Flatten(blocks[..i])|;
            at + |blocks[i]| <= |buf| && Filled(Paste(buf, at, blocks[i]), blocks, me, i + 1)
  {
    StartsOrdered(blocks, i, |blocks|);
    assert blocks[..|blocks|] == blocks;
    assert blocks[..i + 1] == blocks[..i] + [blocks[i]];
    FlattenSnoc(blocks[..i], blocks[i]);
    if i < me { StartsOrdered(blocks, i, me); }
  }

  lemma FilledOwn<T>(buf: seq<T>, blocks: seq<seq<T>>, me: nat)
    requires me < |blocks| && Filled(buf, blocks, me, me)
    ensures Filled(buf, blocks, me, me + 1)
  {
    assert blocks[..me + 1] == blocks[..me] + [blocks[me]];
    FlattenSnoc(blocks[..me], blocks[me]);
  }

  /**
   Coordinator me and the others take turns in broadcasting their groups; incoming[i] is what
   coordinator i sends, and for me its own group, which is in place already.
   */
  method ExchangeGroups<T>(me: nat, sums: seq<nat>, offsets: seq<nat>, incoming: seq<seq<T>>, buffer: array<T>)
    returns (ops: seq<Op<seq<T>>>)
    requires me < |incoming| == |sums| == |offsets|
    requires forall i :: 0 <= i < |incoming| ==> |incoming[i]| == sums[i] && offsets[i] == |Flatten(incoming[..i])|
    requires Filled(buffer[..], incoming, me, 0)
    modifies buffer
    ensures buffer[..] == Flatten(incoming)
    ensures ops == TurnOps(me, incoming[me], |incoming|, |incoming|)
  {
    ops := [];
    for i := 0 to |incoming|
      invariant Filled(buffer[..], incoming, me, i)
      invariant ops == TurnOps(me, incoming[me], |incoming|, i)
    {
      if i == me {
        FilledOwn(buffer[..], incoming, me);
        var bcast := MessagingBcast(me, |incoming|, buffer[offsets[i]..offsets[i] + sums[i]]);
        ops := ops + bcast;
      } else {
        FilledNext(buffer[..], incoming, me, i);
        ops := ops + [RecvFrom(i)];
        CopyInto(buffer, offsets[i], incoming[i]);
      }
    }
    assert incoming[..|incoming|] == incoming;
  }

  /** Every rank takes the blocks out of the grouped buffer, moving on in the group of each block's cluster. */
  method Ungroup<T>(clusterOf: seq<nat>, recvcounts: seq<nat>, displs: seq<nat>, clusters: nat, offsets: array<nat>,
                    buffer: seq<T>, recvbuf: array<T>)
    requires |clusterOf| == |recvcounts| && Spread(clusterOf, clusters)
    requires offsets.Length == clusters && recvbuf as object != offsets
    requires AreOffsets(offsets[..], clusterOf, recvcounts)
    requires |buffer| == Offset(clusterOf, recvcounts, clusters, |recvcounts|)
    requires Fits(recvbuf.Length, displs, Ungrouped(clusterOf, recvcounts, clusters, buffer))
    modifies recvbuf, offsets
    ensures recvbuf[..] == PasteAll(old(recvbuf[..]), displs, Ungrouped(clusterOf, recvcounts, clusters, buffer))
  {
    ghost var blocks := Ungrouped(clusterOf, recvcounts, clusters, buffer);
    PasteFull(recvbuf[..], displs, blocks);
    assert Advanced(offsets[..], clusterOf, recvcounts, 0);
    for i := 0 to |recvcounts|
      invariant Advanced(offsets[..], clusterOf, recvcounts, i)
      invariant recvbuf[..] == PasteFirst(old(recvbuf[..]), displs, blocks, i)
    {
      var tmp := clusterOf[i];
      BlockIsNext(clusterOf, recvcounts, clusters, offsets[..], buffer, i);
      PasteNext(old(recvbuf[..]), displs, blocks, i);
      Advance(offsets[..], clusterOf, recvcounts, i);
      TakeBlock(buffer, offsets, tmp, recvcounts[i], recvbuf, displs[i], blocks[i]);
    }
  }

  /** Its body: copies the next block of cluster c to off. */
  method TakeBlock<T>(buffer: seq<T>, offsets: array<nat>, c: nat, n: nat, recvbuf: array<T>, off: nat,
                      ghost block: seq<T>)
    requires c < offsets.Length && IsBlock(buffer, block, offsets[c], n)
    requires recvbuf as object != offsets && off + n <= recvbuf.Length
    modifies recvbuf, offsets
    ensures recvbuf[..] == Paste(old(recvbuf[..]), off, block)
    ensures offsets[..] == old(offsets[..])[c := old(offsets[c]) + n]
  {
    CopyInto(recvbuf, off, buffer[offsets[c]..offsets[c] + n]);
    offsets[c] := offsets[c] + n;
  }

  /** The blocks below i copied one after the other. */
  ghost function PasteFirst<T>(buf: seq<T>, displs: seq<nat>, blocks: seq<seq<T>>, i: nat): seq<T>
    requires Fits(|buf|, displs, blocks) && i <= |blocks|
  {
    PasteAll(buf, displs[..i], blocks[..i])
  }

  lemma PasteNext<T>(buf: seq<T>, displs: seq<nat>, blocks: seq<seq<T>>, i: nat)
    requires Fits(|buf|, displs, blocks) && i < |blocks|
    ensures PasteFirst(buf, displs, blocks, i + 1) == Paste(PasteFirst(buf, displs, blocks, i), displs[i], blocks[i])
  {
    PasteOneMore(buf, displs, blocks, i);
  }

  lemma PasteFull<T>(buf: seq<T>, displs: seq<nat>, blocks: seq<seq<T>>)
    requires Fits(|buf|, displs, blocks)
    ensures PasteFirst(buf, displs, blocks, 0) == buf
    ensures PasteFirst(buf, displs, blocks, |blocks|) == PasteAll(buf, displs, blocks)
  {
    assert blocks[..|blocks|] == blocks && displs[..|displs|] == displs;
  }

  lemma BlockIsNext<T>(clusterOf: seq<nat>, counts: seq<nat>, clusters: nat, offsets: seq<nat>, buffer: seq<T>, i: nat)
    requires Spread(clusterOf, clusters) && Advanced(offsets, clusterOf, counts, i) && i < |counts|
    requires |offsets| == clusters && |buffer| == Offset(clusterOf, counts, clusters, |counts|)
    ensures IsBlock(buffer, Ungrouped(clusterOf, counts, clusters, buffer)[i], offsets[clusterOf[i]], counts[i])
  {
    PlaceInBuffer(clusterOf, counts, clusters, i);
    assert Ungrouped(clusterOf, counts, clusters, buffer)[i] == BlockAt(clusterOf, counts, clusters, buffer, i);
  }

  /** The offsets have moved on by the blocks of the ranks below i. */
  ghost predicate Advanced(offsets: seq<nat>, clusterOf: seq<nat>, counts: seq<nat>, i: nat) {
    && i <= |clusterOf| == |counts|
    && forall c :: 0 <= c < |offsets| ==>
         offsets[c] == Offset(clusterOf, counts, c, |counts|) + ClusterSum(clusterOf, counts, c, i)
  }

  lemma Advance(offsets: seq<nat>, clusterOf: seq<nat>, counts: seq<nat>, i: nat)
    requires Advanced(offsets, clusterOf, counts, i) && i < |counts| && clusterOf[i] < |offsets|
    ensures Advanced(offsets[clusterOf[i] := offsets[clusterOf[i]] + counts[i]], clusterOf, counts, i + 1)
  {}

  lemma {:induction false} GatheredAgrees<T>(clusterOf: seq<nat>, a: seq<seq<T>>, b: seq<seq<T>>, c: nat, i: nat)
    requires i <= |clusterOf| == |a| == |b|
    requires forall j :: 0 <= j < |a| && clusterOf[j] == c ==> a[j] == b[j]
    ensures Gathered(clusterOf, a, c, i) == Gathered(clusterOf, b, c, i)
  {
    if i > 0 { GatheredAgrees(clusterOf, a, b, c, i - 1); }
  }

  /** Once a coordinator has gathered its group into the buffer, the buffer is ready for the exchange. */
  lemma ReadyToExchange<T>(groups: seq<seq<T>>, clusterOf: seq<nat>, counts: seq<nat>, me: nat, buf: seq<T>)
    requires GroupsSized(groups, clusterOf, counts) && me < |groups|
    requires |buf| == Offset(clusterOf, counts, |groups|, |counts|)
    ensures var start := Offset(clusterOf, counts, me, |counts|);
            && start + |groups[me]| <= |buf|
            && Filled(Paste(buf, start, groups[me]), groups, me, 0)
  {
    WholeLength(groups, clusterOf, counts);
    GroupStart(groups, clusterOf, counts, me);
    StartsOrdered(groups, me, |groups|);
    assert groups[..|groups|] == groups && groups[..0] == [];
  }

  /** local[i] has the size announced for rank i of cluster me, and wide[c] that of the group of another cluster c. */
  ghost predicate Received<T>(me: nat, clusterOf: seq<nat>, counts: seq<nat>, local: seq<seq<T>>, wide: seq<seq<T>>) {
    && me < |wide| && |clusterOf| == |counts| == |local|
    && (forall i :: 0 <= i < |local| && clusterOf[i] == me ==> |local[i]| == counts[i])
    && forall c :: 0 <= c < |wide| && c != me ==> |wide[c]| == ClusterSum(clusterOf, counts, c, |counts|)
  }

  /** The groups that the coordinator of cluster me ends up with. */
  function Collected<T>(me: nat, clusterOf: seq<nat>, local: seq<seq<T>>, wide: seq<seq<T>>): seq<seq<T>>
    requires me < |wide| && |clusterOf| == |local|
  {
    wide[me := Gathered(clusterOf, local, me, |local|)]
  }

  lemma CollectedSized<T>(me: nat, clusterOf: seq<nat>, counts: seq<nat>, local: seq<seq<T>>, wide: seq<seq<T>>)
    requires Received(me, clusterOf, counts, local, wide)
    ensures GroupsSized(Collected(me, clusterOf, local, wide), clusterOf, counts)
  {
    GatheredLength(clusterOf, local, counts, me, |counts|);
  }

  /**
   EMPI_Allgatherv on a rank of cluster me. local[i] is what the coordinator receives from rank
   i of its cluster (or its own send buffer), wide[c] what it receives from coordinator c, and
   grouped what the closing local broadcast delivers to the other ranks of the cluster.
   */
  method WaAllgatherv<T(0)>(me: nat, coordinator: bool, clusterOf: seq<nat>, clusters: nat, recvcounts: seq<nat>,
                            displs: seq<nat>, local: seq<seq<T>>, wide: seq<seq<T>>, grouped: seq<T>,
                            recvbuf: array<T>) returns (ops: seq<Op<seq<T>>>)
    requires me < clusters == |wide| && |clusterOf| == |recvcounts| == |displs| == |local|
    requires Spread(clusterOf, clusters)
    requires forall i :: 0 <= i < |displs| ==> displs[i] + recvcounts[i] <= recvbuf.Length
    requires if coordinator then Received(me, clusterOf, recvcounts, local, wide)
             else |grouped| == Offset(clusterOf, recvcounts, clusters, |recvcounts|)
    modifies recvbuf
    ensures var buffer := Shared(me, coordinator, clusterOf, local, wide, grouped);
            && |buffer| == Offset(clusterOf, recvcounts, clusters, |recvcounts|)
            && recvbuf[..] == PasteAll(old(recvbuf[..]), displs, Ungrouped(clusterOf, recvcounts, clusters, buffer))
    ensures ops == if coordinator then TurnOps(me, Gathered(clusterOf, local, me, |local|), clusters, clusters) else []
  {
    var sums, offsets := new nat[clusters], new nat[clusters];
    var sum := GetCountSums(clusterOf, recvcounts, clusters, sums, offsets);
    var buffer := new T[sum];
    ops := FillBuffer(me, coordinator, clusterOf, recvcounts, sums[..], offsets[..], local, wide, grouped, buffer);
    Ungroup(clusterOf, recvcounts, displs, clusters, offsets, buffer[..], recvbuf);
  }

  /** The buffer of a rank of cluster me when the closing local broadcast is over. */
  function Shared<T>(me: nat, coordinator: bool, clusterOf: seq<nat>, local: seq<seq<T>>, wide: seq<seq<T>>,
                     grouped: seq<T>): seq<T>
    requires me < |wide| && |clusterOf| == |local|
  {
    if coordinator then Flatten(Collected(me, clusterOf, local, wide)) else grouped
  }

  method FillBuffer<T>(me: nat, coordinator: bool, clusterOf: seq<nat>, recvcounts: seq<nat>, sums: seq<nat>,
                       offsets: seq<nat>, local: seq<seq<T>>, wide: seq<seq<T>>, grouped: seq<T>, buffer: array<T>)
    returns (ops: seq<Op<seq<T>>>)
    requires me < |wide| == |sums| == |offsets| && |clusterOf| == |local|
    requires if coordinator then Received(me, clusterOf, recvcounts, local, wide) else |grouped| == buffer.Length
    requires AreSums(sums, clusterOf, recvcounts, |recvcounts|) && AreOffsets(offsets, clusterOf, recvcounts)
    requires buffer.Length == Offset(clusterOf, recvcounts, |wide|, |recvcounts|)
    modifies buffer
    ensures buffer[..] == Shared(me, coordinator, clusterOf, local, wide, grouped)
    ensures ops == if coordinator then TurnOps(me, Gathered(clusterOf, local, me, |local|), |wide|, |wide|) else []
  {
    if coordinator {
      ops := CoordinatorPart(me, clusterOf, recvcounts, sums, offsets, local, wide, buffer);
    } else {
      ops := [];
      CopyInto(buffer, 0, grouped);
      assert buffer[..] == grouped;
    }
  }

  /** The coordinator fills the grouped buffer. */
  method CoordinatorPart<T>(me: nat, clusterOf: seq<nat>, recvcounts: seq<nat>, sums: seq<nat>, offsets: seq<nat>,
                            local: seq<seq<T>>, wide: seq<seq<T>>, buffer: array<T>) returns (ops: seq<Op<seq<T>>>)
    requires Received(me, clusterOf, recvcounts, local, wide) && |wide| == |sums| == |offsets|
    requires AreSums(sums, clusterOf, recvcounts, |recvcounts|) && AreOffsets(offsets, clusterOf, recvcounts)
    requires buffer.Length == Offset(clusterOf, recvcounts, |wide|, |recvcounts|)
    modifies buffer
    ensures buffer[..] == Flatten(Collected(me, clusterOf, local, wide))
    ensures ops == TurnOps(me, Gathered(clusterOf, local, me, |local|), |wide|, |wide|)
  {
    ghost var groups := Collected(me, clusterOf, local, wide);
    CollectedSized(me, clusterOf, recvcounts, local, wide);
    ReadyToExchange(groups, clusterOf, recvcounts, me, buffer[..]);
    GatherLocal(me, clusterOf, recvcounts, local, offsets[me], buffer);
    forall c | 0 <= c < |groups| ensures |groups[c]| == sums[c] && offsets[c] == |Flatten(groups[..c])| {
      GroupStart(groups, clusterOf, recvcounts, c);
    }
    var incoming := wide[me := buffer[offsets[me]..offsets[me] + sums[me]]];
    assert incoming == groups;
    ops := ExchangeGroups(me, sums, offsets, incoming, buffer);
  }

  // ---- the result ----

  /** The exchange among coordinators never deadlocks, even if every send is a rendezvous, and every run ends. */
  lemma AllgathervCompletes<T>(clusterOf: seq<nat>, data: seq<seq<T>>, clusters: nat, steps: seq<Step>,
                               st: State<seq<T>>)
    requires |clusterOf| == |data|
    requires Reaches(Start(TurnPrograms(Groups(clusterOf, data, clusters))), steps, st)
    ensures |steps| <= Left(TurnPrograms(Groups(clusterOf, data, clusters)))
    ensures !Finished(st) ==> exists step :: Enabled(st, step) && !step.Post?
  {
    TurnsComplete(Groups(clusterOf, data, clusters), steps, st);
  }

  /** When it has ended, every coordinator has all groups. */
  lemma AllgathervDelivers<T>(clusterOf: seq<nat>, data: seq<seq<T>>, clusters: nat, steps: seq<Step>,
                              st: State<seq<T>>, c: nat, wide: seq<seq<T>>)
    requires |clusterOf| == |data| && c < clusters == |wide|
    requires Reaches(Start(TurnPrograms(Groups(clusterOf, data, clusters))), steps, st) && Finished(st)
    requires forall d :: 0 <= d < clusters && d != c ==> At(st.got, d, c) == [wide[d]]
    ensures Collected(c, clusterOf, data, wide) == Groups(clusterOf, data, clusters)
  {
    var groups := Groups(clusterOf, data, clusters);
    forall d | 0 <= d < clusters && d != c ensures wide[d] == groups[d] {
      TurnsDeliver(groups, steps, st, d, c);
      assert [wide[d]][0] == [groups[d]][0];
    }
  }

  /**
   As the closing broadcasts share the buffers of the coordinators, in any finished run every rank
   r of every cluster ends up with the data of all ranks, each block in its place.
   */
  lemma EveryRankGetsBlocks<T>(clusterOf: seq<nat>, data: seq<seq<T>>, counts: seq<nat>, clusters: nat,
                               steps: seq<Step>, st: State<seq<T>>, wide: seq<seq<T>>,
                               r: nat, recvbuf: seq<T>, displs: seq<nat>)
    requires r < |clusterOf| == |data| && Spread(clusterOf, clusters) && Sized(data, counts) && |wide| == clusters
    requires Reaches(Start(TurnPrograms(Groups(clusterOf, data, clusters))), steps, st) && Finished(st)
    requires forall d :: 0 <= d < clusters && d != clusterOf[r] ==> At(st.got, d, clusterOf[r]) == [wide[d]]
    requires Fits(|recvbuf|, displs, data)
    ensures var shared := Flatten(Collected(clusterOf[r], clusterOf, data, wide));
            && |shared| == Offset(clusterOf, counts, clusters, |counts|)
            && var after := PasteAll(recvbuf, displs, Ungrouped(clusterOf, counts, clusters, shared));
               after == PasteAll(recvbuf, displs, data)
               && (Apart(displs, data) ==> Scattered(recvbuf, after, displs, data))
  {
    AllgathervDelivers(clusterOf, data, clusters, steps, st, clusterOf[r], wide);
    UngroupedGroups(clusterOf, data, counts, clusters);
    if Apart(displs, data) { PasteAllScatters(recvbuf, displs, data); }
  }
}
