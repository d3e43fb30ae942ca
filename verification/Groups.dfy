/** Groups: ordered lists of process identities, and the operations that build new ones. */
module Groups {
  import opened Common
  import opened Messages

  const MAX_GROUPS := 1024
  const HANDLE_EMPTY: nat := 1

  /** rank is the own position in the group, or -1. */
  datatype Group = Group(rank: int, members: seq<uint32>)

  const EMPTY := Group(-1, [])

  ghost predicate RankOk(g: Group, pid: uint32) {
    if g.rank == -1 then pid !in g.members else 0 <= g.rank < |g.members| && g.members[g.rank] == pid
  }

  const INT_MAX := 0x7FFF_FFFF

  datatype Triplet = Triplet(first: int32, last: int32, stride: int32)

  // ---- what a triplet stands for (MPI 2.1, section 6.3.2) ----

  function Abs(x: int): nat { if x < 0 then -x else x }

  /**
   first, first + stride, ... as far as last: floor((last - first) / stride) + 1 ranks, and none
   if the stride leads away from last.
   */
  function Expansion(t: Triplet): seq<int>
    requires t.stride != 0
  {
    seq(Count(t), k => Nth(t, k))
  }

  function Count(t: Triplet): nat
    requires t.stride != 0
  {
    var d: int := t.stride;
    var steps := if d > 0 then (t.last - t.first) / d else (t.first - t.last) / -d;
    if steps < 0 then 0 else steps + 1
  }

  function Nth(t: Triplet, k: int): int { t.first + k * t.stride }

  predicate ValidTriplet(t: Triplet, size: nat) {
    && t.stride != 0 && 0 <= t.first < size && 0 <= t.last < size
    && ((t.first <= t.last && t.stride > 0) || (t.last <= t.first && t.stride < 0))
  }

  /** The step that ends the forward loop over t leaves the range of the int that counts it. */
  predicate Overflows(t: Triplet) { t.stride > 0 && Nth(t, Count(t)) > INT_MAX }

  ghost predicate NoneOverflows(ranges: seq<Triplet>) { forall i :: 0 <= i < |ranges| ==> !Overflows(ranges[i]) }

  ghost predicate AllValid(ranges: seq<Triplet>, size: nat) {
    forall i :: 0 <= i < |ranges| ==> ValidTriplet(ranges[i], size)
  }

  /** MPI allows no stride of zero. */
  ghost predicate Strided(ranges: seq<Triplet>) { forall i :: 0 <= i < |ranges| ==> ranges[i].stride != 0 }

  function ExpandAll(ranges: seq<Triplet>): seq<int>
    requires forall i :: 0 <= i < |ranges| ==> ranges[i].stride != 0
  {
    if ranges == [] then [] else ExpandAll(ranges[..|ranges| - 1]) + Expansion(ranges[|ranges| - 1])
  }

  ghost predicate InRange(ranks: seq<int>, size: nat) { forall i :: 0 <= i < |ranks| ==> 0 <= ranks[i] < size }

  lemma DivisionBounds(x: nat, d: nat, k: nat)
    requires d > 0
    ensures k <= x / d <==> k * d <= x
  {
    var q, r := x / d, x % d;
    assert x == d * q + r && r < d;
    if k <= q { assert k * d <= q * d; } else { assert k * d >= (q + 1) * d; }
  }

  lemma NthIsBetween(first: int, last: int, stride: int, k: nat)
    requires stride != 0
    ensures var within := k <= Abs(last - first) / Abs(stride);
            && (stride > 0 && first <= last ==> (first + k * stride <= last <==> within) && first + k * stride >= first)
            && (stride < 0 && last <= first ==> (first + k * stride >= last <==> within) && first + k * stride <= first)
  {
    DivisionBounds(Abs(last - first), Abs(stride), k);
    Negated(k, stride);
    if stride > 0 { assert k * stride >= 0; } else { assert k * -stride >= 0; }
  }

  lemma Negated(k: int, d: int)
    ensures k * -d == -(k * d)
  {}

  lemma NthInRange(t: Triplet, size: nat, k: nat)
    requires ValidTriplet(t, size)
    ensures Within(t, Nth(t, k)) <==> k < Count(t)
    ensures k < Count(t) ==> 0 <= Nth(t, k) < size
  {
    NthIsBetween(t.first, t.last, t.stride, k);
  }

  /** i is not beyond the end of t, seen from its beginning. */
  predicate Within(t: Triplet, i: int) { if t.stride > 0 then i <= t.last else i >= t.last }

  lemma ExpansionInRange(t: Triplet, size: nat)
    requires ValidTriplet(t, size)
    ensures InRange(Expansion(t), size)
  {
    forall k: nat | k < Count(t) ensures 0 <= Nth(t, k) < size { NthInRange(t, size, k); }
  }

  lemma {:induction false} ExpandAllInRange(ranges: seq<Triplet>, size: nat)
    requires AllValid(ranges, size)
    ensures InRange(ExpandAll(ranges), size)
  {
    if ranges != [] {
      ExpandAllInRange(ranges[..|ranges| - 1], size);
      ExpansionInRange(ranges[|ranges| - 1], size);
    }
  }

  // ---- the results of the operations ----

  function MembersAt(members: seq<uint32>, ranks: seq<int>): (r: seq<uint32>)
    requires forall i :: 0 <= i < |ranks| ==> 0 <= ranks[i] < |members|
    ensures |r| == |ranks|
  {
    seq(|ranks|, i requires 0 <= i < |ranks| && 0 <= ranks[i] < |members| => members[ranks[i]])
  }

  /** The last position of pid, or -1. */
  function RankOf(members: seq<uint32>, pid: uint32): (r: int)
    ensures RankOk(Group(r, members), pid)
  {
    if members == [] then -1
    else if members[|members| - 1] == pid then |members| - 1
    else RankOf(members[..|members| - 1], pid)
  }

  function Made(members: seq<uint32>, pid: uint32): Group { Group(RankOf(members, pid), members) }

  /** What group_incl returns; room says whether the group table has a free slot. */
  function Incl(g: Group, ranks: seq<int>, pid: uint32, room: bool): Result<Group> {
    if ranks != [] && !room then Err(ErrIntern)
    else if exists i :: 0 <= i < |ranks| && !(0 <= ranks[i] < |g.members|) then Err(ErrRank)
    else Ok(Made(MembersAt(g.members, ranks), pid))
  }

  /** The ranks that the calls of get_range collect in a buffer for size ranks, or their error. */
  function Collect(ranges: seq<Triplet>, size: nat): Result<seq<int>> {
    if ranges == [] then Ok([])
    else
      var t := ranges[|ranges| - 1];
      match Collect(ranges[..|ranges| - 1], size)
      case Err(e) => Err(e)
      case Ok(ranks) =>
        if !ValidTriplet(t, size) then Err(ErrRank)
        else Appended(ranks, t, size)
  }

  /** What a call of get_range with a valid triplet makes of the ranks collected before. */
  function Appended(ranks: seq<int>, t: Triplet, size: nat): Result<seq<int>>
    requires t.stride != 0
  {
    if |ranks| + |Expansion(t)| > size then Err(ErrArg)
    else if Overflows(t) then Err(Overflow)
    else Ok(ranks + Expansion(t))
  }

  lemma {:induction false} CollectInRange(ranges: seq<Triplet>, size: nat)
    requires Collect(ranges, size).Ok?
    ensures InRange(Collect(ranges, size).value, size) && |Collect(ranges, size).value| <= size
  {
    if ranges != [] {
      CollectInRange(ranges[..|ranges| - 1], size);
      ExpansionInRange(ranges[|ranges| - 1], size);
    }
  }

  ghost function RangeMembers(members: seq<uint32>, ranges: seq<Triplet>): Result<seq<uint32>> {
    match Collect(ranges, |members|)
    case Err(e) => Err(e)
    case Ok(ranks) => CollectInRange(ranges, |members|); Ok(MembersAt(members, ranks))
  }

  /** What group_range_incl returns. */
  ghost function RangeIncl(g: Group, ranges: seq<Triplet>, pid: uint32, room: bool): Result<Group> {
    if g.members == [] then Ok(EMPTY)
    else match RangeMembers(g.members, ranges)
      case Err(e) => Err(e)
      case Ok(members) => if members != [] && !room then Err(ErrIntern) else Ok(Made(members, pid))
  }

  /** A loop counter overflows before the buffer is full: the ranks up to and including its triplet fit. */
  ghost predicate OverflowsFirst(ranges: seq<Triplet>, size: nat)
    requires AllValid(ranges, size)
  {
    && ranges != []
    && (OverflowsFirst(ranges[..|ranges| - 1], size)
        || (Overflows(ranges[|ranges| - 1]) && |ExpandAll(ranges)| <= size))
  }

  /** For valid triplets: the ranks in order, unless there are more than members or a loop counter overflows. */
  lemma {:induction false} CollectIsExpansion(ranges: seq<Triplet>, size: nat)
    requires AllValid(ranges, size)
    ensures Collect(ranges, size)
            == if OverflowsFirst(ranges, size) then Err(Overflow)
               else if |ExpandAll(ranges)| <= size then Ok(ExpandAll(ranges)) else Err(ErrArg)
  {
    if ranges != [] {
      var n := |ranges| - 1;
      CollectIsExpansion(ranges[..n], size);
      assert ranges[n].stride != 0 && ValidTriplet(ranges[n], size);
    }
  }

  /** While all ranks fit, a loop counter overflows exactly if that of some triplet does. */
  lemma {:induction false} OverflowsIfAny(ranges: seq<Triplet>, size: nat)
    requires AllValid(ranges, size)
    ensures OverflowsFirst(ranges, size) ==> !NoneOverflows(ranges)
    ensures |ExpandAll(ranges)| <= size && !NoneOverflows(ranges) ==> OverflowsFirst(ranges, size)
  {
    if ranges != [] {
      OverflowsIfAny(ranges[..|ranges| - 1], size);
    }
  }

  /** Whenever get_range is content, all triplets were valid. */
  lemma {:induction false} CollectedIsValid(ranges: seq<Triplet>, size: nat)
    requires Collect(ranges, size).Ok?
    ensures AllValid(ranges, size)
  {
    if ranges != [] { CollectedIsValid(ranges[..|ranges| - 1], size); }
  }

  /** Distinct numbers below n are at most n. */
  lemma {:induction false} Pigeonhole(ranks: seq<int>, n: nat)
    requires InRange(ranks, n) && Distinct(ranks)
    ensures |ranks| <= n
  {
    if ranks != [] {
      assert 0 <= ranks[0] < n;
      if k :| 0 <= k < |ranks| && ranks[k] == n - 1 {
        var rest := ranks[..k] + ranks[k + 1..];
        Pigeonhole(rest, n - 1);
      } else {
        Pigeonhole(ranks, n - 1);
      }
    }
  }

  /** How many triplets stand before the first that get_range rejects. */
  function ValidPrefix(ranges: seq<Triplet>, size: nat): (k: nat)
    ensures k <= |ranges| && AllValid(ranges[..k], size) && (k < |ranges| ==> !ValidTriplet(ranges[k], size))
  {
    if ranges == [] || !ValidTriplet(ranges[0], size) then 0 else ValidPrefix(ranges[1..], size) + 1
  }

  /**
   What group_range_incl makes of any triplets: on a non-empty group, what group_incl does with the
   expanded list of ranks, except that the counter of a forward loop may overflow, that lists
   longer than the group are rejected, and that every triplet must start and end in the group.
   */
  lemma RangeInclIsIncl(g: Group, ranges: seq<Triplet>, pid: uint32, room: bool)
    ensures var size := |g.members|;
            var valid := ranges[..ValidPrefix(ranges, size)];
            RangeIncl(g, ranges, pid, room)
            == if g.members == [] then Ok(EMPTY)
               else if OverflowsFirst(valid, size) then Err(Overflow)
               else if |ExpandAll(valid)| > size then Err(ErrArg)
               else if valid != ranges then Err(ErrRank)
               else Incl(g, ExpandAll(valid), pid, room)
  {
    var size := |g.members|;
    var k := ValidPrefix(ranges, size);
    CollectIsExpansion(ranges[..k], size);
    if k < |ranges| {
      if Collect(ranges[..k], size).Ok? {
        CollectNext(ranges, size, k);
        ErrorsStay(ranges, size, k + 1);
      } else {
        ErrorsStay(ranges, size, k);
      }
    } else {
      assert ranges[..k] == ranges;
      ExpandAllInRange(ranges, size);
    }
  }

  lemma AllValidPrefix(ranges: seq<Triplet>, size: nat)
    ensures AllValid(ranges, size) <==> ranges[..ValidPrefix(ranges, size)] == ranges
  {
    if ValidPrefix(ranges, size) == |ranges| { assert ranges[..|ranges|] == ranges; }
  }

  /** Wherever the expanded ranks are ranks of the group, the two calls agree exactly under this condition. */
  lemma RangeInclAgreesIff(g: Group, ranges: seq<Triplet>, pid: uint32, room: bool)
    requires Strided(ranges) && InRange(ExpandAll(ranges), |g.members|)
    ensures RangeIncl(g, ranges, pid, room) == Incl(g, ExpandAll(ranges), pid, room)
            <==> || g.members == []
                 || (AllValid(ranges, |g.members|) && |ExpandAll(ranges)| <= |g.members| && NoneOverflows(ranges))
  {
    var size := |g.members|;
    RangeInclIsIncl(g, ranges, pid, room);
    AllValidPrefix(ranges, size);
    if g.members == [] {
      if ExpandAll(ranges) != [] { SomeRank(ExpandAll(ranges), size); }
    } else if AllValid(ranges, size) {
      OverflowsIfAny(ranges, size);
    }
  }

  lemma SomeRank(ranks: seq<int>, size: nat)
    requires InRange(ranks, size) && ranks != []
    ensures size > 0
  {
    assert 0 <= ranks[0] < size;
  }

  /** Where they are not, both calls fail. */
  lemma OutOfRangeFails(g: Group, ranges: seq<Triplet>, pid: uint32, room: bool)
    requires Strided(ranges) && g.members != [] && !InRange(ExpandAll(ranges), |g.members|)
    ensures RangeIncl(g, ranges, pid, room).Err? && Incl(g, ExpandAll(ranges), pid, room).Err?
  {
    if Collect(ranges, |g.members|).Ok? {
      CollectedIsValid(ranges, |g.members|);
      ExpandAllInRange(ranges, |g.members|);
    }
  }

  lemma {:induction false} ExpandPrefix(ranges: seq<Triplet>, k: nat)
    requires Strided(ranges) && k <= |ranges|
    ensures ExpandAll(ranges[..k]) <= ExpandAll(ranges)
  {
    if k == |ranges| {
      assert ranges[..k] == ranges;
    } else {
      var n := |ranges| - 1;
      assert ranges[..n][..k] == ranges[..k];
      ExpandPrefix(ranges[..n], k);
    }
  }

  /**
   For the triplets that MPI allows, whose expanded ranks are distinct ranks of the group, the two
   calls agree exactly if the group is empty, or every triplet starts and ends in the group
   and no loop counter overflows. Such a list is never too long.
   */
  lemma DistinctRangesAgree(g: Group, ranges: seq<Triplet>, pid: uint32, room: bool)
    requires Strided(ranges) && InRange(ExpandAll(ranges), |g.members|) && Distinct(ExpandAll(ranges))
    ensures RangeIncl(g, ranges, pid, room) == Incl(g, ExpandAll(ranges), pid, room)
            <==> g.members == [] || (AllValid(ranges, |g.members|) && NoneOverflows(ranges))
    ensures RangeIncl(g, ranges, pid, room) != Err(ErrArg)
  {
    var k := ValidPrefix(ranges, |g.members|);
    RangeInclIsIncl(g, ranges, pid, room);
    RangeInclAgreesIff(g, ranges, pid, room);
    ExpandPrefix(ranges, k);
    Pigeonhole(ExpandAll(ranges), |g.members|);
  }

  /** Valid triplets, of which get_range rejects none. */
  lemma ValidRangesAgree(g: Group, ranges: seq<Triplet>, pid: uint32, room: bool)
    requires g.members != [] && AllValid(ranges, |g.members|) && Distinct(ExpandAll(ranges))
    ensures RangeIncl(g, ranges, pid, room)
            == if NoneOverflows(ranges) then Incl(g, ExpandAll(ranges), pid, room) else Err(Overflow)
  {
    RangeInclIsIncl(g, ranges, pid, room);
    AllValidPrefix(ranges, |g.members|);
    ExpandAllInRange(ranges, |g.members|);
    Pigeonhole(ExpandAll(ranges), |g.members|);
    OverflowsIfAny(ranges, |g.members|);
  }

  /**
   In a group of three, (0, 3, 2) stands for the ranks 0 and 2, and (2, -1, -2) for 2 and 0, but
   get_range rejects both, as 3 and -1 are no ranks.
   */
  lemma LastIsNoRank(g: Group, pid: uint32, room: bool)
    requires |g.members| == 3
    ensures var t := Triplet(0, 3, 2);
            && Expansion(t) == [0, 2] && !Overflows(t) && InRange(Expansion(t), 3) && Distinct(Expansion(t))
            && RangeIncl(g, [t], pid, room) == Err(ErrRank) && Incl(g, [0, 2], pid, true).Ok?
    ensures var t := Triplet(2, -1, -2);
            && Expansion(t) == [2, 0] && !Overflows(t) && InRange(Expansion(t), 3) && Distinct(Expansion(t))
            && RangeIncl(g, [t], pid, room) == Err(ErrRank) && Incl(g, [2, 0], pid, true).Ok?
  {
    var t, u := Triplet(0, 3, 2), Triplet(2, -1, -2);
    assert Expansion(t) == [0, 2] && Expansion(u) == [2, 0];
    InvalidIsRejected(g, t, pid, room);
    InvalidIsRejected(g, u, pid, room);
  }

  lemma InvalidIsRejected(g: Group, t: Triplet, pid: uint32, room: bool)
    requires g.members != [] && !ValidTriplet(t, |g.members|)
    ensures RangeIncl(g, [t], pid, room) == Err(ErrRank)
  {
    assert [t][..0] == [] && [t][0] == t;
    assert Collect([t], |g.members|) == Err(ErrRank);
  }

  /** In a group of three, the valid triplet (1, 2, 2147483647) stands for rank 1 alone, but its loop overflows. */
  lemma ValidRangeOverflows(g: Group, pid: uint32, room: bool)
    requires |g.members| == 3
    ensures var t := Triplet(1, 2, INT_MAX);
            && ValidTriplet(t, 3) && Expansion(t) == [1] && Overflows(t)
            && RangeIncl(g, [t], pid, room) == Err(Overflow) && Incl(g, [1], pid, true).Ok?
  {
    var t := Triplet(1, 2, INT_MAX);
    assert Expansion(t) == [1] && [t][..0] == [];
    assert ExpandAll([t]) == ExpandAll([]) + [1] == [1];
    ValidRangesAgree(g, [t], pid, room);
    assert !NoneOverflows([t]) by { assert Overflows([t][0]); }
  }

  /** One triplet (i, i, 1) per rank. */
  function Singles(ranks: seq<int32>): seq<Triplet> {
    seq(|ranks|, i requires 0 <= i < |ranks| => Triplet(ranks[i], ranks[i], 1))
  }

  lemma {:induction false} SinglesExpand(ranks: seq<int32>)
    ensures ExpandAll(Singles(ranks)) == ranks
  {
    if ranks != [] {
      var n := |ranks| - 1;
      assert Singles(ranks)[..n] == Singles(ranks[..n]);
      SinglesExpand(ranks[..n]);
      assert Expansion(Triplet(ranks[n], ranks[n], 1)) == [ranks[n]];
    }
  }

  lemma SingleEnds(rank: int32)
    requires rank < INT_MAX
    ensures !Overflows(Triplet(rank, rank, 1))
  {
    assert Count(Triplet(rank, rank, 1)) == 1;
  }

  /** group_incl of distinct ranks is group_range_incl with each rank i as the triplet (i, i, 1). */
  lemma InclIsRangeIncl(g: Group, ranks: seq<int32>, pid: uint32, room: bool)
    requires 0 < |g.members| <= INT_MAX && InRange(ranks, |g.members|) && Distinct(ranks)
    ensures RangeIncl(g, Singles(ranks), pid, room) == Incl(g, ranks, pid, room)
  {
    forall i | 0 <= i < |ranks| ensures !Overflows(Singles(ranks)[i]) { SingleEnds(ranks[i]); }
    SinglesExpand(ranks);
    ValidRangesAgree(g, Singles(ranks), pid, room);
  }

  /** Distinct ranks of a group without duplicates give a group without duplicates. */
  lemma InclKeepsDistinct(g: Group, ranks: seq<int>, pid: uint32)
    requires Distinct(g.members) && Distinct(ranks) && Incl(g, ranks, pid, true).Ok?
    ensures Distinct(Incl(g, ranks, pid, true).value.members)
  {
    var members := Incl(g, ranks, pid, true).value.members;
    forall i, j | 0 <= i < j < |members| ensures members[i] != members[j] {
      assert members[i] == g.members[ranks[i]] && members[j] == g.members[ranks[j]];
    }
  }

  /**
   It succeeds exactly for valid triplets that stand for no more ranks than there are members and
   whose loop counters do not overflow, or whatever they are on an empty group.
   */
  lemma RangeInclSucceedsIff(g: Group, ranges: seq<Triplet>, pid: uint32)
    ensures RangeIncl(g, ranges, pid, true).Ok?
            <==> || g.members == []
                 || (AllValid(ranges, |g.members|) && |ExpandAll(ranges)| <= |g.members| && NoneOverflows(ranges))
  {
    var size := |g.members|;
    if size > 0 {
      if Collect(ranges, size).Ok? { CollectedIsValid(ranges, size); }
      if AllValid(ranges, size) {
        CollectIsExpansion(ranges, size);
        OverflowsIfAny(ranges, size);
      }
    }
  }

  /** On an empty group any triplets are accepted, although then no rank is valid for group_incl. */
  lemma EmptyGroupAcceptsAnything(ranges: seq<Triplet>, ranks: seq<int>, pid: uint32, room: bool)
    ensures RangeIncl(EMPTY, ranges, pid, room) == Ok(EMPTY)
    ensures Incl(EMPTY, ranks, pid, true) == Ok(EMPTY) <==> ranks == []
  {
    if ranks != [] { assert !(0 <= ranks[0] < |EMPTY.members|); }
  }

  // ---- union ----

  function NotIn(a: seq<uint32>): uint32 -> bool { x => x !in a }

  /** The first group, then the members of the second that are not in the first. */
  function Union(a: seq<uint32>, b: seq<uint32>): seq<uint32> { a + Filter(b, NotIn(a)) }

  lemma UnionMembers(a: seq<uint32>, b: seq<uint32>, x: uint32)
    ensures x in Union(a, b) <==> x in a || x in b
  {
    FilterMembers(b, NotIn(a));
  }

  /** The union starts with the first group; the rest are the members that only the second has, in its order. */
  lemma UnionOrder(a: seq<uint32>, b: seq<uint32>)
    ensures a <= Union(a, b) && IsSelection(Union(a, b)[|a|..], b, x => x !in a)
  {
    FilterSelects(b, NotIn(a));
    var only: uint32 -> bool := x => x !in a;
    var rest := Filter(b, NotIn(a));
    var at: seq<nat> :| Places(at, b, NotIn(a)) && Picked(rest, at, b);
    assert Places(at, b, only);
    assert Union(a, b)[|a|..] == rest;
  }

  lemma {:induction false} FilterDistinct(s: seq<uint32>, p: uint32 -> bool)
    requires Distinct(s)
    ensures Distinct(Filter(s, p))
  {
    if s != [] {
      FilterDistinct(s[1..], p);
      FilterMembers(s[1..], p);
      var rest := Filter(s[1..], p);
      forall i | 0 <= i < |rest| ensures rest[i] != s[0] { assert rest[i] in s[1..]; }
    }
  }

  /** A union of groups without duplicates has none, and only the second group can bring any in. */
  lemma UnionDistinctIff(a: seq<uint32>, b: seq<uint32>)
    ensures Distinct(Union(a, b)) <==> Distinct(a) && Distinct(Filter(b, NotIn(a)))
    ensures Distinct(a) && Distinct(b) ==> Distinct(Union(a, b))
  {
    var added := Filter(b, NotIn(a));
    FilterMembers(b, NotIn(a));
    var u := Union(a, b);
    if Distinct(b) { FilterDistinct(b, NotIn(a)); }
    if Distinct(a) && Distinct(added) {
      forall i, j | 0 <= i < j < |u| ensures u[i] != u[j] {
        if i < |a| <= j { assert u[j] in added; }
      }
    }
    if Distinct(u) {
      forall i, j | 0 <= i < j < |a| ensures a[i] != a[j] { assert u[i] != u[j]; }
      forall i, j | 0 <= i < j < |added| ensures added[i] != added[j] { assert u[|a| + i] != u[|a| + j]; }
    }
  }

  /** Grouping unions differently gives the same ordered group. */
  lemma UnionAssociative(a: seq<uint32>, b: seq<uint32>, c: seq<uint32>)
    ensures Union(Union(a, b), c) == Union(a, Union(b, c))
  {
    FilterConcat(b, Filter(c, NotIn(b)), NotIn(a));
    assert Filter(Filter(c, NotIn(b)), NotIn(a)) == Filter(c, NotIn(Union(a, b))) by {
      forall x ensures NotIn(Union(a, b))(x) <==> NotIn(b)(x) && NotIn(a)(x) { UnionMembers(a, b, x); }
      FilterBoth(c, NotIn(b), NotIn(a), NotIn(Union(a, b)));
    }
  }

  lemma {:induction false} FilterBoth(s: seq<uint32>, p: uint32 -> bool, q: uint32 -> bool, both: uint32 -> bool)
    requires forall x :: both(x) <==> p(x) && q(x)
    ensures Filter(Filter(s, p), q) == Filter(s, both)
  {
    if s != [] {
      FilterBoth(s[1..], p, q, both);
      FilterConcat(if p(s[0]) then [s[0]] else [], Filter(s[1..], p), q);
    }
  }

  /** What group_union returns, room permitting. */
  function UnionGroup(a: Group, b: Group, pid: uint32): Group {
    var members := Union(a.members, b.members);
    Group(if a.rank != -1 then a.rank else if b.rank != -1 then RankOf(members, pid) else -1, members)
  }

  lemma UnionKeepsRank(a: Group, b: Group, pid: uint32)
    requires RankOk(a, pid) && RankOk(b, pid)
    ensures RankOk(UnionGroup(a, b, pid), pid)
  {
    UnionMembers(a.members, b.members, pid);
  }

  // ---- the operations ----

  /** ranks is what a loop from t.first by t.stride visits while it is within t. */
  ghost predicate Walk(t: Triplet, ranks: seq<int>) {
    && ranks != [] && ranks[0] == t.first
    && (forall k :: 0 <= k < |ranks| ==> Within(t, ranks[k]))
    && (forall k :: 0 < k < |ranks| ==> ranks[k] == ranks[k - 1] + t.stride)
    && !Within(t, ranks[|ranks| - 1] + t.stride)
  }

  lemma ExpansionIsWalk(t: Triplet, size: nat)
    requires ValidTriplet(t, size)
    ensures Walk(t, Expansion(t)) && InRange(Expansion(t), size)
    ensures Overflows(t) <==> t.stride > 0 && Expansion(t)[|Expansion(t)| - 1] + t.stride > INT_MAX
  {
    ExpansionInRange(t, size);
    NthFirst(t);
    forall k: nat | k < Count(t) ensures Within(t, Nth(t, k)) { NthInRange(t, size, k); }
    forall k: nat | 0 < k < Count(t) ensures Nth(t, k) == Nth(t, k - 1) + t.stride { OneMoreStride(t, k - 1); }
    NthInRange(t, size, Count(t));
    OneMoreStride(t, Count(t) - 1);
  }

  lemma RanksOf(t: Triplet, size: nat) returns (ranks: seq<int>)
    requires ValidTriplet(t, size)
    ensures ranks == Expansion(t) && Walk(t, ranks) && InRange(ranks, size)
    ensures Overflows(t) <==> t.stride > 0 && ranks[|ranks| - 1] + t.stride > INT_MAX
  {
    ExpansionIsWalk(t, size);
    ranks := Expansion(t);
  }

  lemma NthFirst(t: Triplet)
    ensures Nth(t, 0) == t.first
  {}

  lemma OneMoreStride(t: Triplet, k: nat)
    ensures Nth(t, k + 1) == Nth(t, k) + t.stride
  {}

  ghost predicate Copied(dst: seq<uint32>, before: seq<uint32>, members: seq<uint32>, ranks: seq<int>, k: nat) {
    && InRange(ranks, |members|) && k <= |ranks| && |before| + k <= |dst|
    && dst[..|before| + k] == before + MembersAt(members, ranks[..k])
  }

  /** What get_range leaves in dst, of which the first entries were before, and what it returns. */
  ghost predicate RangeCopied(r: Result<nat>, dst: seq<uint32>, before: seq<uint32>, members: seq<uint32>,
                              ranks: seq<int>, overflows: bool)
  {
    if |before| + |ranks| > |members| then r == Err(ErrArg)
    else if overflows then r == Err(Overflow)
    else r == Ok(|before| + |ranks|) && Copied(dst, before, members, ranks, |ranks|)
  }

  lemma CopiedNext(dst: seq<uint32>, before: seq<uint32>, members: seq<uint32>, ranks: seq<int>, k: nat)
    requires Copied(dst, before, members, ranks, k) && k < |ranks| && |before| + k < |dst|
    ensures Copied(dst[|before| + k := members[ranks[k]]], before, members, ranks, k + 1)
  {
    var dst' := dst[|before| + k := members[ranks[k]]];
    assert MembersAt(members, ranks[..k + 1]) == MembersAt(members, ranks[..k]) + [members[ranks[k]]];
    assert dst'[..|before| + k + 1] == dst[..|before| + k] + [members[ranks[k]]];
  }

  // The two loops of get_range: the range is copied to dst from next on. Their counter is an int; C
  // says nothing about what follows a step beyond its range, and the model ends there.

  method ForwardRange(members: seq<uint32>, dst: array<uint32>, next: nat, t: Triplet, ghost ranks: seq<int>)
    returns (r: Result<nat>)
    requires next <= dst.Length == |members| && t.stride > 0
    requires Walk(t, ranks) && InRange(ranks, |members|) && 0 <= t.last < |members|
    modifies dst
    ensures RangeCopied(r, dst[..], old(dst[..next]), members, ranks, ranks[|ranks| - 1] + t.stride > INT_MAX)
  {
    var index, i: int32 := next, t.first;
    ghost var k := 0;
    ghost var before := dst[..next];
    while i < |members| && i <= t.last
      invariant k <= |ranks| && index == next + k <= |members|
      invariant i == if k < |ranks| then ranks[k] else ranks[|ranks| - 1] + t.stride
      invariant Copied(dst[..], before, members, ranks, k)
      decreases |ranks| - k
    {
      if index >= |members| { return Err(ErrArg); }
      CopiedNext(dst[..], before, members, ranks, k);
      dst[index] := members[i];
      index := index + 1;
      k := k + 1;
      assert k < |ranks| ==> Within(t, ranks[k]);
      if i + t.stride > INT_MAX { return Err(Overflow); }
      i := i + t.stride;
    }
    return Ok(index);
  }

  method BackwardRange(members: seq<uint32>, dst: array<uint32>, next: nat, t: Triplet, ghost ranks: seq<int>)
    returns (r: Result<nat>)
    requires next <= dst.Length == |members| && t.stride < 0
    requires Walk(t, ranks) && InRange(ranks, |members|) && 0 <= t.last < |members|
    modifies dst
    ensures RangeCopied(r, dst[..], old(dst[..next]), members, ranks, false)
  {
    var index, i: int32 := next, t.first;
    ghost var k := 0;
    ghost var before := dst[..next];
    while i >= 0 && i >= t.last
      invariant k <= |ranks| && index == next + k <= |members|
      invariant i == if k < |ranks| then ranks[k] else ranks[|ranks| - 1] + t.stride
      invariant Copied(dst[..], before, members, ranks, k)
      decreases |ranks| - k
    {
      if index >= |members| { return Err(ErrArg); }
      CopiedNext(dst[..], before, members, ranks, k);
      dst[index] := members[i];
      index := index + 1;
      i := i + t.stride;
      k := k + 1;
    }
    return Ok(index);
  }

  /** get_range: appends the members of one range to the next entries of dst. */
  method GetRange(members: seq<uint32>, dst: array<uint32>, next: nat, t: Triplet) returns (r: Result<nat>)
    requires next <= dst.Length == |members|
    modifies dst
    ensures !ValidTriplet(t, |members|) ==> r == Err(ErrRank)
    ensures ValidTriplet(t, |members|) ==>
              RangeCopied(r, dst[..], old(dst[..next]), members, Expansion(t), Overflows(t))
  {
    var size := |members|;
    if t.stride == 0 || t.first < 0 || t.first >= size || t.last < 0 || t.last >= size {
      return Err(ErrRank);
    }
    ghost var ranks;
    if t.first <= t.last && t.stride > 0 {
      ranks := RanksOf(t, size);
      r := ForwardRange(members, dst, next, t, ranks);
    } else if t.last <= t.first && t.stride < 0 {
      ranks := RanksOf(t, size);
      r := BackwardRange(members, dst, next, t, ranks);
    } else {
      return Err(ErrRank);
    }
  }

  lemma {:induction false} ErrorsStay(ranges: seq<Triplet>, size: nat, i: nat)
    requires i <= |ranges| && Collect(ranges[..i], size).Err?
    ensures Collect(ranges, size) == Collect(ranges[..i], size)
    decreases |ranges| - i
  {
    if i == |ranges| {
      assert ranges[..i] == ranges;
    } else {
      assert ranges[..i + 1][..i] == ranges[..i];
      ErrorsStay(ranges, size, i + 1);
    }
  }

  lemma RankOfNext(members: seq<uint32>, x: uint32, pid: uint32)
    ensures RankOf(members + [x], pid) == if x == pid then |members| else RankOf(members, pid)
  {
    assert (members + [x])[..|members|] == members;
  }

  /** The loop of group_incl. */
  method SelectMembers(g: Group, ranks: seq<int>, pid: uint32) returns (r: Result<Group>)
    ensures r == Incl(g, ranks, pid, true)
  {
    var n := |ranks|;
    var members := new uint32[n];
    var rank := -1;
    for i := 0 to n
      invariant InRange(ranks[..i], |g.members|) && members[..i] == MembersAt(g.members, ranks[..i])
      invariant rank == RankOf(members[..i], pid)
    {
      var k := ranks[i];
      if k < 0 || k >= |g.members| { return Err(ErrRank); }
      members[i] := g.members[k];
      RankOfNext(members[..i], members[i], pid);
      assert members[..i + 1] == members[..i] + [members[i]];
      if members[i] == pid { rank := i; }
    }
    assert members[..n] == members[..] && ranks[..n] == ranks;
    return Ok(Group(rank, members[..]));
  }

  /** The loop of group_range_incl over the ranges, and the number of entries it fills. */
  method CollectRanges(members: seq<uint32>, ranges: seq<Triplet>, tmp: array<uint32>) returns (r: Result<nat>)
    requires tmp.Length == |members|
    modifies tmp
    ensures var c := Collect(ranges, |members|);
            if c.Err? then r == Err(c.error)
            else r == Ok(|c.value|) && Copied(tmp[..], [], members, c.value, |c.value|)
  {
    var next: nat := 0;
    for i := 0 to |ranges|
      invariant CollectedSoFar(members, ranges, i, tmp[..], next)
    {
      r := CollectOne(members, ranges, tmp, i, next);
      if r.Err? { return; }
      next := r.value;
    }
    assert ranges[..|ranges|] == ranges;
    return Ok(next);
  }

  /** Its body. */
  method CollectOne(members: seq<uint32>, ranges: seq<Triplet>, tmp: array<uint32>, i: nat, next: nat)
    returns (r: Result<nat>)
    requires tmp.Length == |members| && i < |ranges| && CollectedSoFar(members, ranges, i, tmp[..], next)
    modifies tmp
    ensures r.Err? ==> Collect(ranges, |members|) == Err(r.error)
    ensures r.Ok? ==> CollectedSoFar(members, ranges, i + 1, tmp[..], r.value)
  {
    ghost var dst := tmp[..];
    assert tmp[..next] == dst[..next];
    CollectNext(ranges, |members|, i);
    r := GetRange(members, tmp, next, ranges[i]);
    if r.Err? {
      ErrorsStay(ranges, |members|, i + 1);
      return;
    }
    CollectedNext(members, ranges, i, dst, next, tmp[..]);
  }

  method RangesOf(members: seq<uint32>, ranges: seq<Triplet>) returns (r: Result<seq<uint32>>)
    ensures r == RangeMembers(members, ranges)
  {
    var tmp := new uint32[|members|];
    var collected := CollectRanges(members, ranges, tmp);
    if collected.Err? { return Err(collected.error); }
    ghost var ranks := Collect(ranges, |members|).value;
    assert ranks[..|ranks|] == ranks && tmp[..][..|ranks|] == tmp[..|ranks|];
    assert [] + MembersAt(members, ranks) == MembersAt(members, ranks);
    return Ok(tmp[..collected.value]);
  }

  ghost predicate CollectedSoFar(members: seq<uint32>, ranges: seq<Triplet>, i: nat, dst: seq<uint32>, next: nat) {
    && i <= |ranges| && Collect(ranges[..i], |members|).Ok?
    && next == |Collect(ranges[..i], |members|).value| <= |members|
    && Copied(dst, [], members, Collect(ranges[..i], |members|).value, next)
  }

  lemma CollectedNext(members: seq<uint32>, ranges: seq<Triplet>, i: nat, dst: seq<uint32>, next: nat,
                      dst': seq<uint32>)
    requires i < |ranges| && CollectedSoFar(members, ranges, i, dst, next) && next <= |dst|
    requires ValidTriplet(ranges[i], |members|)
    requires var ranks, t := Collect(ranges[..i], |members|).value, ranges[i];
             && next + |Expansion(t)| <= |members| && !Overflows(t)
             && Copied(dst', dst[..next], members, Expansion(t), |Expansion(t)|)
    ensures CollectedSoFar(members, ranges, i + 1, dst', next + |Expansion(ranges[i])|)
  {
    var ranks := Collect(ranges[..i], |members|).value;
    CollectNext(ranges, |members|, i);
    CopiedMore(dst, members, ranks, dst', Expansion(ranges[i]));
  }

  lemma CollectNext(ranges: seq<Triplet>, size: nat, i: nat)
    requires i < |ranges| && Collect(ranges[..i], size).Ok?
    ensures var ranks, t := Collect(ranges[..i], size).value, ranges[i];
            Collect(ranges[..i + 1], size)
            == if !ValidTriplet(t, size) then Err(ErrRank) else Appended(ranks, t, size)
  {
    assert ranges[..i + 1][..i] == ranges[..i];
  }

  lemma CopiedMore(dst: seq<uint32>, members: seq<uint32>, ranks: seq<int>, dst': seq<uint32>, more: seq<int>)
    requires Copied(dst, [], members, ranks, |ranks|)
    requires Copied(dst', dst[..|ranks|], members, more, |more|)
    ensures Copied(dst', [], members, ranks + more, |ranks + more|)
  {
    assert ranks[..|ranks|] == ranks && more[..|more|] == more && (ranks + more)[..|ranks + more|] == ranks + more;
    MembersAtConcat(members, ranks, more);
  }

  lemma MembersAtConcat(members: seq<uint32>, ranks: seq<int>, more: seq<int>)
    requires InRange(ranks, |members|) && InRange(more, |members|)
    ensures InRange(ranks + more, |members|)
    ensures MembersAt(members, ranks + more) == MembersAt(members, ranks) + MembersAt(members, more)
  {}

  /** The loop that looks for the own process among the members. */
  method LastPosition(members: seq<uint32>, pid: uint32) returns (rank: int)
    ensures rank == RankOf(members, pid)
  {
    rank := -1;
    for i := 0 to |members|
      invariant rank == RankOf(members[..i], pid)
    {
      RankOfNext(members[..i], members[i], pid);
      assert members[..i + 1] == members[..i] + [members[i]];
      if members[i] == pid { rank := i; }
    }
    assert members[..|members|] == members;
  }

  /** The loops of group_union; added is the last position of pid among the members added from b, or -1. */
  method UniteMembers(a: seq<uint32>, b: seq<uint32>, pid: uint32) returns (members: seq<uint32>, added: int)
    ensures members == Union(a, b)
    ensures pid !in a ==> added == RankOf(members, pid)
  {
    var buffer := new uint32[|a| + |b|];
    var index := 0;
    for i := 0 to |a|
      invariant index == i && buffer[..i] == a[..i]
    {
      buffer[index] := a[i];
      index := index + 1;
    }
    assert a[..|a|] == a;
    index, added := AddOthers(a, b, pid, buffer);
    return buffer[..index], added;
  }

  method AddOthers(a: seq<uint32>, b: seq<uint32>, pid: uint32, buffer: array<uint32>) returns (index: nat, added: int)
    requires buffer.Length == |a| + |b| && buffer[..|a|] == a
    modifies buffer
    ensures index <= buffer.Length && buffer[..index] == Union(a, b)
    ensures pid !in a ==> added == RankOf(buffer[..index], pid)
  {
    index, added := |a|, -1;
    NotAmong(a, pid);
    assert Filter(b[..0], NotIn(a)) == [];
    ghost var members := a;
    for i := 0 to |b|
      invariant index == |members| <= |a| + i && members == buffer[..index]
      invariant AddedSoFar(a, b, pid, i, members, added)
    {
      var current := b[i];
      var found := Contains(a, current);
      AddedNext(a, b, pid, i, members, added);
      if !found {
        if current == pid { added := index; }
        buffer[index] := current;
        index := index + 1;
        members := members + [current];
      }
    }
    assert b[..|b|] == b;
  }

  ghost predicate AddedSoFar(a: seq<uint32>, b: seq<uint32>, pid: uint32, i: nat, members: seq<uint32>, added: int) {
    && i <= |b| && members == a + Filter(b[..i], NotIn(a))
    && (pid !in a ==> added == RankOf(members, pid))
  }

  lemma AddedNext(a: seq<uint32>, b: seq<uint32>, pid: uint32, i: nat, members: seq<uint32>, added: int)
    requires i < |b| && AddedSoFar(a, b, pid, i, members, added)
    ensures if b[i] in a then AddedSoFar(a, b, pid, i + 1, members, added)
            else AddedSoFar(a, b, pid, i + 1, members + [b[i]], if b[i] == pid then |members| else added)
  {
    UnionNext(a, b, i);
    var others := Filter(b[..i], NotIn(a));
    if b[i] in a {
      assert others + [] == others;
    } else {
      assert a + (others + [b[i]]) == a + others + [b[i]];
      RankOfNext(members, b[i], pid);
    }
  }

  lemma UnionNext(a: seq<uint32>, b: seq<uint32>, i: nat)
    requires i < |b|
    ensures Filter(b[..i + 1], NotIn(a)) == Filter(b[..i], NotIn(a)) + if b[i] in a then [] else [b[i]]
  {
    FilterSnoc(b[..i], b[i], NotIn(a));
    assert b[..i + 1] == b[..i] + [b[i]];
  }

  method Contains(s: seq<uint32>, x: uint32) returns (found: bool)
    ensures found <==> x in s
  {
    found := false;
    for j := 0 to |s|
      invariant found <==> x in s[..j]
    {
      if x == s[j] {
        found := true;
        break;
      }
    }
  }

  lemma {:induction false} NotAmong(members: seq<uint32>, pid: uint32)
    ensures pid !in members ==> RankOf(members, pid) == -1
  {
    if members != [] { NotAmong(members[..|members| - 1], pid); }
  }

  /** The table of groups, and the identity of this process. */
  class GroupTable {
    const pid: uint32
    var slots: seq<Option<Group>>
    var next: nat

    ghost predicate Valid() reads this {
      && |slots| == MAX_GROUPS && 2 <= next <= MAX_GROUPS && slots[HANDLE_EMPTY] == Some(EMPTY)
      && forall h :: 0 <= h < |slots| && slots[h].Some? ==> RankOk(slots[h].value, pid) && h < next
    }

    predicate Room() reads this { next < MAX_GROUPS }

    constructor (pid: uint32)
      ensures Valid() && this.pid == pid && next == 2
    {
      this.pid := pid;
      slots := seq(MAX_GROUPS, i => if i == HANDLE_EMPTY then Some(EMPTY) else None);
      next := 2;
    }

    /** create_group and add_group; the members of a new group are filled in later. */
    method CreateGroup(members: int) returns (handle: Option<nat>)
      requires Valid()
      modifies this
      ensures Valid()
      ensures members < 0 || (members > 0 && !old(Room())) ==>
                handle == None && slots == old(slots) && next == old(next)
      ensures members == 0 ==> handle == Some(HANDLE_EMPTY) && slots == old(slots) && next == old(next)
      ensures members > 0 && old(Room()) ==>
                handle == Some(old(next)) && slots == old(slots)[old(next) := Some(EMPTY)] && next == old(next) + 1
    {
      if members < 0 { return None; }
      if members == 0 { return Some(HANDLE_EMPTY); }
      if next >= MAX_GROUPS { return None; }
      slots := slots[next := Some(EMPTY)];
      next := next + 1;
      return Some(next - 1);
    }

    /** delete_group: gives up the group, but not its place in the table. */
    method DeleteGroup(handle: nat)
      requires Valid() && handle < next
      modifies this
      ensures Valid() && next == old(next)
      ensures slots == if handle == HANDLE_EMPTY then old(slots) else old(slots)[handle := None]
    {
      if handle == HANDLE_EMPTY { return; }
      slots := slots[handle := None];
    }

    /** Sets the fields of a group. */
    method Fill(handle: nat, g: Group)
      requires Valid() && handle < next && RankOk(g, pid) && (handle == HANDLE_EMPTY ==> g == EMPTY)
      modifies this
      ensures Valid() && next == old(next) && slots == old(slots)[handle := Some(g)]
    {
      slots := slots[handle := Some(g)];
    }

    /** What a call leaves behind: a group that succeeds takes a slot, and one that fails late loses it. */
    twostate predicate Recorded(size: int, r: Result<Group>, late: bool)
      reads this
      requires old(Valid())
    {
      if size <= 0 || !old(Room()) || (r.Err? && !late) then slots == old(slots) && next == old(next)
      else slots == old(slots)[old(next) := if r.Ok? then Some(r.value) else None] && next == old(next) + 1
    }

    /** group_incl */
    method Include(g: Group, n: int, ranks: seq<int>) returns (r: Result<Group>)
      requires Valid() && n <= |ranks|
      modifies this
      ensures Valid()
      ensures r == if n < 0 then Err(ErrIntern) else Incl(g, ranks[..n], pid, old(Room()))
      ensures Recorded(n, r, true)
    {
      var handle := CreateGroup(n);
      if handle == None { return Err(ErrIntern); }
      r := SelectMembers(g, ranks[..n], pid);
      if r.Err? {
        DeleteGroup(handle.value);
      } else {
        Fill(handle.value, r.value);
      }
    }

    /** group_range_incl */
    method RangeInclude(g: Group, ranges: seq<Triplet>) returns (r: Result<Group>)
      requires Valid()
      modifies this
      ensures Valid()
      ensures r == RangeIncl(g, ranges, pid, old(Room()))
      ensures Recorded(if r.Ok? then |r.value.members| else 0, r, false)
    {
      if |g.members| == 0 {
        return Ok(slots[HANDLE_EMPTY].value);
      }
      var collected := RangesOf(g.members, ranges);
      if collected.Err? { return Err(collected.error); }
      var members := collected.value;
      var handle := CreateGroup(|members|);
      if handle == None { return Err(ErrIntern); }
      var rank := LastPosition(members, pid);
      Fill(handle.value, Group(rank, members));
      return Ok(Group(rank, members));
    }

    /** group_union */
    method Unite(a: Group, b: Group) returns (r: Result<Group>)
      requires Valid() && RankOk(a, pid) && RankOk(b, pid)
      modifies this
      ensures Valid()
      ensures r == if Union(a.members, b.members) != [] && !old(Room()) then Err(ErrIntern)
                   else Ok(UnionGroup(a, b, pid))
      ensures Recorded(if r.Ok? then |r.value.members| else 0, r, false)
    {
      var members, added := UniteMembers(a.members, b.members, pid);
      var handle := CreateGroup(|members|);
      if handle == None { return Err(ErrIntern); }
      var rank;
      if a.rank != -1 {
        rank := a.rank;
      } else if b.rank != -1 {
        rank := added;
      } else {
        rank := -1;
      }
      UnionKeepsRank(a, b, pid);
      Fill(handle.value, Group(rank, members));
      return Ok(Group(rank, members));
    }
  }
}
