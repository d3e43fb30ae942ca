/**
 Process identities: 32-bit PIDs built from a cluster rank and a process rank, and the
 numbering of the processes of the world communicator.
 */
module Ranks {
  import opened Messages

  const MAX_CLUSTERS := 256
  const MAX_PROCESSES_PER_CLUSTER := 0x100_0000
  const SERVER_PID: uint32 := 0xFFFF_FFFF

  // The macros mask, shift and or; here they are remainders, products and sums.

  function SetPid(cluster: nat, rank: nat): uint32 {
    cluster % MAX_CLUSTERS * MAX_PROCESSES_PER_CLUSTER + rank % MAX_PROCESSES_PER_CLUSTER
  }

  function GetClusterRank(pid: uint32): nat { pid / MAX_PROCESSES_PER_CLUSTER }

  function GetProcessRank(pid: uint32): nat { pid % MAX_PROCESSES_PER_CLUSTER }

  // The macros, on 32-bit words.

  lemma JoinFields(cluster: bv32, rank: bv32)
    ensures (((cluster & 0xFF) << 24) | (rank & 0xFF_FFFF)) as nat
            == (cluster & 0xFF) as nat * 0x100_0000 + (rank & 0xFF_FFFF) as nat
  {}

  lemma SplitFields(pid: bv32)
    ensures pid as nat == (pid >> 24) as nat * 0x100_0000 + (pid & 0xFF_FFFF) as nat
    ensures (pid & 0xFF00_0000) >> 24 == pid >> 24
  {}

  lemma Filled(x: bv32)
    ensures (0xFF00_0000 | (x & 0xFF_FFFF)) as nat == 0xFF00_0000 + (x & 0xFF_FFFF) as nat
  {}

  lemma Below(x: bv32)
    ensures x as nat < 0x1_0000_0000
  {}

  lemma Low24(x: bv32)
    ensures (x & 0xFF_FFFF) as nat < 0x100_0000
  {
    Filled(x);
    Below(0xFF00_0000 | (x & 0xFF_FFFF));
  }

  lemma Low8(x: bv32)
    ensures (x & 0xFF) as nat < 0x100
  {}

  lemma JoinByte(high: bv32, low: bv32, x: bv32)
    requires x == ((high & 0xFF_FFFF) << 8) | (low & 0xFF)
    ensures x as nat == (high & 0xFF_FFFF) as nat * 0x100 + (low & 0xFF) as nat
  {}

  lemma LastByte(x: bv32, y: bv32)
    requires y == x >> 8
    ensures x == ((y & 0xFF_FFFF) << 8) | (x & 0xFF)
  {}

  lemma SplitByte(x: bv32, y: bv32)
    requires y == x >> 8
    ensures x as nat == (y & 0xFF_FFFF) as nat * 0x100 + (x & 0xFF) as nat
  {
    LastByte(x, y);
    JoinByte(y, x, x);
  }

  lemma Remainders(x: nat, q: nat, r: nat)
    ensures x == q * 0x100 + r && r < 0x100 ==> x % 0x100 == r
    ensures x == q * 0x100_0000 + r && r < 0x100_0000 ==> x % 0x100_0000 == r && x / 0x100_0000 == q
  {}

  lemma SetPidParts(cluster: nat, rank: nat, high: nat, low: nat, top: nat, rest: nat)
    requires cluster == high * 0x100 + low && low < 0x100
    requires rank == top * 0x100_0000 + rest && rest < 0x100_0000
    ensures SetPid(cluster, rank) == low * 0x100_0000 + rest
  {
    Remainders(cluster, high, low);
    Remainders(rank, top, rest);
  }

  lemma ClusterByte(cluster: bv32, shifted: bv32) returns (high: nat)
    requires shifted == cluster >> 8
    ensures cluster as nat == high * 0x100 + (cluster & 0xFF) as nat && (cluster & 0xFF) as nat < 0x100
  {
    high := (shifted & 0xFF_FFFF) as nat;
    SplitByte(cluster, shifted);
    Low8(cluster);
  }

  lemma RankBits(rank: bv32) returns (top: nat)
    ensures rank as nat == top * 0x100_0000 + (rank & 0xFF_FFFF) as nat && (rank & 0xFF_FFFF) as nat < 0x100_0000
  {
    top := (rank >> 24) as nat;
    SplitFields(rank);
    Low24(rank);
  }

  /** SET_PID */
  lemma SetPidBits(cluster: bv32, rank: bv32)
    ensures SetPid(cluster as nat, rank as nat) == (((cluster & 0xFF) << 24) | (rank & 0xFF_FFFF)) as nat
  {
    JoinFields(cluster, rank);
    var high := ClusterByte(cluster, cluster >> 8);
    var top := RankBits(rank);
    SetPidParts(cluster as nat, rank as nat, high, (cluster & 0xFF) as nat, top, (rank & 0xFF_FFFF) as nat);
  }

  /** GET_CLUSTER_RANK and GET_PROCESS_RANK */
  lemma GetRankBits(pid: bv32)
    ensures GetClusterRank(pid as nat) == ((pid & 0xFF00_0000) >> 24) as nat
    ensures GetProcessRank(pid as nat) == (pid & 0xFF_FFFF) as nat
  {
    SplitFields(pid);
    Low24(pid);
    Remainders(pid as nat, (pid >> 24) as nat, (pid & 0xFF_FFFF) as nat);
  }
}
