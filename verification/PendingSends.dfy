/**
 The list of MPI sends a gateway has started and not yet seen complete. A message buffer
 stays allocated for as long as MPI may read it, and is freed once.
 */
module PendingSends {
  import opened Common
  import opened Messages
  import opened MessageQueue
  import opened Ranks

  class Send {
    const message: Frame
    var next: Send?
    ghost var frees: nat  // how often the buffer has been freed

    constructor (message: Frame, next: Send?)
      ensures this.message == message && this.next == next && frees == 0
    {
      this.message, this.next, this.frees := message, next, 0;
    }
  }

  /** The elements of s whose flag is b, in order. */
  ghost function Select<T>(s: seq<T>, flags: seq<bool>, b: bool): seq<T>
    requires |flags| == |s|
  {
    if s == [] then []
    else Select(s[..|s| - 1], flags[..|s| - 1], b) + (if flags[|s| - 1] == b then [s[|s| - 1]] else [])
  }

  lemma {:induction false} SelectPartitions<T>(s: seq<T>, flags: seq<bool>)
    requires |flags| == |s|
    ensures multiset(Select(s, flags, true)) + multiset(Select(s, flags, false)) == multiset(s)
  {
    if s != [] {
      var n := |s| - 1;
      SelectPartitions(s[..n], flags[..n]);
      assert s == s[..n] + [s[n]];
    }
  }

  /** What is selected is what has that flag. */
  lemma {:induction false} SelectMembers<T>(s: seq<T>, flags: seq<bool>, b: bool)
    requires |flags| == |s|
    ensures forall i :: 0 <= i < |s| && flags[i] == b ==> s[i] in Select(s, flags, b)
    ensures forall x :: x in Select(s, flags, b) ==> exists i :: 0 <= i < |s| && flags[i] == b && s[i] == x
  {
    if s != [] {
      var n := |s| - 1;
      SelectMembers(s[..n], flags[..n], b);
      forall x | x in Select(s, flags, b) ensures exists i :: 0 <= i < |s| && flags[i] == b && s[i] == x {
        if x in Select(s[..n], flags[..n], b) {
          var i :| 0 <= i < n && flags[..n][i] == b && s[..n][i] == x;
          assert flags[i] == b && s[i] == x;
        } else {
          assert flags[n] == b && s[n] == x;
        }
      }
      forall i | 0 <= i < |s| && flags[i] == b ensures s[i] in Select(s, flags, b) {
        if i < n { assert flags[..n][i] == b && s[..n][i] == s[i]; }
      }
    }
  }

  lemma SelectNext<T>(s: seq<T>, flags: seq<bool>, k: nat, flag: bool, b: bool)
    requires |flags| == k < |s|
    ensures Select(s[..k + 1], flags + [flag], b) == Select(s[..k], flags, b) + (if flag == b then [s[k]] else [])
  {
    assert s[..k + 1][..k] == s[..k] && (flags + [flag])[..k] == flags;
  }

  /** Of all, the first |done| have been polled: the k that stay are in front, the rest behind. */
  ghost predicate Polled<T>(all: seq<T>, done: seq<bool>, spine: seq<T>, k: nat) {
    && |done| <= |all| && k <= |spine|
    && spine[..k] == Select(all[..|done|], done, false) && spine[k..] == all[|done|..]
  }

  lemma PolledNext<T>(all: seq<T>, done: seq<bool>, spine: seq<T>, k: nat)
    requires Polled(all, done, spine, k) && k < |spine|
    ensures |done| < |all| && spine[k] == all[|done|]
    ensures Polled(all, done + [false], spine, k + 1)
  {
    assert spine[k] == spine[k..][0] == all[|done|];
    SelectNext(all, done, |done|, false, false);
    assert spine[k + 1..] == spine[k..][1..] && all[|done| + 1..] == all[|done|..][1..];
    assert spine[..k + 1] == spine[..k] + [spine[k]];
  }

  lemma PolledDrop<T>(all: seq<T>, done: seq<bool>, spine: seq<T>, k: nat, spine': seq<T>)
    requires Polled(all, done, spine, k) && k < |spine| == |spine'| + 1
    requires spine'[..k] == spine[..k] && spine'[k..] == spine[k + 1..]
    ensures Polled(all, done + [true], spine', k)
  {
    assert spine[k] == spine[k..][0] == all[|done|];
    SelectNext(all, done, |done|, true, false);
    assert spine[k + 1..] == spine[k..][1..] && all[|done| + 1..] == all[|done|..][1..];
  }

  lemma AllPolled<T>(all: seq<T>, done: seq<bool>, spine: seq<T>, k: nat)
    requires Polled(all, done, spine, k) && k == |spine|
    ensures |done| == |all| && spine == Select(all, done, false)
  {
    assert spine[..k] == spine && |spine[k..]| == 0;
    assert all[..|all|] == all;
  }

  ghost predicate Linked(first: Send?, spine: seq<Send>)
    reads spine
  {
    && first == (if spine == [] then null else spine[0])
    && forall i {:trigger spine[i].next} :: 0 <= i < |spine| ==>
         spine[i].next == if i + 1 < |spine| then spine[i + 1] else null
  }

  ghost function Buffers(s: seq<Send>): seq<Frame> { seq(|s|, i requires 0 <= i < |s| => s[i].message) }

  ghost function Reversed<T>(s: seq<T>): seq<T> {
    if s == [] then [] else [s[|s| - 1]] + Reversed(s[..|s| - 1])
  }

  /** The first k elements of s, the last of them first, and then rest. */
  ghost function InFront<T>(s: seq<T>, k: nat, rest: seq<T>): seq<T>
    requires k <= |s|
  {
    Reversed(s[..k]) + rest
  }

  lemma InFrontNone<T>(s: seq<T>, rest: seq<T>)
    ensures InFront(s, 0, rest) == rest
  {}

  lemma InFrontNext<T>(s: seq<T>, k: nat, rest: seq<T>)
    requires k < |s|
    ensures InFront(s, k + 1, rest) == [s[k]] + InFront(s, k, rest)
  {
    assert s[..k + 1][..k] == s[..k];
    assert [s[k]] + Reversed(s[..k]) + rest == [s[k]] + (Reversed(s[..k]) + rest);
  }

  ghost predicate AllHeaded(ms: seq<Frame>) { forall i :: 0 <= i < |ms| ==> |ms[i]| >= HEADER_SIZE }

  class SendList {
    var first: Send?
    ghost var spine: seq<Send>   // the pending sends, most recent first

    ghost predicate Valid()
      reads this, spine
    {
      && Linked(first, spine)
      && Distinct(spine)
      && forall n :: n in spine ==> n.frees == 0
    }

    constructor ()
      ensures Valid() && spine == []
    {
      first, spine := null, [];
    }

    /** Starts a send to the process the message names; refused when that is not in this cluster. */
    method ForwardMpiMessage(m: Frame, clusterRank: nat) returns (ok: bool)
      requires Valid() && |m| >= HEADER_SIZE
      modifies this
      ensures Valid() && (ok <==> GetClusterRank(DstPid(m)) == clusterRank)
      ensures !ok ==> spine == old(spine)
      ensures ok ==> spine != [] && fresh(spine[0]) && spine[1..] == old(spine)
      ensures ok ==> Buffers(spine) == [m] + Buffers(old(spine))
    {
      if GetClusterRank(DstPid(m)) != clusterRank { return false; }
      var send := new Send(m, first);
      first := send;
      spine := [send] + spine;
      return true;
    }

    /**
     Starts sends for everything on the incoming queue, in queue order; stops at a message
     for another cluster. The list is most recent first, so it receives them in reverse.
     */
    method ForwardDataMessages(incoming: Queue<Frame>, clusterRank: nat) returns (ok: bool, ghost started: nat)
      requires Valid() && incoming.Valid()
      requires AllHeaded(incoming.Contents())
      modifies this, incoming
      ensures Valid() && incoming.Valid() && started <= |old(incoming.Contents())|
      ensures Buffers(spine) == InFront(old(incoming.Contents()), started, Buffers(old(spine)))
      ensures ok <==> started == |old(incoming.Contents())|
      ensures ok ==> incoming.Contents() == []
      ensures !ok ==> GetClusterRank(DstPid(old(incoming.Contents())[started])) != clusterRank
    {
      ghost var all, earlier := incoming.Contents(), Buffers(spine);
      started, ok := 0, true;
      var m := incoming.Dequeue();
      InFrontNone(all, earlier);
      while m != None
        invariant ok && Forwarding(all, started, earlier, m, incoming)
        decreases |all| - started
      {
        assert |all[started]| >= HEADER_SIZE;
        ok, m := ForwardNext(all, started, earlier, m.value, incoming, clusterRank);
        if !ok { return; }
        started := started + 1;
      }
    }

    /** The state of the loop: k messages of all have been forwarded, and the next has been taken off. */
    ghost predicate Forwarding(all: seq<Frame>, k: nat, earlier: seq<Frame>, m: Option<Frame>, incoming: Queue<Frame>)
      reads this, spine, incoming, incoming.spine
    {
      && Valid() && incoming.Valid() && TakenOff(all, k, m, incoming.Contents())
      && Buffers(spine) == InFront(all, k, earlier)
    }

    /** One turn of the loop. */
    method ForwardNext(ghost all: seq<Frame>, ghost k: nat, ghost earlier: seq<Frame>, m: Frame,
                       incoming: Queue<Frame>, clusterRank: nat) returns (ok: bool, next: Option<Frame>)
      requires Forwarding(all, k, earlier, Some(m), incoming) && |m| >= HEADER_SIZE
      modifies this, incoming
      ensures k < |all| && m == all[k] && (ok <==> GetClusterRank(DstPid(m)) == clusterRank)
      ensures if ok then Forwarding(all, k + 1, earlier, next, incoming)
              else Valid() && incoming.Valid() && Buffers(spine) == InFront(all, k, earlier)
    {
      ghost var waiting := incoming.Contents();
      ok, next := ForwardOne(m, incoming, clusterRank);
      if ok { TakenOffNext(all, k, Some(m), waiting, next, incoming.Contents()); }
      InFrontNext(all, k, earlier);
    }

    /** The first k messages of the queue have been dealt with, and the next has been taken off. */
    static ghost predicate TakenOff(all: seq<Frame>, k: nat, m: Option<Frame>, rest: seq<Frame>) {
      && k <= |all|
      && m == (if k < |all| then Some(all[k]) else None)
      && rest == if k < |all| then all[k + 1..] else []
    }

    static ghost predicate FrontTaken(before: seq<Frame>, m: Option<Frame>, rest: seq<Frame>) {
      if before == [] then m == None && rest == [] else m == Some(before[0]) && rest == before[1..]
    }

    static lemma TakenOffNext(all: seq<Frame>, k: nat, m: Option<Frame>, before: seq<Frame>,
                              next: Option<Frame>, rest: seq<Frame>)
      requires k < |all| && TakenOff(all, k, m, before) && FrontTaken(before, next, rest)
      ensures TakenOff(all, k + 1, next, rest)
    {}

    /** Forwards m, then takes the next message off the queue. */
    method ForwardOne(m: Frame, incoming: Queue<Frame>, clusterRank: nat) returns (ok: bool, next: Option<Frame>)
      requires Valid() && incoming.Valid() && |m| >= HEADER_SIZE
      modifies this, incoming
      ensures Valid() && incoming.Valid() && (ok <==> GetClusterRank(DstPid(m)) == clusterRank)
      ensures Buffers(spine) == if ok then [m] + Buffers(old(spine)) else Buffers(old(spine))
      ensures ok ==> FrontTaken(old(incoming.Contents()), next, incoming.Contents())
    {
      ok := ForwardMpiMessage(m, clusterRank);
      next := None;
      if ok { next := incoming.Dequeue(); }
    }

    /**
     Polls every pending send once; answers tells what MPI says of each, in list order. The
     completed ones are unlinked and freed once, the others stay, in order and unfreed.
     */
    method PollRequests(answers: seq<bool>)
      requires Valid() && |answers| == |spine|
      modifies this, spine
      ensures Valid() && spine == Select(old(spine), answers, false)
      ensures forall i :: 0 <= i < |answers| ==> old(spine)[i].frees == if answers[i] then 1 else 0
    {
      ghost var all, k: nat, done: seq<bool> := spine, 0, [];
      var polled := 0;
      var prev, curr: Send? := null, first;
      while curr != null
        invariant polled <= |all| == |answers| && done == answers[..polled]
        invariant Polling(all, done, k, prev, curr) && all == old(spine)
        decreases |all| - polled
      {
        var flag := answers[polled];
        prev, curr, k := PollOne(all, done, k, prev, curr, flag);
        done, polled := done + [flag], polled + 1;
      }
      AllPolled(all, done, spine, k);
      assert answers[..polled] == answers;
    }

    /** The state of the loop: done of all have been polled, and curr, which follows prev, is the next. */
    ghost predicate Polling(all: seq<Send>, done: seq<bool>, k: nat, prev: Send?, curr: Send?)
      reads this, spine, all
    {
      && Valid() && Polled(all, done, spine, k)
      && (forall i :: 0 <= i < |done| ==> all[i].frees == if done[i] then 1 else 0)
      && prev == (if k == 0 then null else spine[k - 1])
      && curr == (if k < |spine| then spine[k] else null)
      && Distinct(all) && forall n :: n in spine ==> n in all
    }

    /** One turn of the loop. */
    method PollOne(ghost all: seq<Send>, ghost done: seq<bool>, ghost k: nat, prev: Send?, curr: Send, flag: bool)
      returns (prev': Send?, curr': Send?, ghost k': nat)
      requires Polling(all, done, k, prev, curr)
      modifies this, all
      ensures |done| < |all| && Polling(all, done + [flag], k', prev', curr')
    {
      ghost var before := spine;
      PolledNext(all, done, spine, k);
      if flag {
        prev', k' := prev, k;
        assert curr in spine && (prev != null ==> prev in spine);
        curr' := Drop(prev, curr, k);
        PolledDrop(all, done, before, k, spine);
        assert forall n :: n in spine ==> n in before;
      } else {
        assert spine[k].next == if k + 1 < |spine| then spine[k + 1] else null;
        prev', curr', k' := curr, curr.next, k + 1;
      }
    }

    /** Unlinks curr, which follows prev, and frees it; next is what came after it. */
    method Drop(prev: Send?, curr: Send, ghost k: nat) returns (next: Send?)
      requires Valid() && k < |spine| && spine[k] == curr
      requires prev == (if k == 0 then null else spine[k - 1])
      modifies this, prev, curr
      ensures Valid() && |spine| == |old(spine)| - 1
      ensures spine[..k] == old(spine)[..k] && spine[k..] == old(spine)[k + 1..]
      ensures next == (if k < |spine| then spine[k] else null)
      ensures curr.frees == 1 && (prev != null ==> prev.frees == 0)
    {
      next := UnlinkAndFree(prev, curr, k);
    }

    method UnlinkAndFree(prev: Send?, curr: Send, ghost k: nat) returns (next: Send?)
      requires Valid() && k < |spine| && spine[k] == curr
      requires prev == (if k == 0 then null else spine[k - 1])
      modifies this, prev, curr
      ensures Valid() && spine == old(spine)[..k] + old(spine)[k + 1..]
      ensures next == (if k < |spine| then spine[k] else null)
      ensures curr.frees == 1 && (prev != null ==> prev.frees == 0)
    {
      if prev == null {
        first := first.next;
        next := first;
      } else {
        assert spine[k - 1].next == spine[k];
        prev.next := curr.next;
        next := curr.next;
      }
      curr.frees := curr.frees + 1;
      spine := spine[..k] + spine[k + 1..];
    }
  }
}
