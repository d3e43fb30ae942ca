/**
 The singly linked queue with head and tail pointers that carries every queue of the
 system, refined to a sequence.
 */
module MessageQueue {
  import opened Common

  /** Position of the first element satisfying p, or |s| when there is none. */
  function FirstMatch<T>(s: seq<T>, p: T -> bool): (k: nat)
    ensures k <= |s|
    ensures k < |s| ==> p(s[k])
    ensures forall i :: 0 <= i < k ==> !p(s[i])
  {
    if s == [] then 0 else if p(s[0]) then 0 else 1 + FirstMatch(s[1..], p)
  }

  function RemoveAt<T>(s: seq<T>, k: nat): seq<T>
    requires k < |s|
  {
    s[..k] + s[k + 1..]
  }

  class Node<T> {
    var message: T
    var next: Node?<T>
    ghost const owner: object  // the queue the node was made for

    constructor (message: T, ghost owner: object)
      ensures this.message == message && next == null && this.owner == owner
    {
      this.message, next, this.owner := message, null, owner;
    }
  }

  class Queue<T> {
    var head: Node?<T>
    var tail: Node?<T>
    ghost var spine: seq<Node<T>>  // the nodes from head to tail

    ghost predicate Valid()
      reads this, spine
    {
      if spine == [] then head == null && tail == null
      else
        && head == spine[0] && tail == spine[|spine| - 1] && tail.next == null
        && (forall i {:trigger spine[i].next} :: 0 <= i < |spine| - 1 ==> spine[i].next == spine[i + 1])
        && Distinct(spine)
        && (forall i :: 0 <= i < |spine| ==> spine[i].owner == this)
    }

    ghost function Contents(): (c: seq<T>)
      reads this, spine
      ensures |c| == |spine|
    {
      seq(|spine|, i requires 0 <= i < |spine| reads this, spine => spine[i].message)
    }

    constructor ()
      ensures Valid() && Contents() == [] && spine == []
    {
      head, tail, spine := null, null, [];
    }

    method Enqueue(m: T)
      requires Valid()
      modifies this, spine
      ensures Valid() && Contents() == old(Contents()) + [m]
      ensures |spine| == |old(spine)| + 1 && spine[..|old(spine)|] == old(spine)
      ensures fresh(spine[|old(spine)|])
    {
      var info := new Node(m, this);
      if head == null {
        head, tail := info, info;
      } else {
        tail.next := info;
        tail := info;
      }
      spine := spine + [info];
    }

    method Dequeue() returns (m: Option<T>)
      requires Valid()
      modifies this
      ensures Valid()
      ensures if old(Contents()) == [] then m == None && Contents() == []
              else m == Some(old(Contents())[0]) && Contents() == old(Contents())[1..]
      ensures spine == if old(spine) == [] then [] else old(spine)[1..]
    {
      if head == null { return None; }
      var current := head;
      if head == tail {
        assert |spine| == 1;
        head, tail := null, null;
      } else {
        assert spine[0].next == spine[1];
        head := head.next;
      }
      spine := spine[1..];
      m := Some(current.message);
    }

    method IsEmpty() returns (empty: bool)
      requires Valid()
      ensures empty <==> Contents() == []
    {
      empty := head == null;
    }

    /** Unlinks the node curr, found at position k behind prev: head, tail, singleton or middle. */
    method Unlink(curr: Node<T>, prev: Node?<T>, ghost k: nat)
      requires Valid() && k < |spine| && curr == spine[k]
      requires prev == (if k == 0 then null else spine[k - 1])
      modifies this, spine
      ensures Valid() && spine == RemoveAt(old(spine), k)
      ensures forall n :: n in old(spine) ==> n.message == old(n.message)
    {
      assert curr == head <==> k == 0;
      assert curr == tail <==> k == |spine| - 1;
      if curr == head {
        if head == tail {
          head, tail := null, null;
        } else {
          assert spine[0].next == spine[1];
          head := head.next;
        }
      } else if curr == tail {
        tail := prev;
        tail.next := null;
      } else {
        assert spine[k].next == spine[k + 1];
        prev.next := curr.next;
      }
      curr.next := null;
      spine := RemoveAt(spine, k);
    }

    /** Takes out the first message that p accepts; None when it accepts none. */
    method DequeueMatching(p: T -> bool) returns (m: Option<T>)
      requires Valid()
      modifies this, spine
      ensures Valid()
      ensures var s, k := old(Contents()), FirstMatch(old(Contents()), p);
              if k == |s| then m == None && Contents() == s && spine == old(spine)
              else m == Some(s[k]) && Contents() == RemoveAt(s, k) && spine == RemoveAt(old(spine), k)
    {
      var curr, prev: Node?<T> := head, null;
      ghost var k := 0;
      ghost var s := Contents();
      while curr != null
        invariant k <= |spine| && Valid()
        invariant curr == (if k < |spine| then spine[k] else null)
        invariant prev == (if k == 0 then null else spine[k - 1])
        invariant forall i :: 0 <= i < k ==> !p(s[i])
        invariant unchanged(this) && forall n :: n in spine ==> unchanged(n)
        decreases |spine| - k
      {
        assert curr.message == s[k];
        if p(curr.message) {
          m := Some(curr.message);
          Unlink(curr, prev, k);
          assert Contents() == RemoveAt(s, k);
          return;
        }
        assert k < |spine| - 1 ==> spine[k].next == spine[k + 1];
        prev, curr := curr, curr.next;
        k := k + 1;
      }
      m := None;
    }
  }

  /**
   Matched removal loses exactly one copy of one message, the earliest accepted one; the
   other accepted messages, and those of any class q it is not in, keep their order.
   */
  lemma RemoveAtKeepsOthers<T>(s: seq<T>, k: nat, p: T -> bool, q: T -> bool)
    requires k == FirstMatch(s, p) && k < |s| && !q(s[k])
    ensures multiset(s) == multiset(RemoveAt(s, k)) + multiset{s[k]}
    ensures Filter(s, q) == Filter(RemoveAt(s, k), q)
    ensures Filter(s, p) == [s[k]] + Filter(RemoveAt(s, k), p)
  {
    SplitAt(s, k);
    SkipOne(s, k, q);
    TakeFirst(s, k, p);
  }

  lemma SkipOne<T>(s: seq<T>, k: nat, q: T -> bool)
    requires k < |s| && !q(s[k])
    ensures Filter(s, q) == Filter(RemoveAt(s, k), q)
  {
    FilterAt(s, k, q);
  }

  lemma TakeFirst<T>(s: seq<T>, k: nat, p: T -> bool)
    requires k < |s| && p(s[k]) && forall i :: 0 <= i < k ==> !p(s[i])
    ensures Filter(s, p) == [s[k]] + Filter(RemoveAt(s, k), p)
  {
    FilterAt(s, k, p);
    FilterNone(s[..k], p);
    var rest := Filter(s[k + 1..], p);
    assert [] + [s[k]] + rest == [s[k]] + rest && [] + rest == rest;
  }

  lemma SplitAt<T>(s: seq<T>, k: nat)
    requires k < |s|
    ensures s == s[..k] + [s[k]] + s[k + 1..]
    ensures multiset(s) == multiset(RemoveAt(s, k)) + multiset{s[k]}
  {
    assert s == s[..k] + [s[k]] + s[k + 1..];
  }

  lemma FilterAt<T>(s: seq<T>, k: nat, p: T -> bool)
    requires k < |s|
    ensures Filter(s, p) == Filter(s[..k], p) + (if p(s[k]) then [s[k]] else []) + Filter(s[k + 1..], p)
    ensures Filter(RemoveAt(s, k), p) == Filter(s[..k], p) + Filter(s[k + 1..], p)
  {
    SplitAt(s, k);
    FilterInMiddle(s[..k], s[k], s[k + 1..], p);
    FilterConcat(s[..k], s[k + 1..], p);
  }

  lemma FilterInMiddle<T>(a: seq<T>, x: T, b: seq<T>, p: T -> bool)
    ensures Filter(a + [x] + b, p) == Filter(a, p) + (if p(x) then [x] else []) + Filter(b, p)
  {
    FilterConcat(a + [x], b, p);
    FilterSnoc(a, x, p);
  }
}
