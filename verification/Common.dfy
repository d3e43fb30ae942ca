/** Vocabulary shared by every part of the model. */
module Common {

  datatype Option<+T> = None | Some(value: T)

  /** The error codes of the source; and Overflow, where a step leaves the range of an int. */
  datatype Error = ErrIntern | ErrRank | ErrArg | Overflow

  datatype Result<+T> = Ok(value: T) | Err(error: Error)

  /** The concatenation of a list of blocks. */
  function Flatten<T>(blocks: seq<seq<T>>): seq<T> {
    if blocks == [] then [] else blocks[0] + Flatten(blocks[1..])
  }

  lemma {:induction false} FlattenConcat<T>(a: seq<seq<T>>, b: seq<seq<T>>)
    ensures Flatten(a + b) == Flatten(a) + Flatten(b)
  {
    if a == [] {
      assert a + b == b;
    } else {
      assert (a + b)[1..] == a[1..] + b;
      FlattenConcat(a[1..], b);
    }
  }

  lemma FlattenSnoc<T>(a: seq<seq<T>>, x: seq<T>)
    ensures Flatten(a + [x]) == Flatten(a) + x
  {
    FlattenConcat(a, [x]);
    assert Flatten([x]) == x + Flatten<T>([]);
  }

  /** The blocks before, at and after position k. */
  lemma FlattenSplit<T>(a: seq<seq<T>>, k: nat)
    requires k < |a|
    ensures Flatten(a) == Flatten(a[..k]) + a[k] + Flatten(a[k + 1..])
  {
    FlattenSnoc(a[..k], a[k]);
    FlattenConcat(a[..k] + [a[k]], a[k + 1..]);
    assert a[..k] + [a[k]] + a[k + 1..] == a;
  }

  lemma {:induction false} FlattenEmpties<T>(bins: seq<seq<T>>)
    requires forall i :: 0 <= i < |bins| ==> bins[i] == []
    ensures Flatten(bins) == []
  {
    if bins != [] { FlattenEmpties(bins[1..]); }
  }

  ghost predicate Distinct<T>(s: seq<T>) {
    forall i, j :: 0 <= i < j < |s| ==> s[i] != s[j]
  }

  /** The elements of s that satisfy p, in order. */
  function Filter<T>(s: seq<T>, p: T -> bool): seq<T> {
    if s == [] then []
    else (if p(s[0]) then [s[0]] else []) + Filter(s[1..], p)
  }

  lemma {:induction false} FilterConcat<T>(a: seq<T>, b: seq<T>, p: T -> bool)
    ensures Filter(a + b, p) == Filter(a, p) + Filter(b, p)
  {
    if a == [] {
      assert a + b == b;
    } else {
      assert (a + b)[1..] == a[1..] + b;
      FilterConcat(a[1..], b, p);
      var first := if p(a[0]) then [a[0]] else [];
      assert first + (Filter(a[1..], p) + Filter(b, p)) == first + Filter(a[1..], p) + Filter(b, p);
    }
  }

  lemma {:induction false} FilterNone<T>(s: seq<T>, p: T -> bool)
    requires forall i :: 0 <= i < |s| ==> !p(s[i])
    ensures Filter(s, p) == []
  {
    if s != [] { FilterNone(s[1..], p); }
  }

  lemma {:induction false} FilterEvery<T>(s: seq<T>, p: T -> bool)
    requires forall i :: 0 <= i < |s| ==> p(s[i])
    ensures Filter(s, p) == s
  {
    if s != [] { FilterEvery(s[1..], p); }
  }

  lemma {:induction false} FilterMembers<T>(s: seq<T>, p: T -> bool)
    ensures forall x :: x in Filter(s, p) ==> x in s && p(x)
    ensures forall x :: x in s && p(x) ==> x in Filter(s, p)
  {
    if s != [] { FilterMembers(s[1..], p); }
  }

  /** The places of s whose elements satisfy p, in increasing order. */
  ghost predicate Places<T>(at: seq<nat>, s: seq<T>, p: T -> bool) {
    && (forall k :: 0 <= k < |at| ==> at[k] < |s| && p(s[at[k]]))
    && (forall j, k :: 0 <= j < k < |at| ==> at[j] < at[k])
    && forall i: nat :: i < |s| && p(s[i]) ==> i in at
  }

  ghost predicate Picked<T>(sub: seq<T>, at: seq<nat>, s: seq<T>) {
    |sub| == |at| && forall k :: 0 <= k < |at| ==> at[k] < |s| && sub[k] == s[at[k]]
  }

  /** sub consists of the elements of s that satisfy p, each as often as in s, in the order of s. */
  ghost predicate IsSelection<T>(sub: seq<T>, s: seq<T>, p: T -> bool) {
    exists at: seq<nat> :: Places(at, s, p) && Picked(sub, at, s)
  }

  lemma PlacesSnoc<T>(at: seq<nat>, s: seq<T>, x: T, p: T -> bool)
    requires Places(at, s, p)
    ensures p(x) ==> Places(at + [|s|], s + [x], p)
    ensures !p(x) ==> Places(at, s + [x], p)
  {
    forall i: nat | i < |s| && p((s + [x])[i]) ensures i in at { assert p(s[i]); }
    if p(x) {
      var all := at + [|s|];
      forall i: nat | i < |s + [x]| && p((s + [x])[i]) ensures i in all {
        if i < |s| { assert i in at; } else { assert all[|at|] == i; }
      }
    }
  }

  lemma {:induction false} FilterSelects<T>(s: seq<T>, p: T -> bool)
    ensures IsSelection(Filter(s, p), s, p)
  {
    if s == [] {
      assert Places([], s, p) && Picked([], [], s);
    } else {
      var front, x := s[..|s| - 1], s[|s| - 1];
      assert s == front + [x];
      FilterSelects(front, p);
      SelectsSnoc(Filter(front, p), front, x, p);
      FilterSnoc(front, x, p);
      assert Filter(front, p) + [] == Filter(front, p);
    }
  }

  lemma SelectsSnoc<T>(sub: seq<T>, s: seq<T>, x: T, p: T -> bool)
    requires IsSelection(sub, s, p)
    ensures p(x) ==> IsSelection(sub + [x], s + [x], p)
    ensures !p(x) ==> IsSelection(sub, s + [x], p)
  {
    var at: seq<nat> :| Places(at, s, p) && Picked(sub, at, s);
    PlacesSnoc(at, s, x, p);
    PickedSnoc(sub, at, s, x);
  }

  lemma PickedSnoc<T>(sub: seq<T>, at: seq<nat>, s: seq<T>, x: T)
    requires Picked(sub, at, s)
    ensures Picked(sub + [x], at + [|s|], s + [x]) && Picked(sub, at, s + [x])
  {}

  /** Filtering by a coarser class first makes no difference. */
  lemma {:induction false} FilterTwice<T>(s: seq<T>, coarse: T -> bool, fine: T -> bool)
    requires forall i :: 0 <= i < |s| && fine(s[i]) ==> coarse(s[i])
    ensures Filter(Filter(s, coarse), fine) == Filter(s, fine)
  {
    if s != [] {
      FilterTwice(s[1..], coarse, fine);
      FilterConcat(if coarse(s[0]) then [s[0]] else [], Filter(s[1..], coarse), fine);
    }
  }

  lemma FilterPrefix<T>(a: seq<T>, b: seq<T>, p: T -> bool)
    requires a <= b
    ensures Filter(a, p) <= Filter(b, p)
  {
    assert b == a + b[|a|..];
    FilterConcat(a, b[|a|..], p);
  }

  lemma FilterSnoc<T>(s: seq<T>, x: T, p: T -> bool)
    ensures Filter(s + [x], p) == Filter(s, p) + (if p(x) then [x] else [])
  {
    FilterConcat(s, [x], p);
    assert Filter([x], p) == (if p(x) then [x] else []) + Filter([], p);
  }

  /** Induction from i up to n. */
  lemma {:induction false} Climb(p: nat -> bool, i: nat, n: nat)
    requires i <= n && p(i) && forall j: nat {:trigger p(j)} :: i <= j < n && p(j) ==> p(j + 1)
    ensures p(n)
    decreases n - i
  {
    if i < n {
      assert p(i);
      Climb(p, i + 1, n);
    }
  }
}
