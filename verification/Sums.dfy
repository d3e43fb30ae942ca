/** Finite sums over one and two indices, and how they change where the summands change in one place. */
module Sums {

  function SumTo(n: nat, f: nat -> nat): nat { if n == 0 then 0 else SumTo(n - 1, f) + f(n - 1) }

  ghost predicate SameExcept(n: nat, f: nat -> nat, f': nat -> nat, k: nat) {
    forall i: nat :: i < n && i != k ==> f'(i) == f(i)
  }

  lemma {:induction false} SumChanges(n: nat, f: nat -> nat, f': nat -> nat, k: nat, d: int)
    requires SameExcept(n, f, f', k) && (k < n ==> f'(k) == f(k) + d)
    ensures SumTo(n, f') == SumTo(n, f) + if k < n then d else 0
  {
    if n > 0 { SumChanges(n - 1, f, f', k, d); }
  }

  lemma {:induction false} SumZero(n: nat, f: nat -> nat, k: nat)
    requires SumTo(n, f) == 0 && k < n
    ensures f(k) == 0
  {
    if k < n - 1 { SumZero(n - 1, f, k); }
  }

  function Row(cols: nat, f: (nat, nat) -> nat): nat -> nat { i => SumTo(cols, At(f, i)) }
  function At(f: (nat, nat) -> nat, i: nat): nat -> nat { j => f(i, j) }
  function Sum2(rows: nat, cols: nat, f: (nat, nat) -> nat): nat { SumTo(rows, Row(cols, f)) }

  /** f' is f but for one place, where it is f + d. */
  ghost predicate ChangesAt(rows: nat, cols: nat, f: (nat, nat) -> nat, f': (nat, nat) -> nat,
                            i: nat, j: nat, d: int)
  {
    && i < rows && j < cols && f'(i, j) == f(i, j) + d
    && forall x: nat, y: nat :: x < rows && y < cols && (x, y) != (i, j) ==> f'(x, y) == f(x, y)
  }

  lemma Sum2Changes(rows: nat, cols: nat, f: (nat, nat) -> nat, f': (nat, nat) -> nat, i: nat, j: nat, d: int)
    requires ChangesAt(rows, cols, f, f', i, j, d)
    ensures Total2By(rows, cols, f, f', d)
  {
    SumChanges(cols, At(f, i), At(f', i), j, d);
    forall x: nat | x < rows && x != i ensures Row(cols, f')(x) == Row(cols, f)(x) {
      SumChanges(cols, At(f, x), At(f', x), cols, 0);
    }
    SumChanges(rows, Row(cols, f), Row(cols, f'), i, d);
  }

  lemma Sum2Same(rows: nat, cols: nat, f: (nat, nat) -> nat, f': (nat, nat) -> nat)
    requires forall x: nat, y: nat :: x < rows && y < cols ==> f'(x, y) == f(x, y)
    ensures Total2By(rows, cols, f, f', 0)
  {
    forall x: nat | x < rows ensures Row(cols, f')(x) == Row(cols, f)(x) {
      SumChanges(cols, At(f, x), At(f', x), cols, 0);
    }
    SumChanges(rows, Row(cols, f), Row(cols, f'), rows, 0);
  }

  ghost predicate Total(n: nat, f: nat -> nat, t: int) { SumTo(n, f) == t }
  ghost predicate Total2(rows: nat, cols: nat, f: (nat, nat) -> nat, t: int) { Sum2(rows, cols, f) == t }

  /** Whatever the total was, it changes by d. */
  ghost predicate TotalBy(n: nat, f: nat -> nat, f': nat -> nat, d: int) {
    forall t: int {:trigger Total(n, f, t)} :: Total(n, f, t) ==> Total(n, f', t + d)
  }

  ghost predicate Total2By(rows: nat, cols: nat, f: (nat, nat) -> nat, f': (nat, nat) -> nat, d: int) {
    forall t: int {:trigger Total2(rows, cols, f, t)} :: Total2(rows, cols, f, t) ==> Total2(rows, cols, f', t + d)
  }
}
