/** The algebra behind the reductions: what merging in one order or another amounts to. */
module Reduction {

  ghost predicate Associative<T(!new)>(op: (T, T) -> T) {
    forall a, b, c {:trigger op(op(a, b), c)} {:trigger op(a, op(b, c))} :: op(op(a, b), c) == op(a, op(b, c))
  }

  ghost predicate Commutative<T(!new)>(op: (T, T) -> T) {
    forall a, b :: op(a, b) == op(b, a)
  }

  /** a (b c) = b (a c): weaker than commutativity when there is no unit. */
  ghost predicate LeftCommutative<T(!new)>(op: (T, T) -> T) {
    forall a, b, c :: op(a, op(b, c)) == op(b, op(a, c))
  }

  /** The reduction of a non-empty list in order: x0 op x1 op ... */
  function Fold<T>(op: (T, T) -> T, xs: seq<T>): T
    requires xs != []
  {
    if |xs| == 1 then xs[0] else op(Fold(op, xs[..|xs| - 1]), xs[|xs| - 1])
  }

  lemma {:induction false} FoldConcat<T(!new)>(op: (T, T) -> T, a: seq<T>, b: seq<T>)
    requires Associative(op) && a != [] && b != []
    ensures Fold(op, a + b) == op(Fold(op, a), Fold(op, b))
  {
    var n := |b| - 1;
    if n == 0 {
      assert (a + b)[..|a|] == a;
    } else {
      assert (a + b)[..|a| + n] == a + b[..n];
      FoldConcat(op, a, b[..n]);
    }
  }

  /** Any element can be pulled to the end. */
  lemma FoldPull<T(!new)>(op: (T, T) -> T, xs: seq<T>, i: nat)
    requires Associative(op) && Commutative(op) && i < |xs| && |xs| > 1
    ensures Fold(op, xs) == op(Fold(op, xs[..i] + xs[i + 1..]), xs[i])
  {
    var a, x, b := xs[..i], xs[i], xs[i + 1..];
    assert xs == a + ([x] + b) && xs == (a + [x]) + b;
    if b == [] {
      assert a + b == a && xs == a + [x];
      FoldConcat(op, a, [x]);
    } else {
      FoldConcat(op, [x], b);
      if a == [] {
        assert a + b == b && xs == [x] + b;
      } else {
        FoldConcat(op, a, [x] + b);
        FoldConcat(op, a, b);
      }
    }
  }

  /** For an associative and commutative operation the order of the operands does not matter. */
  lemma {:induction false} FoldPermuted<T(!new)>(op: (T, T) -> T, a: seq<T>, b: seq<T>)
    requires Associative(op) && Commutative(op) && a != [] && multiset(a) == multiset(b)
    ensures b != [] && Fold(op, a) == Fold(op, b)
    decreases |a|
  {
    assert |multiset(a)| == |multiset(b)|;
    var n := |a| - 1;
    var x := a[n];
    assert x in multiset(a);
    var i :| 0 <= i < |b| && b[i] == x;
    if n > 0 {
      var rest := b[..i] + b[i + 1..];
      assert a == a[..n] + [x] && b == b[..i] + [x] + b[i + 1..];
      CancelOne(a[..n], x, b[..i], b[i + 1..]);
      FoldPull(op, b, i);
      FoldPermuted(op, a[..n], rest);
    }
  }

  lemma CancelOne<T>(a: seq<T>, x: T, p: seq<T>, q: seq<T>)
    requires multiset(a + [x]) == multiset(p + [x] + q)
    ensures multiset(a) == multiset(p + q)
  {
    assert multiset(a) == multiset(a + [x]) - multiset{x};
    assert multiset(p + q) == multiset(p + [x] + q) - multiset{x};
  }
}
