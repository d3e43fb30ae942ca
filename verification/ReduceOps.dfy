/**
 The reduction kernels: each overwrites its second vector with the elementwise combination of
 both. As they are associative and commutative, the order of merging does not matter.
 */
module ReduceOps {
  import opened Reduction
  import Clusters
  import WideReduce

  // ---- elementwise ----

  /** Two vectors combined element by element. */
  function Zip<T>(op: (T, T) -> T, a: seq<T>, b: seq<T>): (r: seq<T>)
    ensures |r| == if |a| < |b| then |a| else |b|
  {
    seq(if |a| < |b| then |a| else |b|, i requires 0 <= i < |a| && i < |b| => op(a[i], b[i]))
  }

  /** Combining vectors, as an operation of its own. */
  function Lift<T>(op: (T, T) -> T): (seq<T>, seq<T>) -> seq<T> { (a: seq<T>, b: seq<T>) => Zip(op, a, b) }

  lemma LiftQualifies<T(!new)>(op: (T, T) -> T)
    ensures Associative(op) ==> Associative(Lift(op))
    ensures Commutative(op) ==> Commutative(Lift(op))
  {
    if Associative(op) {
      forall a, b, c ensures Lift(op)(Lift(op)(a, b), c) == Lift(op)(a, Lift(op)(b, c)) {
        ZipAssociative(op, a, b, c);
      }
    }
    if Commutative(op) {
      forall a, b ensures Lift(op)(a, b) == Lift(op)(b, a) {
        assert Zip(op, a, b) == Zip(op, b, a);
      }
    }
  }

  lemma ZipAssociative<T(!new)>(op: (T, T) -> T, a: seq<T>, b: seq<T>, c: seq<T>)
    requires Associative(op)
    ensures Zip(op, Zip(op, a, b), c) == Zip(op, a, Zip(op, b, c))
  {
    var x, y := Zip(op, Zip(op, a, b), c), Zip(op, a, Zip(op, b, c));
    forall i | 0 <= i < |x| ensures x[i] == y[i] {
      assert op(op(a[i], b[i]), c[i]) == op(a[i], op(b[i], c[i]));
    }
  }

  /** The i-th elements of a list of vectors. */
  function Column<T>(vectors: seq<seq<T>>, n: nat, i: nat): (r: seq<T>)
    requires i < n && forall v :: 0 <= v < |vectors| ==> |vectors[v]| == n
    ensures |r| == |vectors|
  {
    seq(|vectors|, v requires 0 <= v < |vectors| && |vectors[v]| == n => vectors[v][i])
  }

  /** Reducing vectors reduces each column. */
  lemma {:induction false} FoldColumns<T>(op: (T, T) -> T, vectors: seq<seq<T>>, n: nat, i: nat)
    requires vectors != [] && i < n && forall v :: 0 <= v < |vectors| ==> |vectors[v]| == n
    ensures var r := Fold(Lift(op), vectors); |r| == n && r[i] == Fold(op, Column(vectors, n, i))
  {
    if |vectors| > 1 {
      var front := vectors[..|vectors| - 1];
      FoldColumns(op, front, n, i);
      assert Column(vectors, n, i)[..|vectors| - 1] == Column(front, n, i);
    }
  }

  // ---- the kernels ----

  /** REDUCE_FUNC, for the macro op. */
  method ReduceVectors<T>(op: (T, T) -> T, invec: array<T>, inoutvec: array<T>)
    requires invec != inoutvec && invec.Length == inoutvec.Length
    modifies inoutvec
    ensures inoutvec[..] == Lift(op)(invec[..], old(inoutvec[..]))
  {
    for i := 0 to inoutvec.Length
      invariant forall k :: 0 <= k < i ==> inoutvec[k] == op(invec[k], old(inoutvec[k]))
      invariant forall k :: i <= k < inoutvec.Length ==> inoutvec[k] == old(inoutvec[k])
    {
      inoutvec[i] := op(invec[i], inoutvec[i]);
    }
  }

  function Max(a: int, b: int): int { if a > b then a else b }
  function Min(a: int, b: int): int { if a < b then a else b }
  function LAnd(a: int, b: int): int { if a != 0 && b != 0 then 1 else 0 }
  function LOr(a: int, b: int): int { if a != 0 || b != 0 then 1 else 0 }
  function LXor(a: int, b: int): int { if (a != 0 && b == 0) || (a == 0 && b != 0) then 1 else 0 }

  /** Sums and products of an unsigned type with m values. */
  function SumMod(m: nat): (nat, nat) -> nat requires m > 0 { (a: nat, b: nat) => (a + b) % m }
  function ProdMod(m: nat): (nat, nat) -> nat requires m > 0 { (a: nat, b: nat) => a * b % m }

  lemma ModIs(x: nat, q: nat, r: nat, m: nat)
    requires x == m * q + r && r < m
    ensures x % m == r
  {
    var q', r' := x / m, x % m;
    var d := q - q';
    assert m * d == m * q - m * q' == r' - r;
    AtLeastOnce(m, d);
    AtLeastOnce(m, -d);
  }

  lemma AtLeastOnce(m: nat, d: int)
    ensures d > 0 ==> m * d >= m
  {}

  /** Multiples of m do not count. */
  lemma ModAdd(x: nat, q: nat, y: nat, m: nat)
    requires m > 0 && x == m * q + y
    ensures x % m == y % m
  {
    assert y == m * (y / m) + y % m;
    assert x == m * (q + y / m) + y % m;
    ModIs(x, q + y / m, y % m, m);
  }

  lemma SumAssociates(a: nat, b: nat, c: nat, m: nat)
    requires m > 0
    ensures SumMod(m)(SumMod(m)(a, b), c) == SumMod(m)(a, SumMod(m)(b, c))
  {
    ModAdd(a + b + c, (a + b) / m, (a + b) % m + c, m);
    ModAdd(a + b + c, (b + c) / m, a + (b + c) % m, m);
  }

  lemma ModProduct(x: nat, c: nat, m: nat)
    requires m > 0
    ensures x % m * c % m == x * c % m
  {
    var q, r := x / m, x % m;
    assert x * c == (m * q + r) * c == m * (q * c) + r * c;
    ModAdd(x * c, q * c, r * c, m);
  }

  lemma ProductAssociates(a: nat, b: nat, c: nat, m: nat)
    requires m > 0
    ensures ProdMod(m)(ProdMod(m)(a, b), c) == ProdMod(m)(a, ProdMod(m)(b, c))
  {
    ModProduct(a * b, c, m);
    ModProduct(b * c, a, m);
    assert a * b * c == b * c * a;
    assert b * c % m * a == a * (b * c % m);
  }

  /** Wrap-around does not break the reductions of unsigned types. */
  lemma UnsignedQualify(m: nat)
    requires m > 0
    ensures Associative(SumMod(m)) && Commutative(SumMod(m))
    ensures Associative(ProdMod(m)) && Commutative(ProdMod(m))
  {
    var sum, prod := SumMod(m), ProdMod(m);
    forall a, b, c ensures sum(sum(a, b), c) == sum(a, sum(b, c)) { SumAssociates(a, b, c, m); }
    forall a, b, c ensures prod(prod(a, b), c) == prod(a, prod(b, c)) { ProductAssociates(a, b, c, m); }
    forall a, b ensures prod(a, b) == prod(b, a) { assert a * b == b * a; }
  }

  lemma ScalarsQualify()
    ensures Associative(Max) && Commutative(Max) && Associative(Min) && Commutative(Min)
    ensures Associative(LAnd) && Commutative(LAnd) && Associative(LOr) && Commutative(LOr)
    ensures Associative(LXor) && Commutative(LXor)
  {}

  // ---- what these reductions compute ----

  /** MAX yields the greatest of the operands, and MIN the least. */
  lemma {:induction false} FoldIsGreatest(xs: seq<int>)
    requires xs != []
    ensures Fold(Max, xs) in xs && forall i :: 0 <= i < |xs| ==> xs[i] <= Fold(Max, xs)
  {
    if |xs| > 1 { FoldIsGreatest(xs[..|xs| - 1]); }
  }

  lemma {:induction false} FoldIsLeast(xs: seq<int>)
    requires xs != []
    ensures Fold(Min, xs) in xs && forall i :: 0 <= i < |xs| ==> Fold(Min, xs) <= xs[i]
  {
    if |xs| > 1 { FoldIsLeast(xs[..|xs| - 1]); }
  }

  function NonZeros(xs: seq<int>): (n: nat)
    ensures n <= |xs|
  {
    if xs == [] then 0 else NonZeros(xs[..|xs| - 1]) + if xs[|xs| - 1] != 0 then 1 else 0
  }

  lemma {:induction false} NonZerosCount(xs: seq<int>)
    ensures NonZeros(xs) == |xs| <==> forall i :: 0 <= i < |xs| ==> xs[i] != 0
    ensures NonZeros(xs) == 0 <==> forall i :: 0 <= i < |xs| ==> xs[i] == 0
  {
    if xs != [] {
      var n := |xs| - 1;
      NonZerosCount(xs[..n]);
      assert forall i :: 0 <= i < n ==> xs[..n][i] == xs[i];
    }
  }

  ghost predicate IsFlag(x: int) { x == 0 || x == 1 }

  /**
   LAND says whether all operands are nonzero, LOR whether some are, and LXOR whether an odd number is;
   from two operands on the answer is 0 or 1.
   */
  lemma {:induction false} FoldIsLogical(xs: seq<int>)
    requires xs != []
    ensures Fold(LAnd, xs) != 0 <==> forall i :: 0 <= i < |xs| ==> xs[i] != 0
    ensures Fold(LOr, xs) != 0 <==> exists i :: 0 <= i < |xs| && xs[i] != 0
    ensures Fold(LXor, xs) != 0 <==> NonZeros(xs) % 2 == 1
    ensures |xs| > 1 ==> IsFlag(Fold(LAnd, xs)) && IsFlag(Fold(LOr, xs)) && IsFlag(Fold(LXor, xs))
  {
    LogicalCounts(xs);
    NonZerosCount(xs);
  }

  lemma {:induction false} LogicalCounts(xs: seq<int>)
    requires xs != []
    ensures Fold(LAnd, xs) != 0 <==> NonZeros(xs) == |xs|
    ensures Fold(LOr, xs) != 0 <==> NonZeros(xs) > 0
    ensures Fold(LXor, xs) != 0 <==> NonZeros(xs) % 2 == 1
  {
    var n := |xs| - 1;
    if n > 0 { LogicalCounts(xs[..n]); } else { assert NonZeros(xs[..0]) == 0; }
  }

  function Sum(xs: seq<nat>): nat { if xs == [] then 0 else Sum(xs[..|xs| - 1]) + xs[|xs| - 1] }
  function Product(xs: seq<nat>): nat { if xs == [] then 1 else Product(xs[..|xs| - 1]) * xs[|xs| - 1] }

  /** Of unsigned operands the sum and the product come out modulo the number of values of the type. */
  lemma {:induction false} FoldIsSum(xs: seq<nat>, m: nat)
    requires xs != [] && m > 0 && forall i :: 0 <= i < |xs| ==> xs[i] < m
    ensures Fold(SumMod(m), xs) == Sum(xs) % m
  {
    var n := |xs| - 1;
    if n == 0 {
      assert Sum(xs[..0]) == 0;
      ModIs(xs[0], 0, xs[0], m);
    } else {
      FoldIsSum(xs[..n], m);
      ModAdd(Sum(xs), Sum(xs[..n]) / m, Sum(xs[..n]) % m + xs[n], m);
    }
  }

  lemma {:induction false} FoldIsProduct(xs: seq<nat>, m: nat)
    requires xs != [] && m > 0 && forall i :: 0 <= i < |xs| ==> xs[i] < m
    ensures Fold(ProdMod(m), xs) == Product(xs) % m
  {
    var n := |xs| - 1;
    if n == 0 {
      assert Product(xs[..0]) == 1;
      ModIs(xs[0], 0, xs[0], m);
    } else {
      FoldIsProduct(xs[..n], m);
      ModProduct(Product(xs[..n]), xs[n], m);
    }
  }

  // ---- complex products ----

  datatype Complex = Complex(re: real, im: real)

  function ComplexProd(b: Complex, a: Complex): Complex {
    Complex(a.re * b.re - a.im * b.im, a.im * b.re + a.re * b.im)
  }

  /** COMPLEX_PROD_FUNC: the old value is saved, as both parts of it are needed twice. */
  method ReduceComplexProd(b: array<Complex>, a: array<Complex>)
    requires b != a && b.Length == a.Length
    modifies a
    ensures a[..] == Lift(ComplexProd)(b[..], old(a[..]))
  {
    ghost var op := ComplexProd;
    for i := 0 to a.Length
      invariant forall k :: 0 <= k < i ==> a[k] == op(b[k], old(a[k]))
      invariant forall k :: i <= k < a.Length ==> a[k] == old(a[k])
    {
      ComplexProdAt(b[i], a, i);
    }
  }

  method ComplexProdAt(b: Complex, a: array<Complex>, i: nat)
    requires i < a.Length
    modifies a
    ensures a[i] == ComplexProd(b, old(a[i])) && forall k :: 0 <= k < a.Length && k != i ==> a[k] == old(a[k])
  {
    var c := a[i];
    a[i] := a[i].(re := c.re * b.re - c.im * b.im);
    a[i] := a[i].(im := c.im * b.re + c.re * b.im);
  }

  function Plus(x: Complex, y: Complex): Complex { Complex(x.re + y.re, x.im + y.im) }

  /** It is the multiplication of complex numbers: it distributes over sums, extends that of reals, and i i = -1. */
  lemma ComplexMultiplies(x: Complex, y: Complex, a: Complex, r: real)
    ensures ComplexProd(Plus(x, y), a) == Plus(ComplexProd(x, a), ComplexProd(y, a))
    ensures ComplexProd(a, Plus(x, y)) == Plus(ComplexProd(a, x), ComplexProd(a, y))
    ensures ComplexProd(Complex(r, 0.0), a) == ComplexProd(a, Complex(r, 0.0)) == Complex(r * a.re, r * a.im)
    ensures ComplexProd(Complex(0.0, 1.0), Complex(0.0, 1.0)) == Complex(-1.0, 0.0)
  {}

  lemma ComplexQualifies()
    ensures Associative(ComplexProd) && Commutative(ComplexProd)
  {
    forall a, b, c ensures ComplexProd(ComplexProd(a, b), c) == ComplexProd(a, ComplexProd(b, c)) {
      ComplexAssociative(a, b, c);
    }
  }

  lemma ComplexAssociative(a: Complex, b: Complex, c: Complex)
    ensures ComplexProd(ComplexProd(a, b), c) == ComplexProd(a, ComplexProd(b, c))
  {}

  // ---- extreme values and where they are ----

  datatype Located = Located(value: int, loc: int)

  /** a beats b: a greater value, or for equal values a smaller location, or the very same. */
  predicate Beats(a: Located, b: Located, greatest: bool) {
    (if greatest then a.value > b.value else a.value < b.value) || (a.value == b.value && a.loc <= b.loc)
  }

  /** x is the extreme value of xs with the smallest location where it is attained. */
  ghost predicate IsBest(x: Located, xs: seq<Located>, greatest: bool) {
    x in xs && forall i :: 0 <= i < |xs| ==> Beats(x, xs[i], greatest)
  }

  /** MAXLOC or MINLOC of two values. */
  function Extreme(greatest: bool): (Located, Located) -> Located {
    (a: Located, b: Located) => if Beats(b, a, greatest) then b else a
  }

  /** MAXLOC_FUNC (greatest) and MINLOC_FUNC. */
  method ReduceLocated(greatest: bool, invec: array<Located>, inoutvec: array<Located>)
    requires invec != inoutvec && invec.Length == inoutvec.Length
    modifies inoutvec
    ensures inoutvec[..] == Lift(Extreme(greatest))(invec[..], old(inoutvec[..]))
  {
    for i := 0 to inoutvec.Length
      invariant forall k :: 0 <= k < i ==> inoutvec[k] == Extreme(greatest)(invec[k], old(inoutvec[k]))
      invariant forall k :: i <= k < inoutvec.Length ==> inoutvec[k] == old(inoutvec[k])
    {
      if inoutvec[i].value == invec[i].value {
        inoutvec[i] := inoutvec[i].(loc := Min(inoutvec[i].loc, invec[i].loc));
      } else if (if greatest then inoutvec[i].value < invec[i].value else inoutvec[i].value > invec[i].value) {
        inoutvec[i] := inoutvec[i].(value := invec[i].value);
        inoutvec[i] := inoutvec[i].(loc := invec[i].loc);
      }
    }
  }

  lemma ExtremeQualifies(greatest: bool)
    ensures Associative(Extreme(greatest)) && Commutative(Extreme(greatest))
  {}

  lemma {:induction false} FoldIsBest(xs: seq<Located>, greatest: bool)
    requires xs != []
    ensures IsBest(Fold(Extreme(greatest), xs), xs, greatest)
  {
    if |xs| > 1 {
      var n := |xs| - 1;
      FoldIsBest(xs[..n], greatest);
      var f := Fold(Extreme(greatest), xs[..n]);
      forall i | 0 <= i < |xs| ensures Beats(Fold(Extreme(greatest), xs), xs[i], greatest) {
        if i < n { assert Beats(f, xs[..n][i], greatest); }
      }
    }
  }

  lemma BestIsUnique(x: Located, y: Located, xs: seq<Located>, greatest: bool)
    requires IsBest(x, xs, greatest) && IsBest(y, xs, greatest)
    ensures x == y
  {
    var i :| 0 <= i < |xs| && xs[i] == x;
    var j :| 0 <= j < |xs| && xs[j] == y;
    assert Beats(x, xs[j], greatest) && Beats(y, xs[i], greatest);
  }

  // ---- wide-area reductions of vectors ----

  /** With an operation that qualifies, every element at any merging cluster is the fold over all ranks. */
  lemma WideElement<T(!new)>(op: (T, T) -> T, clusterOf: seq<nat>, clusters: nat, vectors: seq<seq<T>>, n: nat,
                             k: nat, i: nat)
    requires Associative(op) && Commutative(op)
    requires |vectors| == |clusterOf| > 0 && Clusters.Populated(clusterOf, clusters) && k < clusters
    requires i < n && forall v :: 0 <= v < |vectors| ==> |vectors[v]| == n
    ensures var r := WideReduce.ResultAt(Lift(op), clusterOf, clusters, vectors, k);
            |r| == n && r[i] == Fold(op, Column(vectors, n, i))
  {
    LiftQualifies(op);
    WideReduce.ReducesAll(Lift(op), clusterOf, clusters, vectors, k);
    FoldColumns(op, vectors, n, i);
  }

  /**
   A wide-area reduction with MAXLOC or MINLOC, merged at any cluster: every element of the result
   is the extreme value over all ranks, with the smallest location attaining it.
   */
  lemma WideExtreme(greatest: bool, clusterOf: seq<nat>, clusters: nat, vectors: seq<seq<Located>>, n: nat,
                    k: nat, i: nat)
    requires |vectors| == |clusterOf| > 0 && Clusters.Populated(clusterOf, clusters) && k < clusters
    requires i < n && forall v :: 0 <= v < |vectors| ==> |vectors[v]| == n
    ensures var r := WideReduce.ResultAt(Lift(Extreme(greatest)), clusterOf, clusters, vectors, k);
            |r| == n && IsBest(r[i], Column(vectors, n, i), greatest)
  {
    ExtremeQualifies(greatest);
    WideElement(Extreme(greatest), clusterOf, clusters, vectors, n, k, i);
    FoldIsBest(Column(vectors, n, i), greatest);
  }
}
