/**
 * Algebraic laws of the specification functions behind the matrix routines: what
 * `prod`, `sum`, `difference`, `transpose`, `diag`, `I`, `zero` and `shape` compute,
 * related to each other.
 */
module MatrixLaws {
  import opened Common
  import opened MatrixUtil

  /** The vector with `c` at index k and zeros elsewhere. */
  function Unit(n: nat, k: nat, c: real): Vector
  {
    seq(n, j => if j == k then c else 0.0)
  }

  /** A matrix with every row non-null: the input `shape` receives for an ordinary matrix. */
  function Rows(m: Matrix): seq<Option<Vector>>
  {
    seq(|m|, i requires 0 <= i < |m| => Some(m[i]))
  }

  // ---------------------------------------------------------------------------
  // Inner products
  // ---------------------------------------------------------------------------

  /** The inner product does not depend on the order of its arguments. */
  lemma {:induction false} DotSymmetric(x: Vector, y: Vector)
    requires |x| == |y|
    ensures Dot(x, y) == Dot(y, x)
    decreases |x|
  {
    if |x| > 0 {
      DotSymmetric(x[..|x| - 1], y[..|y| - 1]);
    }
  }

  /** The inner product distributes over vector addition. */
  lemma {:induction false} DotDistributes(x: Vector, y: Vector, z: Vector)
    requires |x| == |y| == |z|
    ensures Dot(Plus(x, y), z) == Dot(x, z) + Dot(y, z)
    decreases |x|
  {
    if |x| > 0 {
      var n := |x| - 1;
      assert Plus(x, y)[..n] == Plus(x[..n], y[..n]);
      DotDistributes(x[..n], y[..n], z[..n]);
    }
  }

  /** Taking the inner product with a scaled unit vector picks out one entry. */
  lemma DotUnit(x: Vector, k: nat, c: real)
    requires k < |x|
    ensures Dot(x, Unit(|x|, k, c)) == x[k] * c
  {
    DotUnitPrefix(x, k, c, |x|);
    assert x[..|x|] == x;
    assert Unit(|x|, k, c)[..|x|] == Unit(|x|, k, c);
  }

  lemma {:induction false} DotUnitPrefix(x: Vector, k: nat, c: real, n: nat)
    requires k < |x| && n <= |x|
    ensures Dot(x[..n], Unit(|x|, k, c)[..n]) == if k < n then x[k] * c else 0.0
    decreases n
  {
    if n > 0 {
      DotUnitPrefix(x, k, c, n - 1);
      DotPrefix(x, Unit(|x|, k, c), n - 1);
    }
  }

  // ---------------------------------------------------------------------------
  // Products
  // ---------------------------------------------------------------------------

  /** Column j of A B is A applied to column j of B: the two `prod` overloads agree. */
  lemma ProductColumnIsApplied(a: Matrix, b: Matrix, j: nat)
    requires WellFormed(a) && WellFormed(b) && |a[0]| == |b| && j < |b[0]|
    ensures Column(Product(a, b), j) == Applied(a, Column(b, j))
  {
  }

  /** A (x + y) = A x + A y. */
  lemma AppliedDistributes(a: Matrix, x: Vector, y: Vector)
    requires |x| == |y| && forall i | 0 <= i < |a| :: |a[i]| == |x|
    ensures Applied(a, Plus(x, y)) == Plus(Applied(a, x), Applied(a, y))
  {
    forall i | 0 <= i < |a|
      ensures Dot(a[i], Plus(x, y)) == Dot(a[i], x) + Dot(a[i], y)
    {
      DotSymmetric(a[i], Plus(x, y));
      DotDistributes(x, y, a[i]);
      DotSymmetric(x, a[i]);
      DotSymmetric(y, a[i]);
    }
  }

  /** I A = A. */
  lemma IdentityIsLeftUnit(m: Matrix)
    requires WellFormed(m)
    ensures WellFormed(IdentityOf(|m|)) && Product(IdentityOf(|m|), m) == m
  {
    var n := |m|;
    var p := Product(IdentityOf(n), m);
    forall i | 0 <= i < n
      ensures p[i] == m[i]
    {
      assert IdentityOf(n)[i] == Unit(n, i, 1.0);
      forall j | 0 <= j < |m[0]|
        ensures p[i][j] == m[i][j]
      {
        var col := Column(m, j);
        DotSymmetric(Unit(n, i, 1.0), col);
        DotUnit(col, i, 1.0);
      }
    }
  }

  /** A I = A. */
  lemma IdentityIsRightUnit(m: Matrix)
    requires WellFormed(m) && |m[0]| > 0
    ensures WellFormed(IdentityOf(|m[0]|)) && Product(m, IdentityOf(|m[0]|)) == m
  {
    var n := |m[0]|;
    var p := Product(m, IdentityOf(n));
    forall i | 0 <= i < |m|
      ensures p[i] == m[i]
    {
      forall j | 0 <= j < n
        ensures p[i][j] == m[i][j]
      {
        assert Column(IdentityOf(n), j) == Unit(n, j, 1.0);
        DotUnit(m[i], j, 1.0);
      }
    }
  }

  /** A diagonal matrix scales each entry of the vector it is applied to. */
  lemma DiagonalApplied(d: Vector, x: Vector)
    requires |d| == |x|
    ensures Applied(Diagonal(d), x) == seq(|x|, i requires 0 <= i < |x| => d[i] * x[i])
  {
    var lhs := Applied(Diagonal(d), x);
    var rhs := seq(|x|, i requires 0 <= i < |x| => d[i] * x[i]);
    forall i | 0 <= i < |x|
      ensures lhs[i] == rhs[i]
    {
      assert Diagonal(d)[i] == Unit(|x|, i, d[i]);
      DotSymmetric(Unit(|x|, i, d[i]), x);
      DotUnit(x, i, d[i]);
    }
  }

  /** I(n) is the diagonal matrix with ones on its diagonal. */
  lemma IdentityIsDiagonalOfOnes(n: nat)
    ensures IdentityOf(n) == Diagonal(seq(n, _ => 1.0))
  {
    assert forall i | 0 <= i < n :: IdentityOf(n)[i] == Diagonal(seq(n, _ => 1.0))[i];
  }

  // ---------------------------------------------------------------------------
  // Transposition
  // ---------------------------------------------------------------------------

  /** Transposing a rectangular matrix twice gives it back. */
  lemma TransposeInvolutive(m: Matrix)
    requires WellFormed(m) && |m[0]| > 0
    ensures WellFormed(Transposed(m)) && |Transposed(m)[0]| == |m|
    ensures Transposed(Transposed(m)) == m
  {
    var t := Transposed(m);
    assert forall i | 0 <= i < |t| :: |t[i]| == |m|;
    assert forall j | 0 <= j < |m| :: Transposed(t)[j] == m[j];
  }

  /** (A B)^T = B^T A^T. */
  lemma TransposeOfProduct(a: Matrix, b: Matrix)
    requires WellFormed(a) && WellFormed(b) && |a[0]| == |b| && |a[0]| > 0 && |b[0]| > 0
    ensures WellFormed(Transposed(a)) && WellFormed(Transposed(b)) && |Transposed(b)[0]| == |Transposed(a)|
    ensures Transposed(Product(a, b)) == Product(Transposed(b), Transposed(a))
  {
    TransposeInvolutive(a);
    TransposeInvolutive(b);
    var lhs := Transposed(Product(a, b));
    var rhs := Product(Transposed(b), Transposed(a));
    forall i | 0 <= i < |b[0]|
      ensures lhs[i] == rhs[i]
    {
      assert Transposed(b)[i] == Column(b, i);
      forall j | 0 <= j < |a|
        ensures lhs[i][j] == rhs[i][j]
      {
        assert Column(Transposed(a), j) == a[j];
        DotSymmetric(a[j], Column(b, i));
      }
    }
  }

  // ---------------------------------------------------------------------------
  // Sums and differences
  // ---------------------------------------------------------------------------

  /** Adding back what was subtracted restores a matrix, and the zero matrix adds nothing. */
  lemma SumUndoesDifference(a: Matrix, b: Matrix)
    requires |a| == |b| && forall i | 0 <= i < |a| :: |a[i]| == |b[i]|
    ensures MatrixPlus(MatrixMinus(a, b), b) == a
    ensures WellFormed(a) ==> MatrixPlus(a, Zeros(|a|, |a[0]|)) == a
  {
    assert forall i | 0 <= i < |a| :: Plus(Minus(a[i], b[i]), b[i]) == a[i];
    if WellFormed(a) {
      assert forall i | 0 <= i < |a| :: Plus(a[i], Zeros(|a|, |a[0]|)[i]) == a[i];
    }
  }

  /** Scaling by s and then by 1/s gives the matrix back. */
  lemma ScalingInverts(a: Matrix, s: real)
    requires s != 0.0
    ensures MatrixScaled(MatrixScaled(a, s), 1.0 / s) == a
  {
    forall i | 0 <= i < |a|
      ensures Scaled(Scaled(a[i], s), 1.0 / s) == a[i]
    {
      forall j | 0 <= j < |a[i]|
        ensures Scaled(Scaled(a[i], s), 1.0 / s)[j] == a[i][j]
      {
        assert a[i][j] * s * (1.0 / s) == a[i][j] * (s * (1.0 / s));
      }
    }
  }

  // ---------------------------------------------------------------------------
  // Reshaping
  // ---------------------------------------------------------------------------

  /** The values of the first r rows of a rectangular matrix number r times its width. */
  lemma {:induction false} FlattenRectangular(m: Matrix, r: nat)
    requires WellFormed(m) && r <= |m|
    ensures |Flatten(Rows(m)[..r])| == r * |m[0]|
    decreases r
  {
    if r > 0 {
      FlattenRectangular(m, r - 1);
      FlattenStep(Rows(m), r - 1);
      assert RowValues(Rows(m)[r - 1]) == m[r - 1];
      StrideStep(0, |m[0]|, r - 1);
    }
  }

  /** Reshaping a rectangular matrix to its own dimensions gives it back, entry by entry. */
  lemma ReshapeToOwnShape(m: Matrix)
    requires WellFormed(m)
    ensures forall i, j | 0 <= i < |m| && 0 <= j < |m[0]| ::
      Cell(Flatten(Rows(m)), i * |m[0]| + j) == m[i][j]
  {
    forall i, j | 0 <= i < |m| && 0 <= j < |m[0]|
      ensures Cell(Flatten(Rows(m)), i * |m[0]| + j) == m[i][j]
    {
      FlattenRectangular(m, i);
      FlattenAt(Rows(m), i, j);
    }
  }
}
