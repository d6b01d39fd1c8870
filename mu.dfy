/**
 * "Matrix Utilities" of the simulator: dimension-checked vector and matrix routines
 * and two growable buffers.
 *
 * Elements are `real`, so every algebraic statement below is exact. A Java routine
 * never changes its arguments and always returns an array it has just allocated,
 * so arguments and results are values here (`Vector`, `Matrix`); each routine still
 * allocates its result rows and fills them with the source's index loops. The two
 * expanders change their fields in place and are classes over arrays.
 */
module MatrixUtil {
  import opened Common

  type Vector = seq<real>
  type Matrix = seq<seq<real>>

  /**
   * The mismatches for which a routine throws IllegalArgumentException. The matrix
   * routines' messages report the two sizes compared; the vector routines' message
   * ("Vectors must have same length") reports none.
   */
  datatype Mismatch =
    | VectorLengths
    | ColumnsVsElements(columns: nat, elements: nat)
    | ColumnsVsRows(columns: nat, rows: nat)
    | ColumnCounts(columnsA: nat, columnsB: nat)
    | RowCounts(rowsA: nat, rowsB: nat)

  /** A routine's value, or the IllegalArgumentException it throws instead. */
  type Checked<T> = Result<T, Mismatch>

  // ---------------------------------------------------------------------------
  // Specification functions
  // ---------------------------------------------------------------------------

  /** Every row has the length of row 0 (what isMatrix tests). */
  ghost predicate Rectangular(m: Matrix)
    requires |m| > 0
  {
    forall i | 0 <= i < |m| :: |m[i]| == |m[0]|
  }

  /** What `assert isMatrix(m)` demands: a row 0 to read, and rectangularity. */
  ghost predicate WellFormed(m: Matrix)
  {
    |m| > 0 && Rectangular(m)
  }

  /** The inner product, summed from index 0 upwards as the Java loop does. */
  function Dot(x: Vector, y: Vector): real
    requires |x| == |y|
    decreases |x|
  {
    if |x| == 0 then 0.0 else Dot(x[..|x| - 1], y[..|y| - 1]) + x[|x| - 1] * y[|y| - 1]
  }

  function Scaled(x: Vector, a: real): Vector
  {
    seq(|x|, i requires 0 <= i < |x| => x[i] * a)
  }

  function Plus(x: Vector, y: Vector): Vector
    requires |x| == |y|
  {
    seq(|x|, i requires 0 <= i < |x| => x[i] + y[i])
  }

  function Minus(x: Vector, y: Vector): Vector
    requires |x| == |y|
  {
    seq(|x|, i requires 0 <= i < |x| => x[i] - y[i])
  }

  /** Column j of a matrix all of whose rows are longer than j. */
  function Column(m: Matrix, j: nat): Vector
    requires forall i | 0 <= i < |m| :: j < |m[i]|
  {
    seq(|m|, i requires 0 <= i < |m| => m[i][j])
  }

  /** A X: entry i is the inner product of row i with X. */
  function Applied(a: Matrix, x: Vector): Vector
    requires forall i | 0 <= i < |a| :: |a[i]| == |x|
  {
    seq(|a|, i requires 0 <= i < |a| => Dot(a[i], x))
  }

  /** A B: entry (i, j) is the inner product of row i of A with column j of B. */
  function Product(a: Matrix, b: Matrix): Matrix
    requires WellFormed(a) && WellFormed(b) && |a[0]| == |b|
  {
    seq(|a|, i requires 0 <= i < |a| =>
      seq(|b[0]|, j requires 0 <= j < |b[0]| => Dot(a[i], Column(b, j))))
  }

  function MatrixScaled(a: Matrix, s: real): Matrix
  {
    seq(|a|, i requires 0 <= i < |a| => Scaled(a[i], s))
  }

  function MatrixPlus(a: Matrix, b: Matrix): Matrix
    requires |a| == |b| && forall i | 0 <= i < |a| :: |a[i]| == |b[i]|
  {
    seq(|a|, i requires 0 <= i < |a| => Plus(a[i], b[i]))
  }

  function MatrixMinus(a: Matrix, b: Matrix): Matrix
    requires |a| == |b| && forall i | 0 <= i < |a| :: |a[i]| == |b[i]|
  {
    seq(|a|, i requires 0 <= i < |a| => Minus(a[i], b[i]))
  }

  /** The values of a possibly null row: a null row holds none. */
  function RowValues(row: Option<Vector>): Vector
  {
    if row.Some? then row.value else []
  }

  /** All values of a ragged matrix in row-major order, null and empty rows contributing nothing. */
  function Flatten(m: seq<Option<Vector>>): Vector
    decreases |m|
  {
    if |m| == 0 then [] else Flatten(m[..|m| - 1]) + RowValues(m[|m| - 1])
  }

  /** Value k of the flattened data, or 0 once the data has run out. */
  function Cell(flat: Vector, k: nat): real
  {
    if k < |flat| then flat[k] else 0.0
  }

  /** Row i of the transpose is column i; rows longer than row 0 are cut to its length. */
  function Transposed(m: Matrix): Matrix
    requires forall j | 0 <= j < |m| :: |m[j]| >= |m[0]|
  {
    if |m| == 0 then
      []
    else
      seq(|m[0]|, i requires 0 <= i < |m[0]| =>
        seq(|m|, j requires 0 <= j < |m| => m[j][i]))
  }

  function Diagonal(entries: Vector): Matrix
  {
    seq(|entries|, i requires 0 <= i < |entries| =>
      seq(|entries|, j requires 0 <= j < |entries| => if i == j then entries[i] else 0.0))
  }

  function IdentityOf(n: nat): Matrix
  {
    seq(n, i requires 0 <= i < n => seq(n, j requires 0 <= j < n => if i == j then 1.0 else 0.0))
  }

  function Filled(rows: nat, cols: nat, value: real): Matrix
  {
    seq(rows, i => seq(cols, j => value))
  }

  function Zeros(rows: nat, cols: nat): Matrix
  {
    Filled(rows, cols, 0.0)
  }

  // ---------------------------------------------------------------------------
  // Lemmas the routines' proofs use
  // ---------------------------------------------------------------------------

  lemma DotPrefix(x: Vector, y: Vector, k: nat)
    requires |x| == |y| && k < |x|
    ensures Dot(x[..k + 1], y[..k + 1]) == Dot(x[..k], y[..k]) + x[k] * y[k]
  {
    assert x[..k + 1][..k] == x[..k];
    assert y[..k + 1][..k] == y[..k];
  }

  lemma FlattenStep(m: seq<Option<Vector>>, r: nat)
    requires r < |m|
    ensures Flatten(m[..r + 1]) == Flatten(m[..r]) + RowValues(m[r])
  {
    assert m[..r + 1][..r] == m[..r];
  }

  /** The values of the first r rows are a prefix of all values. */
  lemma {:induction false} FlattenPrefix(m: seq<Option<Vector>>, r: nat)
    requires r <= |m|
    ensures |Flatten(m[..r])| <= |Flatten(m)|
    ensures Flatten(m[..r]) == Flatten(m)[..|Flatten(m[..r])|]
    decreases |m|
  {
    if r == |m| {
      assert m[..r] == m;
    } else {
      var init := m[..|m| - 1];
      assert init[..r] == m[..r];
      FlattenPrefix(init, r);
    }
  }

  /** Value c of a non-null row r sits at offset c past the values of the rows before it. */
  lemma FlattenAt(m: seq<Option<Vector>>, r: nat, c: nat)
    requires r < |m| && m[r].Some? && c < |m[r].value|
    ensures |Flatten(m[..r])| + c < |Flatten(m)|
    ensures Flatten(m)[|Flatten(m[..r])| + c] == m[r].value[c]
  {
    FlattenStep(m, r);
    FlattenPrefix(m, r + 1);
  }

  /**
   * The cursor of `shape`: `fromCol` is the last value taken from row `fromRow`
   * (-1 if none), so k values have been taken in all; once every row is used up,
   * fewer than k values existed.
   */
  ghost predicate Cursor(m: seq<Option<Vector>>, fromRow: int, fromCol: int, k: nat)
  {
    && 0 <= fromRow <= |m|
    && (fromRow < |m| ==>
          && -1 <= fromCol < |RowValues(m[fromRow])|
          && |Flatten(m[..fromRow])| + fromCol + 1 == k)
    && (fromRow == |m| ==> |Flatten(m)| <= k)
  }

  // ---------------------------------------------------------------------------
  // The routines
  // ---------------------------------------------------------------------------

  /** isMatrix: true exactly when every row is as long as row 0. */
  method IsMatrix(matrix: Matrix) returns (result: bool)
    requires |matrix| > 0
    ensures result <==> Rectangular(matrix)
  {
    result := true;
    var dim := |matrix[0]|;
    var i := 1;
    while i < |matrix| && result
      invariant 1 <= i <= |matrix|
      invariant result <==> forall k | 0 <= k < i :: |matrix[k]| == dim
    {
      if |matrix[i]| != dim {
        result := false;
      }
      i := i + 1;
    }
  }

  /** clone: an equal copy, row by row. */
  method Clone(matrix: Matrix) returns (result: Matrix)
    ensures |result| == |matrix|
    ensures forall i | 0 <= i < |matrix| :: result[i] == matrix[i]
  {
    result := [];
    for i := 0 to |matrix|
      invariant result == matrix[..i]
    {
      var row := new real[|matrix[i]|];
      forall k | 0 <= k < row.Length {
        row[k] := matrix[i][k];
      }
      assert row[..] == matrix[i];
      assert matrix[..i + 1] == matrix[..i] + [matrix[i]];
      result := result + [row[..]];
    }
  }

  /** prod(X, a): every element multiplied by a. */
  method ProdVectorScalar(x: Vector, a: real) returns (result: Vector)
    ensures |result| == |x|
    ensures forall i | 0 <= i < |x| :: result[i] == x[i] * a
  {
    var r := new real[|x|](_ => 0.0);
    for i := 0 to |x|
      invariant forall k | 0 <= k < i :: r[k] == x[k] * a
    {
      r[i] := x[i] * a;
    }
    result := r[..];
  }

  /** prod(X, Y): the inner product; vectors of different lengths are refused. */
  method ProdVectorVector(x: Vector, y: Vector) returns (result: Checked<real>)
    ensures |x| != |y| ==> result == Failure(VectorLengths)
    ensures |x| == |y| ==> result == Success(Dot(x, y))
  {
    if |x| != |y| {
      return Failure(VectorLengths);
    }
    var sum := 0.0;
    for i := 0 to |x|
      invariant sum == Dot(x[..i], y[..i])
    {
      DotPrefix(x, y, i);
      sum := sum + x[i] * y[i];
    }
    assert x[..|x|] == x && y[..|y|] == y;
    return Success(sum);
  }

  /** prod(A, X): A's column count must equal X's length; entry i is row i times X. */
  method ProdMatrixVector(a: Matrix, x: Vector) returns (result: Checked<Vector>)
    requires WellFormed(a)
    ensures |a[0]| != |x| ==> result == Failure(ColumnsVsElements(|a[0]|, |x|))
    ensures |a[0]| == |x| ==> result.Success? && result.value == Applied(a, x)
  {
    if |a[0]| != |x| {
      return Failure(ColumnsVsElements(|a[0]|, |x|));
    }
    var r := new real[|a|](_ => 0.0);
    for i := 0 to |a|
      invariant forall k | 0 <= k < i :: r[k] == Dot(a[k], x)
      invariant forall k | i <= k < |a| :: r[k] == 0.0
    {
      for j := 0 to |x|
        invariant r[i] == Dot(a[i][..j], x[..j])
        invariant forall k | 0 <= k < i :: r[k] == Dot(a[k], x)
        invariant forall k | i < k < |a| :: r[k] == 0.0
      {
        DotPrefix(a[i], x, j);
        r[i] := r[i] + a[i][j] * x[j];
      }
      assert a[i][..|x|] == a[i] && x[..|x|] == x;
    }
    return Success(r[..]);
  }

  /** prod(A, B): A's column count must equal B's row count; the result is |A| x |B[0]|. */
  method ProdMatrixMatrix(a: Matrix, b: Matrix) returns (result: Checked<Matrix>)
    requires WellFormed(a) && WellFormed(b)
    ensures |a[0]| != |b| ==> result == Failure(ColumnsVsRows(|a[0]|, |b|))
    ensures |a[0]| == |b| ==> result.Success? && result.value == Product(a, b)
  {
    if |a[0]| != |b| {
      return Failure(ColumnsVsRows(|a[0]|, |b|));
    }
    var rows: Matrix := [];
    for i := 0 to |a|
      invariant |rows| == i
      invariant forall k | 0 <= k < i :: rows[k] == Product(a, b)[k]
    {
      var row := new real[|b[0]|](_ => 0.0);
      for j := 0 to row.Length
        invariant forall l | 0 <= l < j :: row[l] == Dot(a[i], Column(b, l))
        invariant forall l | j <= l < row.Length :: row[l] == 0.0
      {
        AccumulateDot(row, j, a[i], b);
      }
      assert row[..] == Product(a, b)[i];
      rows := rows + [row[..]];
    }
    return Success(rows);
  }

  /** The innermost loop of prod(A, B): adds row x of A times column j of B into the zeroed slot j. */
  method AccumulateDot(row: array<real>, j: nat, x: Vector, b: Matrix)
    requires j < row.Length && row[j] == 0.0
    requires |x| == |b| && forall k | 0 <= k < |b| :: j < |b[k]|
    modifies row
    ensures row[..] == old(row[..])[j := Dot(x, Column(b, j))]
  {
    ghost var col := Column(b, j);
    for k := 0 to |b|
      invariant row[j] == Dot(x[..k], col[..k])
      invariant forall l | 0 <= l < row.Length && l != j :: row[l] == old(row[l])
    {
      DotPrefix(x, col, k);
      assert col[k] == b[k][j];
      row[j] := row[j] + x[k] * b[k][j];
    }
    assert x[..|b|] == x && col[..|b|] == col;
  }

  /** prod(A, a): every element of A multiplied by a. */
  method ProdMatrixScalar(a: Matrix, s: real) returns (result: Matrix)
    requires WellFormed(a)
    ensures |result| == |a|
    ensures forall i | 0 <= i < |a| :: |result[i]| == |a[i]|
    ensures forall i, j | 0 <= i < |a| && 0 <= j < |a[i]| :: result[i][j] == a[i][j] * s
  {
    result := [];
    for i := 0 to |a|
      invariant |result| == i
      invariant forall k | 0 <= k < i :: result[k] == Scaled(a[k], s)
    {
      var row := new real[|a[i]|](_ => 0.0);
      for j := 0 to row.Length
        invariant forall l | 0 <= l < j :: row[l] == a[i][l] * s
      {
        row[j] := a[i][j] * s;
      }
      assert forall l | 0 <= l < |a[i]| :: row[..][l] == Scaled(a[i], s)[l];
      assert row[..] == Scaled(a[i], s);
      result := result + [row[..]];
    }
  }

  /**
   * sum(A, B) and difference(A, B) of matrices: the column counts are compared
   * first, then the row counts; the result has A's shape.
   */
  method MatrixSumOrDifference(a: Matrix, b: Matrix, subtract: bool) returns (result: Checked<Matrix>)
    requires WellFormed(a) && WellFormed(b)
    ensures |a[0]| != |b[0]| ==> result == Failure(ColumnCounts(|a[0]|, |b[0]|))
    ensures |a[0]| == |b[0]| && |a| != |b| ==> result == Failure(RowCounts(|a|, |b|))
    ensures |a[0]| == |b[0]| && |a| == |b| ==>
      result.Success? && result.value == if subtract then MatrixMinus(a, b) else MatrixPlus(a, b)
  {
    if |a[0]| != |b[0]| {
      return Failure(ColumnCounts(|a[0]|, |b[0]|));
    }
    if |a| != |b| {
      return Failure(RowCounts(|a|, |b|));
    }
    var rows: Matrix := [];
    for i := 0 to |a|
      invariant |rows| == i
      invariant forall k | 0 <= k < i :: rows[k] == if subtract then Minus(a[k], b[k]) else Plus(a[k], b[k])
    {
      var row := new real[|a[0]|](_ => 0.0);
      for j := 0 to row.Length
        invariant forall l | 0 <= l < j :: row[l] == if subtract then a[i][l] - b[i][l] else a[i][l] + b[i][l]
      {
        row[j] := if subtract then a[i][j] - b[i][j] else a[i][j] + b[i][j];
      }
      assert row[..] == if subtract then Minus(a[i], b[i]) else Plus(a[i], b[i]);
      rows := rows + [row[..]];
    }
    return Success(rows);
  }

  /** sum(A, B) of matrices. */
  method SumMatrices(a: Matrix, b: Matrix) returns (result: Checked<Matrix>)
    requires WellFormed(a) && WellFormed(b)
    ensures |a[0]| != |b[0]| ==> result == Failure(ColumnCounts(|a[0]|, |b[0]|))
    ensures |a[0]| == |b[0]| && |a| != |b| ==> result == Failure(RowCounts(|a|, |b|))
    ensures |a[0]| == |b[0]| && |a| == |b| ==> result.Success? && result.value == MatrixPlus(a, b)
  {
    result := MatrixSumOrDifference(a, b, false);
  }

  /** difference(A, B) of matrices: A - B. */
  method DifferenceMatrices(a: Matrix, b: Matrix) returns (result: Checked<Matrix>)
    requires WellFormed(a) && WellFormed(b)
    ensures |a[0]| != |b[0]| ==> result == Failure(ColumnCounts(|a[0]|, |b[0]|))
    ensures |a[0]| == |b[0]| && |a| != |b| ==> result == Failure(RowCounts(|a|, |b|))
    ensures |a[0]| == |b[0]| && |a| == |b| ==> result.Success? && result.value == MatrixMinus(a, b)
  {
    result := MatrixSumOrDifference(a, b, true);
  }

  /** sum(X, Y) of vectors: element-wise, equal lengths required. */
  method SumVectors(x: Vector, y: Vector) returns (result: Checked<Vector>)
    ensures |x| != |y| ==> result == Failure(VectorLengths)
    ensures |x| == |y| ==> result.Success? && result.value == Plus(x, y)
  {
    if |x| != |y| {
      return Failure(VectorLengths);
    }
    var r := new real[|x|](_ => 0.0);
    for i := 0 to |x|
      invariant forall k | 0 <= k < i :: r[k] == x[k] + y[k]
    {
      r[i] := x[i] + y[i];
    }
    return Success(r[..]);
  }

  /** difference(X, Y) of vectors: X - Y element-wise, equal lengths required. */
  method DifferenceVectors(x: Vector, y: Vector) returns (result: Checked<Vector>)
    ensures |x| != |y| ==> result == Failure(VectorLengths)
    ensures |x| == |y| ==> result.Success? && result.value == Minus(x, y)
  {
    if |x| != |y| {
      return Failure(VectorLengths);
    }
    var r := new real[|x|](_ => 0.0);
    for i := 0 to |x|
      invariant forall k | 0 <= k < i :: r[k] == x[k] - y[k]
    {
      r[i] := x[i] - y[i];
    }
    return Success(r[..]);
  }

  /**
   * shape: a rows x cols matrix filled row-major from the values of `matrix`,
   * skipping null and empty rows; every cell past the end of those values is 0.
   * `matrix[0]` is read for a debug message, so it must exist and not be null.
   */
  method Shape(matrix: seq<Option<Vector>>, rows: nat, cols: nat) returns (result: Matrix)
    requires |matrix| > 0 && matrix[0].Some?
    ensures |result| == rows
    ensures forall i | 0 <= i < rows :: |result[i]| == cols
    ensures forall i, j | 0 <= i < rows && 0 <= j < cols :: result[i][j] == Cell(Flatten(matrix), i * cols + j)
  {
    ghost var flat := Flatten(matrix);
    assert matrix[..|matrix|] == matrix;
    result := [];
    var fromRow := 0;
    var fromCol := -1;
    ghost var taken := 0;
    for i := 0 to rows
      invariant |result| == i && taken == i * cols
      invariant forall r | 0 <= r < i :: |result[r]| == cols
      invariant forall r, j | 0 <= r < i && 0 <= j < cols :: result[r][j] == Cell(flat, r * cols + j)
      invariant Cursor(matrix, fromRow, fromCol, taken)
    {
      var row;
      row, fromRow, fromCol := CopyRow(matrix, cols, fromRow, fromCol, taken);
      ghost var before := result;
      result := result + [row];
      assert forall r | 0 <= r < i :: result[r] == before[r];
      assert forall l | 0 <= l < cols :: result[i][l] == Cell(flat, i * cols + l);
      StrideStep(0, cols, i);
      taken := taken + cols;
    }
  }

  /**
   * One row of `shape` (the loop labelled copyRow): takes the next `cols` values
   * at the cursor, leaving 0 in the cells for which the values have run out.
   */
  method CopyRow(matrix: seq<Option<Vector>>, cols: nat, fromRow0: int, fromCol0: int, ghost taken: nat)
    returns (result: Vector, fromRow: int, fromCol: int)
    requires Cursor(matrix, fromRow0, fromCol0, taken)
    ensures |result| == cols
    ensures forall l | 0 <= l < cols :: result[l] == Cell(Flatten(matrix), taken + l)
    ensures Cursor(matrix, fromRow, fromCol, taken + cols)
  {
    ghost var flat := Flatten(matrix);
    fromRow, fromCol := fromRow0, fromCol0;
    var row := new real[cols](_ => 0.0);
    var j := 0;
    label copyRow:
    while j < cols
      invariant 0 <= j <= cols
      invariant Cursor(matrix, fromRow, fromCol, taken + j)
      invariant forall l | 0 <= l < j :: row[l] == Cell(flat, taken + l)
      invariant forall l | j <= l < cols :: row[l] == 0.0
    {
      var atNextValue;
      fromRow, fromCol, atNextValue := NextValue(matrix, fromRow, fromCol, taken + j);
      if !atNextValue {
        break copyRow;
      }
      row[j] := matrix[fromRow].value[fromCol];
      j := j + 1;
    }
    result := row[..];
  }

  /**
   * The cursor walk of `shape` (its inner while loop): moves past null and used-up
   * rows to the next value, or reports that every row is used up.
   */
  method NextValue(matrix: seq<Option<Vector>>, fromRow0: int, fromCol0: int, ghost taken: nat)
    returns (fromRow: int, fromCol: int, atNextValue: bool)
    requires Cursor(matrix, fromRow0, fromCol0, taken)
    ensures atNextValue ==>
      && 0 <= fromRow < |matrix| && matrix[fromRow].Some? && 0 <= fromCol < |matrix[fromRow].value|
      && taken < |Flatten(matrix)| && Flatten(matrix)[taken] == matrix[fromRow].value[fromCol]
      && Cursor(matrix, fromRow, fromCol, taken + 1)
    ensures !atNextValue ==> fromRow == |matrix| && |Flatten(matrix)| <= taken
  {
    assert matrix[..|matrix|] == matrix;
    fromRow, fromCol := fromRow0, fromCol0;
    atNextValue := false;
    while !atNextValue
      invariant 0 <= fromRow <= |matrix|
      invariant !atNextValue ==> Cursor(matrix, fromRow, fromCol, taken)
      invariant atNextValue ==>
        && fromRow < |matrix| && matrix[fromRow].Some?
        && 0 <= fromCol < |matrix[fromRow].value|
        && |Flatten(matrix[..fromRow])| + fromCol == taken
      decreases |matrix| - fromRow, if atNextValue then 0 else 1
    {
      fromCol := fromCol + 1;
      if fromRow == |matrix| {
        return;
      } else if matrix[fromRow].None? || fromCol == |matrix[fromRow].value| {
        FlattenStep(matrix, fromRow);
        fromRow := fromRow + 1;
        fromCol := -1;
      } else {
        atNextValue := true;
      }
    }
    FlattenAt(matrix, fromRow, fromCol);
  }

  /** transpose: a matrix with no rows gives none; otherwise result[i][j] == matrix[j][i]. */
  method Transpose(matrix: Matrix) returns (result: Matrix)
    requires forall j | 0 <= j < |matrix| :: |matrix[j]| >= |matrix[0]|
    ensures |result| == if |matrix| == 0 then 0 else |matrix[0]|
    ensures forall i | 0 <= i < |result| :: |result[i]| == |matrix|
    ensures forall i, j | 0 <= i < |result| && 0 <= j < |matrix| :: result[i][j] == matrix[j][i]
    ensures result == Transposed(matrix)
  {
    var n := 0;
    if |matrix| > 0 {
      n := |matrix[0]|;
    }
    result := [];
    for i := 0 to n
      invariant |result| == i
      invariant forall k | 0 <= k < i :: result[k] == Transposed(matrix)[k]
    {
      var row := new real[|matrix|](_ => 0.0);
      for j := 0 to row.Length
        invariant forall l | 0 <= l < j :: row[l] == matrix[l][i]
      {
        row[j] := matrix[j][i];
      }
      assert row[..] == Transposed(matrix)[i];
      result := result + [row[..]];
    }
  }

  /** diag: a square matrix with `entries` on the diagonal and 0 elsewhere. */
  method Diag(entries: Vector) returns (result: Matrix)
    ensures |result| == |entries| && forall i | 0 <= i < |result| :: |result[i]| == |entries|
    ensures forall i, j | 0 <= i < |entries| && 0 <= j < |entries| :: result[i][j] == if i == j then entries[i] else 0.0
    ensures result == Diagonal(entries)
  {
    result := [];
    for i := 0 to |entries|
      invariant |result| == i
      invariant forall k | 0 <= k < i :: result[k] == Diagonal(entries)[k]
    {
      var row := new real[|entries|](_ => 0.0);
      row[i] := entries[i];
      assert row[..] == Diagonal(entries)[i];
      result := result + [row[..]];
    }
  }

  /** I: the identity matrix of the given dimension. */
  method Identity(dimension: nat) returns (result: Matrix)
    ensures |result| == dimension && forall i | 0 <= i < dimension :: |result[i]| == dimension
    ensures forall i, j | 0 <= i < dimension && 0 <= j < dimension :: result[i][j] == if i == j then 1.0 else 0.0
    ensures result == IdentityOf(dimension)
  {
    result := [];
    for i := 0 to dimension
      invariant |result| == i
      invariant forall k | 0 <= k < i :: result[k] == IdentityOf(dimension)[k]
    {
      var row := new real[dimension](_ => 0.0);
      row[i] := 1.0;
      assert row[..] == IdentityOf(dimension)[i];
      result := result + [row[..]];
    }
  }

  /** zero: a rows x cols matrix of zeros. */
  method Zero(rows: nat, cols: nat) returns (result: Matrix)
    ensures |result| == rows && forall i | 0 <= i < rows :: |result[i]| == cols
    ensures forall i, j | 0 <= i < rows && 0 <= j < cols :: result[i][j] == 0.0
    ensures result == Zeros(rows, cols)
  {
    result := [];
    for i := 0 to rows
      invariant result == Zeros(i, cols)
    {
      var row := new real[cols](_ => 0.0);
      assert row[..] == seq(cols, j => 0.0);
      result := result + [row[..]];
    }
  }

  /** uniform: a rows x cols matrix every entry of which is `value`. */
  method Uniform(rows: nat, cols: nat, value: real) returns (result: Matrix)
    ensures |result| == rows && forall i | 0 <= i < rows :: |result[i]| == cols
    ensures forall i, j | 0 <= i < rows && 0 <= j < cols :: result[i][j] == value
    ensures result == Filled(rows, cols, value)
  {
    result := [];
    for i := 0 to rows
      invariant result == Filled(i, cols, value)
    {
      var row := new real[cols](_ => 0.0);
      for j := 0 to cols
        invariant forall l | 0 <= l < j :: row[l] == value
      {
        row[j] := value;
      }
      assert row[..] == seq(cols, j => value);
      result := result + [row[..]];
    }
  }

  // ---------------------------------------------------------------------------
  // copy with stride
  // ---------------------------------------------------------------------------

  /** The entries at from, from + interval, from + 2 interval, ... strictly below `bound`. */
  function Strided(v: Vector, from: nat, interval: nat, bound: nat): Vector
    requires interval > 0 && bound <= |v|
    decreases bound - from
  {
    if from >= bound then [] else [v[from]] + Strided(v, from + interval, interval, bound)
  }

  /** Math.round((float) count / (float) interval) for a positive interval. */
  function RoundedQuotient(count: nat, interval: nat): nat
    requires interval > 0
  {
    (2 * count + interval) / (2 * interval)
  }

  /** What `copy` as written gives: the copied values, or the ArrayIndexOutOfBoundsException it throws. */
  datatype Copied = Copied(values: Vector) | IndexOutOfBounds

  /**
   * `copy` as written. With interval 1 it copies vector[start..end] inclusive. Otherwise
   * it allocates Math.round((end - start + 1) / interval) slots, writes the entries
   * below `end` (exclusive) into them, fails once they are full, keeps the unwritten
   * zeros, and trims the result to the written entries and one zero when more than
   * one slot stays unwritten. An empty range (end = start - 1) gives no entries.
   */
  function CopiedAsWritten(v: Vector, start: nat, interval: nat, end: nat): Copied
    requires start <= end + 1 && end <= |v| && interval > 0 && (interval == 1 ==> end < |v|)
  {
    if interval == 1 then
      Copied(v[start..end + 1])
    else
      var length := RoundedQuotient(end + 1 - start, interval);
      var written := Strided(v, start, interval, end);
      if |written| > length then
        IndexOutOfBounds
      else
        var filled := written + seq(length - |written|, _ => 0.0);
        Copied(if |written| < length - 1 then filled[..|written| + 1] else filled)
  }

  /** The loop of `copy` as written: the slots written so far and the entries still to come. */
  method CopyAsWritten(vector: Vector, start: nat, interval: nat, end: nat) returns (result: Copied)
    requires start <= end + 1 && end <= |vector| && interval > 0 && (interval == 1 ==> end < |vector|)
    ensures result == CopiedAsWritten(vector, start, interval, end)
  {
    if interval == 1 {
      var values := new real[end + 1 - start];
      forall k | 0 <= k < values.Length {
        values[k] := vector[start + k];
      }
      return Copied(values[..]);
    }
    var values := new real[RoundedQuotient(end + 1 - start, interval)](_ => 0.0);
    var i, overrun := FillStrided(values, vector, start, interval, end);
    if overrun {
      return IndexOutOfBounds;
    }
    if i < values.Length - 1 {
      var trim := new real[i + 1];
      forall k | 0 <= k < trim.Length {
        trim[k] := values[k];
      }
      return Copied(trim[..]);
    }
    return Copied(values[..]);
  }

  /**
   * The stride loop of `copy` as written: writes the entries below `end` into the
   * zeroed `values` from slot 0 on, and reports an overrun when they do not fit.
   */
  method FillStrided(values: array<real>, vector: Vector, start: nat, interval: nat, end: nat)
    returns (filled: nat, overrun: bool)
    requires interval > 0 && end <= |vector|
    requires forall k | 0 <= k < values.Length :: values[k] == 0.0
    modifies values
    ensures overrun <==> |Strided(vector, start, interval, end)| > values.Length
    ensures !overrun ==> filled == |Strided(vector, start, interval, end)|
    ensures !overrun ==> values[..] == Strided(vector, start, interval, end) + seq(values.Length - filled, _ => 0.0)
  {
    ghost var written := Strided(vector, start, interval, end);
    filled := 0;
    var j := start;
    while j < end
      invariant start <= j && filled <= values.Length
      invariant written == values[..filled] + Strided(vector, j, interval, end)
      invariant forall k | filled <= k < values.Length :: values[k] == 0.0
      decreases end - j
    {
      assert Strided(vector, j, interval, end) == [vector[j]] + Strided(vector, j + interval, interval, end);
      if filled == values.Length {
        return filled, true;
      }
      values[filled] := vector[j];
      filled := filled + 1;
      j := j + interval;
    }
    assert written == values[..filled];
    assert values[..] == written + seq(values.Length - filled, _ => 0.0);
    return filled, false;
  }

  /**
   * `copy` as its documentation describes it: the entries at start, start + interval,
   * start + 2 interval, ..., up to and including index `end`.
   */
  method Copy(vector: Vector, start: nat, interval: nat, end: nat) returns (result: Vector)
    requires start <= end + 1 && end < |vector| && interval > 0
    ensures result == Strided(vector, start, interval, end + 1)
  {
    if interval == 1 {
      StridedByOne(vector, start, end + 1);
      var values := new real[end + 1 - start];
      forall k | 0 <= k < values.Length {
        values[k] := vector[start + k];
      }
      return values[..];
    }
    result := [];
    var j := start;
    while j <= end
      invariant start <= j
      invariant Strided(vector, start, interval, end + 1) == result + Strided(vector, j, interval, end + 1)
      decreases end + 1 - j
    {
      result := result + [vector[j]];
      j := j + interval;
    }
  }

  /** With interval 1 the strided entries are a plain slice. */
  lemma {:induction false} StridedByOne(v: Vector, from: nat, bound: nat)
    requires from <= bound <= |v|
    ensures Strided(v, from, 1, bound) == v[from..bound]
    decreases bound - from
  {
    if from < bound {
      StridedByOne(v, from + 1, bound);
    }
  }

  /**
   * The strided entries are exactly v[from + t * interval] for t = 0, 1, ..., each index
   * below `bound`, and the first index left out is at or past `bound`.
   */
  lemma StridedAt(v: Vector, from: nat, interval: nat, bound: nat)
    requires interval > 0 && bound <= |v|
    ensures var r := Strided(v, from, interval, bound);
      && (from >= bound <==> |r| == 0)
      && (forall t | 0 <= t < |r| :: from + t * interval < bound && r[t] == v[from + t * interval])
      && from + |r| * interval >= bound
  {
    var r := Strided(v, from, interval, bound);
    forall t | 0 <= t < |r|
      ensures from + t * interval < bound && r[t] == v[from + t * interval]
    {
      StridedEntry(v, from, interval, bound, t);
    }
    StridedPassesBound(v, from, interval, bound);
  }

  /** Entry t of the strided entries is v[from + t * interval], and that index is below `bound`. */
  lemma {:induction false} StridedEntry(v: Vector, from: nat, interval: nat, bound: nat, t: nat)
    requires interval > 0 && bound <= |v| && t < |Strided(v, from, interval, bound)|
    ensures from + t * interval < bound && Strided(v, from, interval, bound)[t] == v[from + t * interval]
    decreases t
  {
    var r := Strided(v, from, interval, bound);
    var rest := Strided(v, from + interval, interval, bound);
    assert r == [v[from]] + rest;
    if t > 0 {
      StridedEntry(v, from + interval, interval, bound, t - 1);
      StrideStep(from, interval, t - 1);
    }
  }

  /** The strided entries are empty exactly when `from` is at or past `bound`, and the first index left out is at or past `bound`. */
  lemma {:induction false} StridedPassesBound(v: Vector, from: nat, interval: nat, bound: nat)
    requires interval > 0 && bound <= |v|
    ensures var r := Strided(v, from, interval, bound);
      (from >= bound <==> |r| == 0) && from + |r| * interval >= bound
    decreases bound - from
  {
    if from < bound {
      var rest := Strided(v, from + interval, interval, bound);
      assert Strided(v, from, interval, bound) == [v[from]] + rest;
      StridedPassesBound(v, from + interval, interval, bound);
      StrideStep(from, interval, |rest|);
    }
  }

  /** One more stride: the offset of entry t + 1 from `from` is that of entry t from from + interval. */
  lemma StrideStep(from: nat, interval: nat, t: nat)
    ensures from + interval + t * interval == from + (t + 1) * interval
  {
  }

  /**
   * When the stride lands on `end` (end = start + m * interval), corrected `copy` returns
   * m + 1 entries and its last one is the entry at `end`.
   */
  lemma {:induction false} CopyReachesEnd(v: Vector, start: nat, interval: nat, end: nat, m: nat)
    requires start <= end < |v| && interval > 0 && end == start + m * interval
    ensures var r := Strided(v, start, interval, end + 1);
      |r| == m + 1 && r[m] == v[end]
    decreases m
  {
    var r := Strided(v, start, interval, end + 1);
    var rest := Strided(v, start + interval, interval, end + 1);
    assert r == [v[start]] + rest;
    if m == 0 {
      assert rest == [];
    } else {
      StrideStep(start, interval, m - 1);
      CopyReachesEnd(v, start + interval, interval, end, m - 1);
    }
  }

  /** With interval 2 and `end` on the stride, `copy` as written drops the entry at `end` and leaves a zero in its place. */
  lemma CopyDropsLastEntry()
    ensures CopiedAsWritten([1.0, 2.0, 3.0, 4.0, 5.0], 0, 2, 4) == Copied([1.0, 3.0, 0.0])
    ensures Strided([1.0, 2.0, 3.0, 4.0, 5.0], 0, 2, 5) == [1.0, 3.0, 5.0]
  {
    var v := [1.0, 2.0, 3.0, 4.0, 5.0];
    assert Strided(v, 4, 2, 4) == [];
    assert Strided(v, 2, 2, 4) == [3.0];
    assert Strided(v, 0, 2, 4) == [1.0, 3.0];
    assert Strided(v, 6, 2, 5) == [];
    assert Strided(v, 4, 2, 5) == [5.0];
    assert Strided(v, 2, 2, 5) == [3.0, 5.0];
  }

  /** With interval 3 and `end` on the stride, `copy` as written drops the entry at `end` and returns one entry short. */
  lemma CopyFallsShort()
    ensures CopiedAsWritten([1.0, 2.0, 3.0, 4.0], 0, 3, 3) == Copied([1.0])
    ensures Strided([1.0, 2.0, 3.0, 4.0], 0, 3, 4) == [1.0, 4.0]
  {
    var v := [1.0, 2.0, 3.0, 4.0];
    assert Strided(v, 3, 3, 3) == [];
    assert Strided(v, 6, 3, 4) == [];
    assert Strided(v, 3, 3, 4) == [4.0];
  }

  /**
   * `copy` as written returns normally on two boundary inputs: an empty range
   * (end = start - 1) gives no entries, and with an interval above 1 an `end` equal to
   * the vector's length is never read, so the last entry on the stride is copied.
   */
  lemma CopyBoundaryInputs()
    ensures CopiedAsWritten([1.0, 2.0], 2, 2, 1) == Copied([])
    ensures CopiedAsWritten([1.0, 2.0, 3.0, 4.0, 5.0], 0, 2, 5) == Copied([1.0, 3.0, 5.0])
  {
    var v := [1.0, 2.0, 3.0, 4.0, 5.0];
    assert Strided(v, 6, 2, 5) == [];
    assert Strided(v, 4, 2, 5) == [5.0];
    assert Strided(v, 2, 2, 5) == [3.0, 5.0];
  }

  /** `copy` as written overruns its result when the rounded slot count is too small. */
  lemma CopyOverruns()
    ensures CopiedAsWritten([1.0, 2.0], 0, 5, 1) == IndexOutOfBounds
    ensures Strided([1.0, 2.0], 0, 5, 2) == [1.0]
  {
    assert Strided([1.0, 2.0], 5, 5, 1) == [];
    assert Strided([1.0, 2.0], 5, 5, 2) == [];
  }

  // ---------------------------------------------------------------------------
  // Growable buffers
  // ---------------------------------------------------------------------------

  /** The number of slots a buffer starts with and grows by (ourIncrement). */
  const Increment: nat := 1000

  /** VectorExpander: appends values, growing its array by Increment slots when full. */
  class VectorExpander {
    var myIndex: nat
    var myValues: array<real>

    ghost predicate Valid()
      reads this
    {
      myIndex <= myValues.Length && myValues.Length >= Increment && myValues.Length % Increment == 0
    }

    /** The values appended so far, in order. */
    ghost function Contents(): seq<real>
      reads this, myValues
      requires Valid()
    {
      myValues[..myIndex]
    }

    constructor ()
      ensures Valid() && fresh(myValues)
      ensures Contents() == [] && myValues.Length == Increment
    {
      myIndex := 0;
      myValues := new real[Increment](_ => 0.0);
    }

    /** add: grows by Increment only when full, keeping the earlier values, then appends. */
    method Add(value: real)
      requires Valid()
      modifies this, myValues
      ensures Valid()
      ensures Contents() == old(Contents()) + [value]
      ensures old(myIndex) < old(myValues.Length) ==> myValues == old(myValues)
      ensures old(myIndex) == old(myValues.Length) ==> fresh(myValues) && myValues.Length == old(myValues.Length) + Increment
    {
      if myIndex == myValues.Length {
        var newValues := new real[myValues.Length + Increment](_ => 0.0);
        forall k | 0 <= k < myValues.Length {
          newValues[k] := myValues[k];
        }
        myValues := newValues;
      }
      myValues[myIndex] := value;
      myIndex := myIndex + 1;
    }

    /** toArray: exactly the appended values, in order. */
    method ToArray() returns (result: seq<real>)
      requires Valid()
      ensures result == Contents()
    {
      var values := new real[myIndex];
      forall k | 0 <= k < myIndex {
        values[k] := myValues[k];
      }
      result := values[..];
    }
  }

  /** MatrixExpander: appends rows, growing its array by Increment slots when full. */
  class MatrixExpander {
    var myIndex: nat
    var myValues: array<Vector>

    ghost predicate Valid()
      reads this
    {
      myIndex <= myValues.Length && myValues.Length >= Increment && myValues.Length % Increment == 0
    }

    /** The rows appended so far, in order. */
    ghost function Contents(): seq<Vector>
      reads this, myValues
      requires Valid()
    {
      myValues[..myIndex]
    }

    constructor ()
      ensures Valid() && fresh(myValues)
      ensures Contents() == [] && myValues.Length == Increment
    {
      myIndex := 0;
      myValues := new Vector[Increment](_ => []);
    }

    /** add: grows by Increment only when full, keeping the earlier rows, then appends. */
    method Add(value: Vector)
      requires Valid()
      modifies this, myValues
      ensures Valid()
      ensures Contents() == old(Contents()) + [value]
      ensures old(myIndex) < old(myValues.Length) ==> myValues == old(myValues)
      ensures old(myIndex) == old(myValues.Length) ==> fresh(myValues) && myValues.Length == old(myValues.Length) + Increment
    {
      if myIndex == myValues.Length {
        var newValues := new Vector[myValues.Length + Increment](_ => []);
        forall k | 0 <= k < myValues.Length {
          newValues[k] := myValues[k];
        }
        myValues := newValues;
      }
      myValues[myIndex] := value;
      myIndex := myIndex + 1;
    }

    /** toArray: exactly the appended rows, in order. */
    method ToArray() returns (result: seq<Vector>)
      requires Valid()
      ensures result == Contents()
    {
      var values := new Vector[myIndex](_ => []);
      forall k | 0 <= k < myIndex {
        values[k] := myValues[k];
      }
      result := values[..];
    }
  }
}
