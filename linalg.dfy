/** Dense real matrices as sequences of rows, with the handful of NumPy
    operations the PCA code uses: `np.sum(axis=0)`, `np.square`, elementwise
    arithmetic with broadcasting of a row vector, `np.dot` of a matrix with a
    vector and the outer product `t·pᵀ`. */
module Linalg {
  type Vector = seq<real>
  type Matrix = seq<seq<real>>

  /** Every row of `M` has exactly `cols` entries. */
  predicate Rect(M: Matrix, cols: nat)
  {
    forall i :: 0 <= i < |M| ==> |M[i]| == cols
  }

  predicate IsMatrix(M: Matrix, rows: nat, cols: nat)
  {
    |M| == rows && Rect(M, cols)
  }

  predicate SameShape(A: Matrix, B: Matrix)
  {
    |A| == |B| && forall i :: 0 <= i < |A| ==> |A[i]| == |B[i]|
  }

  predicate NonZero(v: Vector)
  {
    forall c :: 0 <= c < |v| ==> v[c] != 0.0
  }

  // ---------------------------------------------------------------------------
  // Sums and dot products
  // ---------------------------------------------------------------------------

  /** The sum of the first `k` entries of `v`. */
  function SumTo(v: Vector, k: nat): real
    requires k <= |v|
  {
    if k == 0 then 0.0 else SumTo(v, k - 1) + v[k - 1]
  }

  function Sum(v: Vector): real
  {
    SumTo(v, |v|)
  }

  /** The sum of a pair. */
  lemma SumPair(v: Vector)
    requires |v| == 2
    ensures Sum(v) == v[0] + v[1]
  {
    assert SumTo(v, 1) == v[0];
  }

  function Hadamard(a: Vector, b: Vector): (r: Vector)
    requires |a| == |b|
    ensures |r| == |a|
    ensures forall j :: 0 <= j < |a| ==> r[j] == a[j] * b[j]
  {
    seq(|a|, j requires 0 <= j < |a| => a[j] * b[j])
  }

  function Dot(a: Vector, b: Vector): real
    requires |a| == |b|
  {
    Sum(Hadamard(a, b))
  }

  // ---------------------------------------------------------------------------
  // Matrices
  // ---------------------------------------------------------------------------

  function Zeros(n: nat, p: nat): (Z: Matrix)
    ensures IsMatrix(Z, n, p)
    ensures forall i, c :: 0 <= i < n && 0 <= c < p ==> Z[i][c] == 0.0
  {
    seq(n, i => seq(p, c => 0.0))
  }

  function Column(M: Matrix, c: nat): (v: Vector)
    requires forall i :: 0 <= i < |M| ==> c < |M[i]|
    ensures |v| == |M|
    ensures forall i :: 0 <= i < |M| ==> v[i] == M[i][c]
  {
    seq(|M|, i requires 0 <= i < |M| => M[i][c])
  }

  /** `np.sum(M, axis=0)`. */
  function ColumnSums(M: Matrix, p: nat): (s: Vector)
    requires Rect(M, p)
    ensures |s| == p
  {
    seq(p, c requires 0 <= c < p => Sum(Column(M, c)))
  }

  /** `np.sum(M, axis=1)`. */
  function RowSums(M: Matrix): (s: Vector)
    ensures |s| == |M|
    ensures forall i :: 0 <= i < |M| ==> s[i] == Sum(M[i])
  {
    seq(|M|, i requires 0 <= i < |M| => Sum(M[i]))
  }

  /** The square of one entry. */
  function Sq(x: real): real
  {
    x * x
  }

  /** `np.square(M)`. */
  function Square(M: Matrix): (S: Matrix)
    ensures SameShape(S, M)
    ensures forall i, c :: 0 <= i < |M| && 0 <= c < |M[i]| ==> S[i][c] == Sq(M[i][c])
  {
    seq(|M|, i requires 0 <= i < |M| =>
      seq(|M[i]|, c requires 0 <= c < |M[i]| => Sq(M[i][c])))
  }

  /** `np.sum(np.square(M), axis=0)`: the sum of squares of each column. */
  function ColumnSumSquares(M: Matrix, p: nat): (s: Vector)
    requires Rect(M, p)
    ensures |s| == p
  {
    ColumnSums(Square(M), p)
  }

  /** The sum of squares of every entry of `M`. */
  function TotalSumSquares(M: Matrix): real
  {
    Sum(RowSums(Square(M)))
  }

  function Sub(A: Matrix, B: Matrix): (C: Matrix)
    requires SameShape(A, B)
    ensures SameShape(C, A)
    ensures forall i, c :: 0 <= i < |A| && 0 <= c < |A[i]| ==> C[i][c] == A[i][c] - B[i][c]
  {
    seq(|A|, i requires 0 <= i < |A| =>
      seq(|A[i]|, c requires 0 <= c < |A[i]| => A[i][c] - B[i][c]))
  }

  function Add(A: Matrix, B: Matrix): (C: Matrix)
    requires SameShape(A, B)
    ensures SameShape(C, A)
    ensures forall i, c :: 0 <= i < |A| && 0 <= c < |A[i]| ==> C[i][c] == A[i][c] + B[i][c]
  {
    seq(|A|, i requires 0 <= i < |A| =>
      seq(|A[i]|, c requires 0 <= c < |A[i]| => A[i][c] + B[i][c]))
  }

  /** The rank-one matrix `t·qᵀ` (`np.dot(t, np.transpose(p))` on column vectors). */
  function Outer(t: Vector, q: Vector): (O: Matrix)
    ensures IsMatrix(O, |t|, |q|)
    ensures forall i, c :: 0 <= i < |t| && 0 <= c < |q| ==> O[i][c] == t[i] * q[c]
  {
    seq(|t|, i requires 0 <= i < |t| => seq(|q|, c requires 0 <= c < |q| => t[i] * q[c]))
  }

  /** `np.dot(R, q)` for a column vector `q`. */
  function MatVec(R: Matrix, q: Vector): (t: Vector)
    requires Rect(R, |q|)
    ensures |t| == |R|
    ensures forall i :: 0 <= i < |R| ==> t[i] == Dot(R[i], q)
  {
    seq(|R|, i requires 0 <= i < |R| => Dot(R[i], q))
  }

  /** `M - v` with the row vector `v` broadcast over the rows. */
  function SubRow(M: Matrix, v: Vector): (C: Matrix)
    requires Rect(M, |v|)
    ensures IsMatrix(C, |M|, |v|)
    ensures forall i, c :: 0 <= i < |M| && 0 <= c < |v| ==> C[i][c] == M[i][c] - v[c]
  {
    seq(|M|, i requires 0 <= i < |M| => seq(|v|, c requires 0 <= c < |v| => M[i][c] - v[c]))
  }

  /** `M + v` with the row vector `v` broadcast over the rows. */
  function AddRow(M: Matrix, v: Vector): (C: Matrix)
    requires Rect(M, |v|)
    ensures IsMatrix(C, |M|, |v|)
    ensures forall i, c :: 0 <= i < |M| && 0 <= c < |v| ==> C[i][c] == M[i][c] + v[c]
  {
    seq(|M|, i requires 0 <= i < |M| => seq(|v|, c requires 0 <= c < |v| => M[i][c] + v[c]))
  }

  /** `M * v`: column `c` multiplied by `v[c]`. */
  function MulRow(M: Matrix, v: Vector): (C: Matrix)
    requires Rect(M, |v|)
    ensures IsMatrix(C, |M|, |v|)
    ensures forall i, c :: 0 <= i < |M| && 0 <= c < |v| ==> C[i][c] == M[i][c] * v[c]
  {
    seq(|M|, i requires 0 <= i < |M| => seq(|v|, c requires 0 <= c < |v| => M[i][c] * v[c]))
  }

  /** `M / v`: column `c` divided by `v[c]`. */
  function DivRow(M: Matrix, v: Vector): (C: Matrix)
    requires Rect(M, |v|) && NonZero(v)
    ensures IsMatrix(C, |M|, |v|)
    ensures forall i, c :: 0 <= i < |M| && 0 <= c < |v| ==> C[i][c] == M[i][c] / v[c]
  {
    seq(|M|, i requires 0 <= i < |M| => seq(|v|, c requires 0 <= c < |v| => M[i][c] / v[c]))
  }

  /** `x * v`. */
  function Scale(x: real, v: Vector): (w: Vector)
    ensures |w| == |v|
    ensures forall j :: 0 <= j < |v| ==> w[j] == x * v[j]
  {
    seq(|v|, j requires 0 <= j < |v| => x * v[j])
  }

  /** Every entry of `A` is `x` times the entry of `B` in the same place. */
  predicate ScaledBy(A: Matrix, B: Matrix, x: real)
  {
    SameShape(A, B) && forall i :: 0 <= i < |A| ==> forall j :: 0 <= j < |A[i]| ==> A[i][j] == x * B[i][j]
  }

  /** Column `c` of `A` is `x` times column `c` of `B`. */
  predicate ColumnScaledBy(A: Matrix, B: Matrix, c: nat, x: real)
  {
    |A| == |B| && forall i :: 0 <= i < |A| ==> c < |A[i]| && c < |B[i]| && A[i][c] == x * B[i][c]
  }

  /** Column `c` of `A` differs from column `c` of `B` wherever the latter
      is non-zero. */
  predicate ColumnDiffersWhereNonZero(A: Matrix, B: Matrix, c: nat)
  {
    |A| == |B| && forall i :: 0 <= i < |A| && c < |A[i]| && c < |B[i]| && B[i][c] != 0.0 ==> A[i][c] != B[i][c]
  }

  /** `np.dot(A, np.transpose(B))` for matrices with `k` columns each. */
  function MulTranspose(A: Matrix, B: Matrix, k: nat): (M: Matrix)
    requires Rect(A, k) && Rect(B, k)
    ensures IsMatrix(M, |A|, |B|)
    ensures forall r, c :: 0 <= r < |A| && 0 <= c < |B| ==> M[r][c] == Dot(A[r], B[c])
  {
    seq(|A|, r requires 0 <= r < |A| => seq(|B|, c requires 0 <= c < |B| => Dot(A[r], B[c])))
  }

  /** `np.vstack(blocks)`: the rows of every block, block after block. */
  function Stack(blocks: seq<Matrix>): (S: Matrix)
  {
    if |blocks| == 0 then [] else Stack(blocks[..|blocks| - 1]) + blocks[|blocks| - 1]
  }

  /** `np.hstack` of column vectors of length `n`: an n×|cols| matrix. */
  function HStack(cols: seq<Vector>, n: nat): (M: Matrix)
    requires forall j :: 0 <= j < |cols| ==> |cols[j]| == n
    ensures IsMatrix(M, n, |cols|)
    ensures forall i, j :: 0 <= i < n && 0 <= j < |cols| ==> M[i][j] == cols[j][i]
  {
    seq(n, i requires 0 <= i < n => seq(|cols|, j requires 0 <= j < |cols| => cols[j][i]))
  }

  // ---------------------------------------------------------------------------
  // Lemmas
  // ---------------------------------------------------------------------------

  /** Two matrices of one shape that agree entry by entry are equal. */
  lemma MatrixExt(A: Matrix, B: Matrix)
    requires SameShape(A, B)
    requires forall i, c :: 0 <= i < |A| && 0 <= c < |A[i]| ==> A[i][c] == B[i][c]
    ensures A == B
  {
    assert forall i :: 0 <= i < |A| ==> A[i] == B[i];
  }

  lemma {:induction false} SumToLinear(a: Vector, b: Vector, s: Vector, x: real, y: real, k: nat)
    requires |a| == |s| && |b| == |s| && k <= |s|
    requires forall j :: 0 <= j < |s| ==> s[j] == x * a[j] + y * b[j]
    ensures SumTo(s, k) == x * SumTo(a, k) + y * SumTo(b, k)
  {
    if k > 0 {
      SumToLinear(a, b, s, x, y, k - 1);
    }
  }

  /** Summation is linear: if `s = x·a + y·b` entrywise then `Σs = x·Σa + y·Σb`. */
  lemma SumLinear(a: Vector, b: Vector, s: Vector, x: real, y: real)
    requires |a| == |s| && |b| == |s|
    requires forall j :: 0 <= j < |s| ==> s[j] == x * a[j] + y * b[j]
    ensures Sum(s) == x * Sum(a) + y * Sum(b)
  {
    SumToLinear(a, b, s, x, y, |s|);
  }

  /** Scaling every entry by `x` scales the sum by `x`. */
  lemma SumScaled(a: Vector, s: Vector, x: real)
    requires |a| == |s|
    requires forall j :: 0 <= j < |s| ==> s[j] == x * a[j]
    ensures Sum(s) == x * Sum(a)
  {
    SumLinear(a, a, s, x, 0.0);
  }

  /** Scaling one factor of a dot product by `x` scales the product by `x`. */
  lemma DotScaled(b: Vector, q: Vector, x: real)
    requires |b| == |q|
    ensures Dot(Scale(x, b), q) == x * Dot(b, q)
  {
    SumScaled(Hadamard(b, q), Hadamard(Scale(x, b), q), x);
  }

  lemma {:induction false} SumToShift(a: Vector, s: Vector, x: real, k: nat)
    requires |a| == |s| && k <= |s|
    requires forall j :: 0 <= j < |s| ==> s[j] == a[j] + x
    ensures SumTo(s, k) == SumTo(a, k) + k as real * x
  {
    if k > 0 {
      SumToShift(a, s, x, k - 1);
    }
  }

  /** Adding `x` to every entry adds `|a|·x` to the sum. */
  lemma SumShift(a: Vector, s: Vector, x: real)
    requires |a| == |s|
    requires forall j :: 0 <= j < |s| ==> s[j] == a[j] + x
    ensures Sum(s) == Sum(a) + |a| as real * x
  {
    SumToShift(a, s, x, |s|);
  }

  lemma {:induction false} SumToNonNegative(v: Vector, k: nat)
    requires k <= |v|
    requires forall j :: 0 <= j < |v| ==> 0.0 <= v[j]
    ensures 0.0 <= SumTo(v, k)
    ensures forall j :: 0 <= j < k ==> v[j] <= SumTo(v, k)
  {
    if k > 0 {
      SumToNonNegative(v, k - 1);
    }
  }

  /** Prefix sums only look at the prefix. */
  lemma {:induction false} SumToAgree(a: Vector, b: Vector, k: nat)
    requires k <= |a| && k <= |b|
    requires forall j :: 0 <= j < k ==> a[j] == b[j]
    ensures SumTo(a, k) == SumTo(b, k)
  {
    if k > 0 {
      SumToAgree(a, b, k - 1);
    }
  }

  /** A sum of non-negative entries is non-negative and bounds each entry. */
  lemma SumNonNegative(v: Vector)
    requires forall j :: 0 <= j < |v| ==> 0.0 <= v[j]
    ensures 0.0 <= Sum(v)
    ensures forall j :: 0 <= j < |v| ==> v[j] <= Sum(v)
  {
    SumToNonNegative(v, |v|);
  }

  /** Summation is monotone: `a <= b` entry by entry gives `Σa <= Σb`. */
  lemma SumMonotone(a: Vector, b: Vector)
    requires |a| == |b| && forall j :: 0 <= j < |a| ==> a[j] <= b[j]
    ensures Sum(a) <= Sum(b)
  {
    var d := seq(|a|, j requires 0 <= j < |a| => 1.0 * b[j] + (-1.0) * a[j]);
    SumLinear(b, a, d, 1.0, -1.0);
    SumNonNegative(d);
  }

  lemma {:induction false} SumToAtMost(v: Vector, hi: real, k: nat)
    requires k <= |v| && forall j :: 0 <= j < |v| ==> v[j] <= hi
    ensures SumTo(v, k) <= k as real * hi
  {
    if k > 0 {
      SumToAtMost(v, hi, k - 1);
    }
  }

  /** Entries that are at most `hi` sum to at most `|v|·hi`. */
  lemma SumAtMost(v: Vector, hi: real)
    requires forall j :: 0 <= j < |v| ==> v[j] <= hi
    ensures Sum(v) <= |v| as real * hi
  {
    SumToAtMost(v, hi, |v|);
  }

  lemma {:induction false} ColumnPrefixSums(M: Matrix, p: nat, k: nat)
    requires Rect(M, p) && k <= |M|
    ensures Sum(seq(p, c requires 0 <= c < p => SumTo(Column(M, c), k))) == SumTo(RowSums(M), k)
  {
    var now := seq(p, c requires 0 <= c < p => SumTo(Column(M, c), k));
    if k == 0 {
      SumScaled(now, now, 0.0);
    } else {
      ColumnPrefixSums(M, p, k - 1);
      var before := seq(p, c requires 0 <= c < p => SumTo(Column(M, c), k - 1));
      SumLinear(before, M[k - 1], now, 1.0, 1.0);
    }
  }

  /** Summing the column sums gives the same total as summing the row sums. */
  lemma SumOfColumnSums(M: Matrix, p: nat)
    requires Rect(M, p)
    ensures Sum(ColumnSums(M, p)) == Sum(RowSums(M))
  {
    ColumnPrefixSums(M, p, |M|);
    assert ColumnSums(M, p) == seq(p, c requires 0 <= c < p => SumTo(Column(M, c), |M|));
  }

  /** The column sums of `A - B` are the differences of the column sums. */
  lemma ColumnSumsSub(A: Matrix, B: Matrix, p: nat)
    requires Rect(A, p) && SameShape(A, B)
    ensures Rect(Sub(A, B), p) && Rect(B, p)
    ensures forall c :: 0 <= c < p ==> ColumnSums(Sub(A, B), p)[c] == ColumnSums(A, p)[c] - ColumnSums(B, p)[c]
  {
    forall c | 0 <= c < p
      ensures ColumnSums(Sub(A, B), p)[c] == ColumnSums(A, p)[c] - ColumnSums(B, p)[c]
    {
      SumLinear(Column(A, c), Column(B, c), Column(Sub(A, B), c), 1.0, -1.0);
    }
  }

  /** The column sums of `A + B` are the sums of the column sums. */
  lemma ColumnSumsAdd(A: Matrix, B: Matrix, p: nat)
    requires Rect(A, p) && SameShape(A, B)
    ensures Rect(Add(A, B), p) && Rect(B, p)
    ensures forall c :: 0 <= c < p ==> ColumnSums(Add(A, B), p)[c] == ColumnSums(A, p)[c] + ColumnSums(B, p)[c]
  {
    forall c | 0 <= c < p
      ensures ColumnSums(Add(A, B), p)[c] == ColumnSums(A, p)[c] + ColumnSums(B, p)[c]
    {
      SumLinear(Column(A, c), Column(B, c), Column(Add(A, B), c), 1.0, 1.0);
    }
  }

  /** Subtracting a broadcast row `v` lowers column sum `c` by `|M|·v[c]`. */
  lemma ColumnSumsSubRow(M: Matrix, v: Vector)
    requires Rect(M, |v|)
    ensures forall c :: 0 <= c < |v| ==> ColumnSums(SubRow(M, v), |v|)[c] == ColumnSums(M, |v|)[c] - |M| as real * v[c]
  {
    forall c | 0 <= c < |v|
      ensures ColumnSums(SubRow(M, v), |v|)[c] == ColumnSums(M, |v|)[c] - |M| as real * v[c]
    {
      SumShift(Column(M, c), Column(SubRow(M, v), c), -v[c]);
    }
  }

  /** Adding a broadcast row `v` raises column sum `c` by `|M|·v[c]`. */
  lemma ColumnSumsAddRow(M: Matrix, v: Vector)
    requires Rect(M, |v|)
    ensures forall c :: 0 <= c < |v| ==> ColumnSums(AddRow(M, v), |v|)[c] == ColumnSums(M, |v|)[c] + |M| as real * v[c]
  {
    forall c | 0 <= c < |v|
      ensures ColumnSums(AddRow(M, v), |v|)[c] == ColumnSums(M, |v|)[c] + |M| as real * v[c]
    {
      SumShift(Column(M, c), Column(AddRow(M, v), c), v[c]);
    }
  }

  /** Scaling column `c` by `v[c]` scales its sum by `v[c]`. */
  lemma ColumnSumsMulRow(M: Matrix, v: Vector)
    requires Rect(M, |v|)
    ensures forall c :: 0 <= c < |v| ==> ColumnSums(MulRow(M, v), |v|)[c] == v[c] * ColumnSums(M, |v|)[c]
  {
    forall c | 0 <= c < |v|
      ensures ColumnSums(MulRow(M, v), |v|)[c] == v[c] * ColumnSums(M, |v|)[c]
    {
      SumScaled(Column(M, c), Column(MulRow(M, v), c), v[c]);
    }
  }

  /** Dividing column `c` by `v[c]` divides its sum by `v[c]`. */
  lemma ColumnSumsDivRow(M: Matrix, v: Vector)
    requires Rect(M, |v|) && NonZero(v)
    ensures forall c :: 0 <= c < |v| ==> ColumnSums(DivRow(M, v), |v|)[c] == ColumnSums(M, |v|)[c] / v[c]
  {
    forall c | 0 <= c < |v|
      ensures ColumnSums(DivRow(M, v), |v|)[c] == ColumnSums(M, |v|)[c] / v[c]
    {
      SumScaled(Column(M, c), Column(DivRow(M, v), c), 1.0 / v[c]);
    }
  }

  /** Column `c` of `t·qᵀ` sums to `Σt · q[c]`. */
  lemma ColumnSumsOuter(t: Vector, q: Vector)
    ensures forall c :: 0 <= c < |q| ==> ColumnSums(Outer(t, q), |q|)[c] == Sum(t) * q[c]
  {
    forall c | 0 <= c < |q|
      ensures ColumnSums(Outer(t, q), |q|)[c] == Sum(t) * q[c]
    {
      SumScaled(t, Column(Outer(t, q), c), q[c]);
    }
  }

  /** The difference of two column-centred matrices is column-centred, and
      subtracting it from the first gives back the second. */
  lemma DifferenceOfCentred(X: Matrix, E: Matrix, p: nat)
    requires IsMatrix(X, |X|, p) && IsMatrix(E, |X|, p)
    requires forall c :: 0 <= c < p ==> ColumnSums(X, p)[c] == 0.0
    requires forall c :: 0 <= c < p ==> ColumnSums(E, p)[c] == 0.0
    ensures forall c :: 0 <= c < p ==> ColumnSums(Sub(X, E), p)[c] == 0.0
    ensures Sub(X, Sub(X, E)) == E
  {
    ColumnSumsSub(X, E, p);
    MatrixExt(Sub(X, Sub(X, E)), E);
  }

  /** `Σᵢ (R·q)ᵢ = (column sums of R)·q`. */
  lemma SumMatVec(R: Matrix, q: Vector)
    requires Rect(R, |q|)
    ensures Sum(MatVec(R, q)) == Dot(ColumnSums(R, |q|), q)
  {
    var W := MulRow(R, q);
    SumOfColumnSums(W, |q|);
    ColumnSumsMulRow(R, q);
    assert RowSums(W) == MatVec(R, q) by {
      forall i | 0 <= i < |R| ensures W[i] == Hadamard(R[i], q) { }
    }
    assert ColumnSums(W, |q|) == Hadamard(ColumnSums(R, |q|), q);
  }

  /** The total sum of squares is also the sum of the column sums of squares. */
  lemma TotalSumSquaresByColumns(M: Matrix, p: nat)
    requires Rect(M, p)
    ensures Sum(ColumnSumSquares(M, p)) == TotalSumSquares(M)
  {
    SumOfColumnSums(Square(M), p);
  }

  /** Every column sum of squares is non-negative. */
  lemma ColumnSumSquaresNonNegative(M: Matrix, p: nat)
    requires Rect(M, p)
    ensures forall c :: 0 <= c < p ==> 0.0 <= ColumnSumSquares(M, p)[c]
  {
    forall c | 0 <= c < p ensures 0.0 <= ColumnSumSquares(M, p)[c] {
      var col := Column(Square(M), c);
      forall j | 0 <= j < |col| ensures 0.0 <= col[j] {
        SquareNonNegative(M[j][c]);
      }
      SumNonNegative(col);
    }
  }

  /** A product of two positive reals is positive. */
  lemma MulPositive(a: real, b: real, y: real)
    requires 0.0 < a && 0.0 < b && y == a * b
    ensures 0.0 < y
  {
  }

  /** The square of a non-zero real is positive. */
  lemma SquarePositive(x: real)
    requires x != 0.0
    ensures 0.0 < Sq(x)
  {
    if x < 0.0 {
      MulPositive(-x, -x, Sq(x));
    } else {
      MulPositive(x, x, Sq(x));
    }
  }

  /** Every square is non-negative. */
  lemma SquareNonNegative(x: real)
    ensures 0.0 <= Sq(x)
  {
    if x != 0.0 {
      SquarePositive(x);
    }
  }

  /** A column with a non-zero entry has a positive sum of squares. */
  lemma ColumnSumSquaresPositive(M: Matrix, p: nat, c: nat, i: nat)
    requires Rect(M, p) && c < p && i < |M| && M[i][c] != 0.0
    ensures 0.0 < ColumnSumSquares(M, p)[c]
  {
    var col := Column(Square(M), c);
    forall j | 0 <= j < |col| ensures 0.0 <= col[j] {
      SquareNonNegative(M[j][c]);
    }
    SumNonNegative(col);
    SquarePositive(M[i][c]);
  }

  /** Multiplying column `c` by `s[c]` multiplies its sum of squares by the
      square of `s[c]`. */
  lemma ColumnSumSquaresMulRow(M: Matrix, s: Vector, c: nat)
    requires Rect(M, |s|) && c < |s|
    ensures ColumnSumSquares(MulRow(M, s), |s|)[c] == Sq(s[c]) * ColumnSumSquares(M, |s|)[c]
  {
    var W := MulRow(M, s);
    forall i | 0 <= i < |M|
      ensures Column(Square(W), c)[i] == Sq(s[c]) * Column(Square(M), c)[i]
    {
      assert Sq(M[i][c] * s[c]) == Sq(s[c]) * Sq(M[i][c]);
    }
    SumScaled(Column(Square(M), c), Column(Square(W), c), Sq(s[c]));
  }

  /** `Stack` keeps every row: its length is the total of the blocks' lengths. */
  function TotalRows(blocks: seq<Matrix>): nat
  {
    if |blocks| == 0 then 0 else TotalRows(blocks[..|blocks| - 1]) + |blocks[|blocks| - 1]|
  }

  lemma {:induction false} StackRows(blocks: seq<Matrix>, p: nat)
    requires forall b :: 0 <= b < |blocks| ==> Rect(blocks[b], p)
    ensures |Stack(blocks)| == TotalRows(blocks)
    ensures Rect(Stack(blocks), p)
  {
    if |blocks| > 0 {
      StackRows(blocks[..|blocks| - 1], p);
    }
  }

  /** Row `i` of block `b` sits in the stack after the rows of every earlier
      block. */
  lemma {:induction false} StackIndex(blocks: seq<Matrix>, p: nat, b: nat, i: nat)
    requires forall b' :: 0 <= b' < |blocks| ==> Rect(blocks[b'], p)
    requires b < |blocks| && i < |blocks[b]|
    ensures TotalRows(blocks[..b]) + i < |Stack(blocks)|
    ensures Stack(blocks)[TotalRows(blocks[..b]) + i] == blocks[b][i]
  {
    var init := blocks[..|blocks| - 1];
    StackRows(init, p);
    if b == |blocks| - 1 {
      assert blocks[..b] == init;
    } else {
      assert init[..b] == blocks[..b];
      StackIndex(init, p, b, i);
    }
  }

  /** Stacks of blocks with the same row counts have the same row counts up
      to every block. */
  lemma {:induction false} TotalRowsAgree(A: seq<Matrix>, B: seq<Matrix>)
    requires |A| == |B| && forall b :: 0 <= b < |A| ==> |A[b]| == |B[b]|
    ensures TotalRows(A) == TotalRows(B)
  {
    if |A| > 0 {
      TotalRowsAgree(A[..|A| - 1], B[..|B| - 1]);
    }
  }

  /** Stacks of blocks with the same row counts agree on a row where the
      blocks it comes from agree. */
  lemma StackRowsAgree(A: seq<Matrix>, B: seq<Matrix>, p: nat, b: nat, i: nat)
    requires forall b' :: 0 <= b' < |A| ==> Rect(A[b'], p)
    requires forall b' :: 0 <= b' < |B| ==> Rect(B[b'], p)
    requires |A| == |B| && forall b' :: 0 <= b' < |A| ==> |A[b']| == |B[b']|
    requires b < |A| && i < |A[b]| && A[b][i] == B[b][i]
    ensures TotalRows(A[..b]) == TotalRows(B[..b])
    ensures TotalRows(A[..b]) + i < |Stack(A)| && TotalRows(A[..b]) + i < |Stack(B)|
    ensures Stack(A)[TotalRows(A[..b]) + i] == Stack(B)[TotalRows(A[..b]) + i]
  {
    TotalRowsAgree(A[..b], B[..b]);
    StackIndex(A, p, b, i);
    StackIndex(B, p, b, i);
  }

  /** Column `j` of the hstacked columns is `cols[j]`. */
  lemma HStackColumns(cols: seq<Vector>, n: nat)
    requires forall j :: 0 <= j < |cols| ==> |cols[j]| == n
    ensures forall j :: 0 <= j < |cols| ==> Column(HStack(cols, n), j) == cols[j]
  {
    var M := HStack(cols, n);
    forall j | 0 <= j < |cols| ensures Column(M, j) == cols[j] {
      assert forall i :: 0 <= i < n ==> Column(M, j)[i] == cols[j][i];
    }
  }
}
