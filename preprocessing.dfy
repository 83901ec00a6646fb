/** Column centring and standardisation (hoggorm/pca.py lines 92-99 for the
    whole data set, lines 370-385 for a cross-validation fold), and the column
    centring `statTools.centre` that the statistics use. */
module Preprocessing {
  import opened Wrappers
  import opened Linalg

  /** `np.average(X, axis=0)`; each mean times the row count is the column sum. */
  function ColumnMeans(X: Matrix, p: nat): (m: Vector)
    requires Rect(X, p) && |X| > 0
    ensures |m| == p
    ensures forall c :: 0 <= c < p ==> m[c] * |X| as real == ColumnSums(X, p)[c]
  {
    seq(p, c requires 0 <= c < p => ColumnSums(X, p)[c] / |X| as real)
  }

  /** Column centring: every column of the result sums to zero. */
  function Centre(X: Matrix, p: nat): (C: Matrix)
    requires Rect(X, p) && |X| > 0
    ensures IsMatrix(C, |X|, p)
    ensures forall c :: 0 <= c < p ==> ColumnSums(C, p)[c] == 0.0
  {
    var m := ColumnMeans(X, p);
    ColumnSumsSubRow(X, m);
    SubRow(X, m)
  }

  /** `np.var(X, axis=0, ddof=1)`: squared deviations from the column mean,
      summed and divided by n - 1. */
  function SampleVariances(X: Matrix, p: nat): (v: Vector)
    requires Rect(X, p) && |X| >= 2
    ensures |v| == p
    ensures forall c :: 0 <= c < p ==> 0.0 <= v[c]
    ensures forall c :: 0 <= c < p ==> v[c] * (|X| - 1) as real == ColumnSumSquares(Centre(X, p), p)[c]
  {
    ColumnSumSquaresNonNegative(Centre(X, p), p);
    seq(p, c requires 0 <= c < p => ColumnSumSquares(Centre(X, p), p)[c] / (|X| - 1) as real)
  }

  /** `sqrt` is a square root on the non-negative reals. */
  ghost predicate IsSqrt(sqrt: real -> real)
  {
    forall v: real :: 0.0 <= v ==> 0.0 <= sqrt(v) && sqrt(v) * sqrt(v) == v
  }

  /** `np.std(X, axis=0, ddof=1)`: the square root of each sample variance. */
  function StdDevs(X: Matrix, p: nat, sqrt: real -> real): (s: Vector)
    requires Rect(X, p) && |X| >= 2 && IsSqrt(sqrt)
    ensures |s| == p
    ensures forall c :: 0 <= c < p ==> 0.0 <= s[c] && s[c] * s[c] == SampleVariances(X, p)[c]
  {
    var v := SampleVariances(X, p);
    seq(p, c requires 0 <= c < p => sqrt(v[c]))
  }

  /** Column `c` holds two different values. */
  predicate ColumnVaries(X: Matrix, p: nat, c: nat)
    requires Rect(X, p) && c < p
  {
    exists i, k :: 0 <= i < |X| && 0 <= k < |X| && X[i][c] != X[k][c]
  }

  /** No column holds one value in every row. */
  predicate NoConstantColumn(X: Matrix, p: nat)
    requires Rect(X, p)
  {
    forall c :: 0 <= c < p ==> ColumnVaries(X, p, c)
  }

  /** What the preprocessing of the source needs to avoid dividing by zero:
      rows to average over and, when standardising, a non-zero standard
      deviation in every column. */
  predicate Fittable(X: Matrix, p: nat, xstand: bool)
  {
    Rect(X, p) && |X| > 0 && (xstand ==> |X| >= 2 && NoConstantColumn(X, p))
  }

  /** A column that is not constant has a positive centred sum of squares. */
  lemma SpreadOfNonConstantColumn(X: Matrix, p: nat, c: nat)
    requires Rect(X, p) && |X| > 0 && c < p
    requires ColumnVaries(X, p, c)
    ensures 0.0 < ColumnSumSquares(Centre(X, p), p)[c]
  {
    var m := ColumnMeans(X, p);
    var C := Centre(X, p);
    assert C == SubRow(X, m);
    var i, k :| 0 <= i < |X| && 0 <= k < |X| && X[i][c] != X[k][c];
    var j := if X[i][c] != m[c] then i else k;
    assert C[j][c] != 0.0;
    ColumnSumSquaresPositive(C, p, c, j);
  }

  /** A constant column has no spread: its centred sum of squares is zero. */
  lemma ConstantColumnHasNoSpread(X: Matrix, p: nat, c: nat)
    requires Rect(X, p) && |X| > 0 && c < p
    requires !ColumnVaries(X, p, c)
    ensures ColumnSumSquares(Centre(X, p), p)[c] == 0.0
  {
    var n := |X| as real;
    var a := X[0][c];
    var z: Vector := seq(|X|, i => 0.0);
    SumScaled(z, z, 0.0);
    SumShift(z, Column(X, c), a);
    var m := ColumnMeans(X, p);
    assert (m[c] - a) * n == 0.0;
    var C := Centre(X, p);
    assert C == SubRow(X, m);
    SumScaled(z, Column(Square(C), c), 0.0);
  }

  /** Standardising needs this: with no constant column every sample variance,
      and so every standard deviation, is positive. */
  lemma PositiveStdDevs(X: Matrix, p: nat, sqrt: real -> real)
    requires Fittable(X, p, true) && IsSqrt(sqrt)
    ensures forall c :: 0 <= c < p ==> 0.0 < SampleVariances(X, p)[c]
    ensures NonZero(StdDevs(X, p, sqrt))
  {
    forall c | 0 <= c < p ensures 0.0 < SampleVariances(X, p)[c] {
      SpreadOfNonConstantColumn(X, p, c);
    }
  }

  /** `np.average(X)` with no axis: the mean of every entry; times the
      number of entries it is the sum of the column sums. */
  function WholeMean(X: Matrix, p: nat): (m: real)
    requires Rect(X, p) && |X| > 0 && p > 0
    ensures m * (|X| * p) as real == Sum(ColumnSums(X, p))
  {
    Sum(ColumnSums(X, p)) / (|X| * p) as real
  }

  /** `X` with the mean of every entry subtracted from each entry. */
  function WholeCentre(X: Matrix, p: nat): (D: Matrix)
    requires Rect(X, p) && |X| > 0 && p > 0
    ensures IsMatrix(D, |X|, p)
    ensures forall i, c :: 0 <= i < |X| && 0 <= c < p ==> D[i][c] == X[i][c] - WholeMean(X, p)
  {
    var m := WholeMean(X, p);
    SubRow(X, seq(p, c => m))
  }

  /** `np.var(X, ddof=1)` with no axis: the sample variance of all entries
      taken together; times one less than the number of entries it is their
      centred sum of squares. */
  function WholeVariance(X: Matrix, p: nat): (v: real)
    requires Rect(X, p) && |X| >= 2 && p > 0
    ensures 0.0 <= v
    ensures v * (|X| * p - 1) as real == TotalSumSquares(WholeCentre(X, p))
  {
    var D := WholeCentre(X, p);
    ColumnSumSquaresNonNegative(D, p);
    SumNonNegative(ColumnSumSquares(D, p));
    TotalSumSquaresByColumns(D, p);
    TotalSumSquares(D) / (|X| * p - 1) as real
  }

  /** With no constant column the entries are not all equal, so their
      sample variance is positive. */
  lemma WholeVariancePositive(X: Matrix, p: nat)
    requires Rect(X, p) && |X| >= 2 && p > 0 && NoConstantColumn(X, p)
    ensures 0.0 < WholeVariance(X, p)
  {
    var D := WholeCentre(X, p);
    WholeSpreadPositive(X, p, D);
    NonNegativeOfProduct(WholeVariance(X, p), (|X| * p - 1) as real, TotalSumSquares(D));
  }

  /** A non-negative `v` whose product with `m` is positive is positive. */
  lemma NonNegativeOfProduct(v: real, m: real, t: real)
    requires 0.0 <= v && v * m == t && 0.0 < t
    ensures 0.0 < v
  {
    assert v == 0.0 ==> t == 0.0;
  }

  /** With no constant column some entry differs from the mean of all
      entries, so the centred entries have a positive sum of squares. */
  lemma WholeSpreadPositive(X: Matrix, p: nat, D: Matrix)
    requires Rect(X, p) && |X| >= 2 && p > 0 && NoConstantColumn(X, p)
    requires D == WholeCentre(X, p)
    ensures 0.0 < TotalSumSquares(D)
  {
    var m := WholeMean(X, p);
    assert ColumnVaries(X, p, 0);
    var i, k :| 0 <= i < |X| && 0 <= k < |X| && X[i][0] != X[k][0];
    var j := if X[i][0] != m then i else k;
    assert D[j][0] != 0.0;
    ColumnSumSquaresPositive(D, p, 0, j);
    ColumnSumSquaresNonNegative(D, p);
    SumNonNegative(ColumnSumSquares(D, p));
    TotalSumSquaresByColumns(D, p);
  }

  /** `np.std(X, ddof=1)` with no axis: one standard deviation for all
      entries taken together. */
  function WholeStd(X: Matrix, p: nat, sqrt: real -> real): (s: real)
    requires Rect(X, p) && |X| >= 2 && p > 0 && IsSqrt(sqrt)
    ensures 0.0 <= s && s * s == WholeVariance(X, p)
  {
    sqrt(WholeVariance(X, p))
  }

  /** The preprocessing parameters: column means, and the column standard
      deviations when standardising (`Xstd` does not exist otherwise). */
  datatype Params = Params(means: Vector, std: Option<Vector>)

  predicate Usable(P: Params, p: nat)
  {
    |P.means| == p && (P.std.Some? ==> |P.std.value| == p && NonZero(P.std.value))
  }

  /** The parameters computed from `X` alone (lines 94-95 and 98; lines
      372-373 and 380 for the training rows of a fold). */
  function FitParams(X: Matrix, p: nat, xstand: bool, sqrt: real -> real): (P: Params)
    requires Fittable(X, p, xstand) && IsSqrt(sqrt)
    ensures FittedTo(P, X, p)
    ensures P.std.Some? <==> xstand
  {
    if xstand then
      PositiveStdDevs(X, p, sqrt);
      Params(ColumnMeans(X, p), Some(StdDevs(X, p, sqrt)))
    else
      Params(ColumnMeans(X, p), None)
  }

  /** `(M - means) / std` when standardising, `M - means` otherwise
      (lines 96, 99, 374, 377, 381 and 384). */
  function Apply(M: Matrix, P: Params, p: nat): (A: Matrix)
    requires Usable(P, p) && Rect(M, p)
    ensures IsMatrix(A, |M|, p)
  {
    if P.std.Some? then DivRow(SubRow(M, P.means), P.std.value) else SubRow(M, P.means)
  }

  /** `M * std + means` when standardising, `M + means` otherwise: the
      way back to the units of the input (lines 172-175, 201-204, 452-456). */
  function Restore(M: Matrix, P: Params, p: nat): (R: Matrix)
    requires Usable(P, p) && Rect(M, p)
    ensures IsMatrix(R, |M|, p)
  {
    if P.std.Some? then AddRow(MulRow(M, P.std.value), P.means) else AddRow(M, P.means)
  }

  /** Restoring a preprocessed matrix gives back the matrix. */
  lemma RestoreApply(M: Matrix, P: Params, p: nat)
    requires Usable(P, p) && Rect(M, p)
    ensures Restore(Apply(M, P, p), P, p) == M
  {
    MatrixExt(Restore(Apply(M, P, p), P, p), M);
  }

  /** Preprocessing a restored matrix gives back the matrix. */
  lemma ApplyRestore(M: Matrix, P: Params, p: nat)
    requires Usable(P, p) && Rect(M, p)
    ensures Apply(Restore(M, P, p), P, p) == M
  {
    MatrixExt(Apply(Restore(M, P, p), P, p), M);
  }

  /** Parameters whose means are the column means of `X`, as those fitted to
      `X` are; the scale may be any non-zero row. */
  predicate FittedTo(P: Params, X: Matrix, p: nat)
  {
    Usable(P, p) && Rect(X, p) && |X| > 0 && P.means == ColumnMeans(X, p)
  }

  /** Preprocessing with parameters fitted to the same matrix leaves every
      column summing to zero, in both modes. */
  lemma FittedColumnsSumToZero(X: Matrix, P: Params, p: nat)
    requires FittedTo(P, X, p)
    ensures forall c :: 0 <= c < p ==> ColumnSums(Apply(X, P, p), p)[c] == 0.0
  {
    assert SubRow(X, P.means) == Centre(X, p);
    if P.std.Some? {
      ColumnSumsDivRow(Centre(X, p), P.std.value);
    }
  }

  /** Centring the input gives the preprocessed input, scaled back by the
      standard deviations when standardising. */
  lemma CentredInput(X: Matrix, P: Params, p: nat)
    requires FittedTo(P, X, p)
    ensures Centre(X, p) == if P.std.Some? then MulRow(Apply(X, P, p), P.std.value) else Apply(X, P, p)
  {
    if P.std.Some? {
      MatrixExt(Centre(X, p), MulRow(Apply(X, P, p), P.std.value));
    }
  }

  /** A matrix whose columns already sum to zero is its own centring. */
  lemma CentreOfCentred(M: Matrix, p: nat)
    requires Rect(M, p) && |M| > 0
    requires forall c :: 0 <= c < p ==> ColumnSums(M, p)[c] == 0.0
    ensures Centre(M, p) == M
  {
    MatrixExt(Centre(M, p), M);
  }

  /** Centring removes a broadcast row added to a column-centred matrix. */
  lemma CentreOfShifted(M: Matrix, v: Vector)
    requires Rect(M, |v|) && |M| > 0
    requires forall c :: 0 <= c < |v| ==> ColumnSums(M, |v|)[c] == 0.0
    ensures Centre(AddRow(M, v), |v|) == M
  {
    var S := AddRow(M, v);
    var n := |M| as real;
    ColumnSumsAddRow(M, v);
    forall c | 0 <= c < |v| ensures ColumnMeans(S, |v|)[c] == v[c] {
      var m := ColumnMeans(S, |v|)[c];
      assert m * n == ColumnSums(S, |v|)[c] == n * v[c];
      CancelFactor(m, v[c], n);
    }
    MatrixExt(Centre(S, |v|), M);
  }

  /** `a·n == n·b` with `n` non-zero makes `a == b`. */
  lemma CancelFactor(a: real, b: real, n: real)
    requires n != 0.0 && a * n == n * b
    ensures a == b
  {
    assert (a - b) * n == 0.0;
  }

  /** Centring commutes with subtraction. */
  lemma CentreOfDifference(A: Matrix, B: Matrix, p: nat)
    requires IsMatrix(A, |A|, p) && IsMatrix(B, |A|, p) && |A| > 0
    ensures Centre(Sub(A, B), p) == Sub(Centre(A, p), Centre(B, p))
  {
    var n := |A| as real;
    ColumnSumsSub(A, B, p);
    forall c | 0 <= c < p
      ensures ColumnMeans(Sub(A, B), p)[c] == ColumnMeans(A, p)[c] - ColumnMeans(B, p)[c]
    {
      assert ColumnMeans(Sub(A, B), p)[c] * n == (ColumnMeans(A, p)[c] - ColumnMeans(B, p)[c]) * n;
    }
    MatrixExt(Centre(Sub(A, B), p), Sub(Centre(A, p), Centre(B, p)));
  }

  /** Dividing by `s` divides a square by the square of `s`. */
  lemma QuotientSquare(a: real, s: real)
    requires s != 0.0
    ensures Sq(s) * Sq(a / s) == Sq(a)
  {
    var q := a / s;
    assert a == s * q;
  }

  /** One column of a matrix divided entrywise by `s`: its sum of squares
      is divided by the square of `s[c]`. */
  lemma ColumnSumSquaresDivRow(C: Matrix, s: Vector, c: nat)
    requires Rect(C, |s|) && NonZero(s) && c < |s|
    ensures Sq(s[c]) * ColumnSumSquares(DivRow(C, s), |s|)[c] == ColumnSumSquares(C, |s|)[c]
  {
    var Z := DivRow(C, s);
    var a := Column(Square(C), c);
    var z := Column(Square(Z), c);
    forall i | 0 <= i < |C| ensures a[i] == Sq(s[c]) * z[i] {
      assert a[i] == Sq(C[i][c]) && z[i] == Sq(Z[i][c]) && Z[i][c] == C[i][c] / s[c];
      QuotientSquare(C[i][c], s[c]);
    }
    SumScaled(z, a, Sq(s[c]));
    assert ColumnSumSquares(Z, |s|)[c] == Sum(z) && ColumnSumSquares(C, |s|)[c] == Sum(a);
  }

  /** Standardised columns have sample variance one. */
  lemma StandardisedUnitVariance(X: Matrix, p: nat, sqrt: real -> real)
    requires Fittable(X, p, true) && IsSqrt(sqrt)
    ensures forall c :: 0 <= c < p ==> SampleVariances(Apply(X, FitParams(X, p, true, sqrt), p), p)[c] == 1.0
  {
    var P := FitParams(X, p, true, sqrt);
    var s := P.std.value;
    var Z := Apply(X, P, p);
    var C := Centre(X, p);
    PositiveStdDevs(X, p, sqrt);
    FittedColumnsSumToZero(X, P, p);
    CentreOfCentred(Z, p);
    assert Z == DivRow(C, s);
    forall c | 0 <= c < p ensures SampleVariances(Z, p)[c] == 1.0 {
      var v := SampleVariances(X, p)[c];
      var w := SampleVariances(Z, p)[c];
      var m := (|X| - 1) as real;
      ColumnSumSquaresDivRow(C, s, c);
      assert Sq(s[c]) == v;
      UnitRatio(v, w, m, ColumnSumSquares(Z, p)[c], ColumnSumSquares(C, p)[c]);
    }
  }

  /** Dividing every column by `s1` rather than by `s2`, about the same
      means, gives rows `r = s2 / s1` times as large. */
  lemma ApplyRescaled(M: Matrix, P1: Params, P2: Params, p: nat, s1: real, s2: real, r: real, i: nat)
    requires Usable(P1, p) && Usable(P2, p) && Rect(M, p) && i < |M|
    requires P1.means == P2.means && P1.std.Some? && P2.std.Some?
    requires forall c :: 0 <= c < p ==> P1.std.value[c] == s1 && P2.std.value[c] == s2
    requires s1 != 0.0 && r == s2 / s1
    ensures Apply(M, P1, p)[i] == Scale(r, Apply(M, P2, p)[i])
  {
    forall c | 0 <= c < p ensures Apply(M, P1, p)[i][c] == r * Apply(M, P2, p)[i][c] {
      RescaledQuotient(M[i][c] - P1.means[c], s1, s2, r);
    }
    var a, b := Apply(M, P1, p)[i], Scale(r, Apply(M, P2, p)[i]);
    assert |a| == p == |b|;
    assert forall c :: 0 <= c < p ==> b[c] == r * Apply(M, P2, p)[i][c];
    assert forall c :: 0 <= c < p ==> a[c] == b[c];
  }

  /** With `r = s2 / s1`, dividing by `s1` is `r` times dividing by `s2`. */
  lemma RescaledQuotient(d: real, s1: real, s2: real, r: real)
    requires s1 != 0.0 && s2 != 0.0 && r == s2 / s1
    ensures d / s1 == r * (d / s2)
  {
    assert r * s1 == s2;
    var x := d / s2;
    assert x * s2 == d;
    assert (r * x) * s1 == d;
  }

  /** If `v * A == B`, `w * m == A` and `v * m == B`, then `w` is one. */
  lemma UnitRatio(v: real, w: real, m: real, A: real, B: real)
    requires v != 0.0 && m != 0.0
    requires v * A == B && w * m == A && v * m == B
    ensures w == 1.0
  {
    assert v * (A - m) == 0.0;
    assert A == m;
    assert (w - 1.0) * m == 0.0;
  }
}
