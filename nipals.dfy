/** The NIPALS decomposition of the preprocessed data (hoggorm/pca.py lines
    67-74 and 133-180): each component is peeled off the current residual as
    the rank-one matrix `t·pᵀ`, and the scores `t`, the loadings `p` and every
    intermediate residual are recorded.

    The inner power iteration (lines 143-159) is floating-point numerics with
    no iteration bound. It is a parameter here: `extract(R)` is the loading
    the iteration settles on for the residual `R`, and the score is then
    `t = R·p`, which is what holds when the iteration exits (line 148). */
module Nipals {
  import opened Wrappers
  import opened Linalg

  /** `min(np.shape(arrX))`. */
  function MaxComponents(n: nat, p: nat): nat
  {
    if n < p then n else p
  }

  /** The number of components (lines 67-74): `min(n, p)` when none is
      requested, otherwise the request, capped at `min(n, p)`. A request below
      one is kept; the decomposition then fails (see `Pca`). */
  function ChooseNumPC(n: nat, p: nat, requested: Option<int>): (k: int)
    ensures k <= MaxComponents(n, p)
    ensures k == MaxComponents(n, p) <==> requested.None? || requested.value >= MaxComponents(n, p)
    ensures requested.Some? && requested.value <= MaxComponents(n, p) ==> k == requested.value
  {
    match requested
    case None => MaxComponents(n, p)
    case Some(r) => if r > MaxComponents(n, p) then MaxComponents(n, p) else r
  }

  /** The extractor returns a loading with one entry per variable. */
  ghost predicate LoadingsFit(extract: Matrix -> Vector, p: nat)
  {
    forall R: Matrix :: |extract(R)| == p
  }

  /** Every loading the extractor returns has unit length, as `num / denom`
      with `denom = npla.norm(num)` has (lines 144-147) whenever `num` is not
      zero. Only the lemmas that need it assume it. */
  ghost predicate UnitLoadings(extract: Matrix -> Vector, p: nat)
    requires LoadingsFit(extract, p)
  {
    forall R: Matrix :: Dot(extract(R), extract(R)) == 1.0
  }

  /** `q` is a fixed point of the power iteration on `R` (lines 143-151):
      with `t = R·q`, the next `num = Rᵀ·t` is `(t·t)·q`, column by column
      `Column(R, c)·t == (t·t)·q[c]`. A unit `q` with `t_new == t` is one. */
  ghost predicate SettledAt(R: Matrix, q: Vector)
    requires Rect(R, |q|)
  {
    forall c :: 0 <= c < |q| ==> Dot(Column(R, c), MatVec(R, q)) == Dot(MatVec(R, q), MatVec(R, q)) * q[c]
  }

  /** Every loading the extractor returns is where the iteration has
      settled. Only the lemmas that need it assume it. */
  ghost predicate SettledLoadings(extract: Matrix -> Vector, p: nat)
    requires LoadingsFit(extract, p)
  {
    forall R: Matrix :: Rect(R, p) ==> SettledAt(R, extract(R))
  }

  /** One deflation step (lines 163-165): `X_new = X_old - t·pᵀ`. */
  function Deflate(R: Matrix, t: Vector, q: Vector): (E: Matrix)
    requires Rect(R, |q|) && |t| == |R|
    ensures IsMatrix(E, |R|, |q|)
    ensures forall i, c :: 0 <= i < |R| && 0 <= c < |q| ==> E[i][c] == R[i][c] - t[i] * q[c]
  {
    Sub(R, Outer(t, q))
  }

  /** The residual after `j` components: `X_residualsDict[j]` for `j >= 1`,
      and the preprocessed data itself for `j == 0`. */
  function Residual(extract: Matrix -> Vector, X: Matrix, p: nat, j: nat): (E: Matrix)
    requires Rect(X, p) && LoadingsFit(extract, p)
    ensures IsMatrix(E, |X|, p)
    decreases j, 0
  {
    if j == 0 then X
    else Deflate(Residual(extract, X, p, j - 1), Score(extract, X, p, j - 1), Loading(extract, X, p, j - 1))
  }

  /** Loading `j`: what the power iteration settles on for residual `j`. */
  function Loading(extract: Matrix -> Vector, X: Matrix, p: nat, j: nat): (q: Vector)
    requires Rect(X, p) && LoadingsFit(extract, p)
    ensures |q| == p
    decreases j, 1
  {
    extract(Residual(extract, X, p, j))
  }

  /** Score `j`: residual `j` times loading `j` (line 148). */
  function Score(extract: Matrix -> Vector, X: Matrix, p: nat, j: nat): (t: Vector)
    requires Rect(X, p) && LoadingsFit(extract, p)
    ensures |t| == |X|
    decreases j, 2
  {
    MatVec(Residual(extract, X, p, j), Loading(extract, X, p, j))
  }

  /** The first `k` loadings, `X_loadingsList`, one appended per component. */
  function Loadings(extract: Matrix -> Vector, X: Matrix, p: nat, k: nat): (P: seq<Vector>)
    requires Rect(X, p) && LoadingsFit(extract, p)
    ensures |P| == k
    ensures forall j :: 0 <= j < k ==> |P[j]| == p
  {
    if k == 0 then [] else Loadings(extract, X, p, k - 1) + [Loading(extract, X, p, k - 1)]
  }

  /** The first `k` scores, `X_scoresList`, one appended per component. */
  function Scores(extract: Matrix -> Vector, X: Matrix, p: nat, k: nat): (T: seq<Vector>)
    requires Rect(X, p) && LoadingsFit(extract, p)
    ensures |T| == k
    ensures forall j :: 0 <= j < k ==> |T[j]| == |X|
  {
    if k == 0 then [] else Scores(extract, X, p, k - 1) + [Score(extract, X, p, k - 1)]
  }

  /** Entry `j` of the lists is the score and loading of component `j`, and
      each score is its residual times its loading. */
  lemma {:induction false} ComponentsAt(extract: Matrix -> Vector, X: Matrix, p: nat, k: nat)
    requires Rect(X, p) && LoadingsFit(extract, p)
    ensures forall j :: 0 <= j < k ==> Loadings(extract, X, p, k)[j] == Loading(extract, X, p, j)
    ensures forall j :: 0 <= j < k ==> Scores(extract, X, p, k)[j] == Score(extract, X, p, j)
  {
    if k > 0 {
      ComponentsAt(extract, X, p, k - 1);
    }
  }

  /** `X_residualsDict` after `k` components: keys `1..k`. */
  function ResidualsByComponent(extract: Matrix -> Vector, X: Matrix, p: nat, k: nat): (D: map<nat, Matrix>)
    requires Rect(X, p) && LoadingsFit(extract, p)
    ensures forall j :: j in D <==> 1 <= j <= k
    ensures forall j :: 1 <= j <= k ==> D[j] == Residual(extract, X, p, j)
  {
    map j | 1 <= j <= k :: Residual(extract, X, p, j)
  }

  /** The deflation loop of lines 138-168. Each pass extracts a loading,
      computes the score, appends both, deflates and records the residual
      under key `j + 1`. */
  method Decompose(X: Matrix, p: nat, numPC: nat, extract: Matrix -> Vector)
    returns (scores: seq<Vector>, loadings: seq<Vector>, residuals: map<nat, Matrix>)
    requires Rect(X, p) && LoadingsFit(extract, p)
    ensures scores == Scores(extract, X, p, numPC)
    ensures loadings == Loadings(extract, X, p, numPC)
    ensures residuals == ResidualsByComponent(extract, X, p, numPC)
  {
    var xNew := X;
    scores, loadings, residuals := [], [], map[];
    for j := 0 to numPC
      invariant Rect(xNew, p)
      invariant xNew == Residual(extract, X, p, j)
      invariant scores == Scores(extract, X, p, j)
      invariant loadings == Loadings(extract, X, p, j)
      invariant residuals == ResidualsByComponent(extract, X, p, j)
    {
      var q := extract(xNew);
      var t := MatVec(xNew, q);
      scores := scores + [t];
      loadings := loadings + [q];
      var xOld := xNew;
      xNew := Sub(xOld, Outer(t, q));
      residuals := residuals[j + 1 := xNew];
    }
  }

  /** `Σ_{j<k} T[j]·P[j]ᵀ`, the sum of the first `k` rank-one terms. */
  function Reconstruction(T: seq<Vector>, P: seq<Vector>, k: nat, n: nat, p: nat): (M: Matrix)
    requires k <= |T| && k <= |P|
    requires forall j :: 0 <= j < k ==> |T[j]| == n && |P[j]| == p
    ensures IsMatrix(M, n, p)
  {
    if k == 0 then Zeros(n, p)
    else Add(Reconstruction(T, P, k - 1, n, p), Outer(T[k - 1], P[k - 1]))
  }

  /** `np.dot(arrT[:, 0:k], np.transpose(arrP[:, 0:k]))` (lines 197-199): the
      product of the first `k` columns of the hstacked scores and loadings. */
  function TruncatedProduct(T: seq<Vector>, P: seq<Vector>, k: nat, n: nat, p: nat): (M: Matrix)
    requires k <= |T| && k <= |P|
    requires forall j :: 0 <= j < |T| ==> |T[j]| == n
    requires forall j :: 0 <= j < |P| ==> |P[j]| == p
    ensures IsMatrix(M, n, p)
  {
    MulTranspose(HStack(T[..k], n), HStack(P[..k], p), k)
  }

  /** The truncated product of the score and loading matrices is the sum of
      the first `k` rank-one terms. */
  lemma {:induction false} TruncatedProductIsReconstruction(T: seq<Vector>, P: seq<Vector>, k: nat, n: nat, p: nat)
    requires k <= |T| && k <= |P|
    requires forall j :: 0 <= j < |T| ==> |T[j]| == n
    requires forall j :: 0 <= j < |P| ==> |P[j]| == p
    ensures TruncatedProduct(T, P, k, n, p) == Reconstruction(T, P, k, n, p)
  {
    var M := TruncatedProduct(T, P, k, n, p);
    var Rk := Reconstruction(T, P, k, n, p);
    forall r, c | 0 <= r < n && 0 <= c < p
      ensures M[r][c] == Rk[r][c]
    {
      ProductEntry(T, P, k, n, p, r, c);
    }
    MatrixExt(M, Rk);
  }

  /** One entry of the truncated product, by induction on `k`. */
  lemma {:induction false} ProductEntry(T: seq<Vector>, P: seq<Vector>, k: nat, n: nat, p: nat, r: nat, c: nat)
    requires k <= |T| && k <= |P|
    requires forall j :: 0 <= j < |T| ==> |T[j]| == n
    requires forall j :: 0 <= j < |P| ==> |P[j]| == p
    requires r < n && c < p
    ensures Dot(HStack(T[..k], n)[r], HStack(P[..k], p)[c]) == Reconstruction(T, P, k, n, p)[r][c]
  {
    var h := Hadamard(HStack(T[..k], n)[r], HStack(P[..k], p)[c]);
    if k > 0 {
      ProductEntry(T, P, k - 1, n, p, r, c);
      var g := Hadamard(HStack(T[..k - 1], n)[r], HStack(P[..k - 1], p)[c]);
      SumToAgree(h, g, k - 1);
      assert h[k - 1] == T[k - 1][r] * P[k - 1][c];
    }
  }

  /** The residual telescopes: after `k` components it is the preprocessed
      data minus the sum of the first `k` rank-one terms (lines 163-168),
      that is `arrX - T[:, :k]·P[:, :k]ᵀ`. */
  lemma {:induction false} ResidualTelescopes(extract: Matrix -> Vector, X: Matrix, p: nat, k: nat, K: nat)
    requires Rect(X, p) && LoadingsFit(extract, p) && k <= K
    ensures Residual(extract, X, p, k)
      == Sub(X, Reconstruction(Scores(extract, X, p, K), Loadings(extract, X, p, K), k, |X|, p))
  {
    var T := Scores(extract, X, p, K);
    var P := Loadings(extract, X, p, K);
    if k == 0 {
      MatrixExt(X, Sub(X, Zeros(|X|, p)));
    } else {
      ResidualTelescopes(extract, X, p, k - 1, K);
      ComponentsAt(extract, X, p, K);
      var B := Reconstruction(T, P, k - 1, |X|, p);
      DeflateDifference(X, B, T[k - 1], P[k - 1]);
      calc {
        Residual(extract, X, p, k);
        Deflate(Residual(extract, X, p, k - 1), Score(extract, X, p, k - 1), Loading(extract, X, p, k - 1));
        Deflate(Sub(X, B), T[k - 1], P[k - 1]);
        Sub(X, Add(B, Outer(T[k - 1], P[k - 1])));
      }
    }
  }

  /** Deflating `X - B` is subtracting the rank-one term from `X` after
      adding it to `B`. */
  lemma DeflateDifference(X: Matrix, B: Matrix, t: Vector, q: Vector)
    requires IsMatrix(X, |t|, |q|) && IsMatrix(B, |t|, |q|)
    ensures Deflate(Sub(X, B), t, q) == Sub(X, Add(B, Outer(t, q)))
  {
    MatrixExt(Deflate(Sub(X, B), t, q), Sub(X, Add(B, Outer(t, q))));
  }

  /** What the first `k` components model, `T[:, :k]·P[:, :k]ᵀ`, is the
      preprocessed data minus the residual after `k` components. */
  lemma ProductIsDataMinusResidual(extract: Matrix -> Vector, X: Matrix, p: nat, k: nat, K: nat)
    requires Rect(X, p) && LoadingsFit(extract, p) && k <= K
    ensures TruncatedProduct(Scores(extract, X, p, K), Loadings(extract, X, p, K), k, |X|, p)
      == Sub(X, Residual(extract, X, p, k))
  {
    var T := Scores(extract, X, p, K);
    var P := Loadings(extract, X, p, K);
    var B := Reconstruction(T, P, k, |X|, p);
    TruncatedProductIsReconstruction(T, P, k, |X|, p);
    ResidualTelescopes(extract, X, p, k, K);
    MatrixExt(B, Sub(X, Sub(X, B)));
  }

  /** `Σᵢ tᵢ = 0` when `t = R·q` and every column of `R` sums to zero. */
  lemma ScoreSumsToZero(R: Matrix, q: Vector)
    requires Rect(R, |q|)
    requires forall c :: 0 <= c < |q| ==> ColumnSums(R, |q|)[c] == 0.0
    ensures Sum(MatVec(R, q)) == 0.0
  {
    SumMatVec(R, q);
    SumScaled(q, Hadamard(ColumnSums(R, |q|), q), 0.0);
  }

  /** Deflating a column-centred residual keeps it column-centred. */
  lemma DeflateKeepsCentred(R: Matrix, q: Vector)
    requires Rect(R, |q|)
    requires forall c :: 0 <= c < |q| ==> ColumnSums(R, |q|)[c] == 0.0
    ensures forall c :: 0 <= c < |q| ==> ColumnSums(Deflate(R, MatVec(R, q), q), |q|)[c] == 0.0
  {
    var t := MatVec(R, q);
    ScoreSumsToZero(R, q);
    ColumnSumsSub(R, Outer(t, q), |q|);
    ColumnSumsOuter(t, q);
  }

  /** Starting from centred data, every residual is column-centred and every
      score sums to zero. */
  lemma {:induction false} CentredDecomposition(extract: Matrix -> Vector, X: Matrix, p: nat, k: nat)
    requires Rect(X, p) && LoadingsFit(extract, p)
    requires forall c :: 0 <= c < p ==> ColumnSums(X, p)[c] == 0.0
    ensures forall c :: 0 <= c < p ==> ColumnSums(Residual(extract, X, p, k), p)[c] == 0.0
    ensures forall j :: 0 <= j < k ==> Sum(Scores(extract, X, p, k)[j]) == 0.0
  {
    if k > 0 {
      CentredDecomposition(extract, X, p, k - 1);
      var R := Residual(extract, X, p, k - 1);
      DeflateKeepsCentred(R, extract(R));
      ScoreSumsToZero(R, extract(R));
      ComponentsAt(extract, X, p, k);
      ComponentsAt(extract, X, p, k - 1);
      forall j | 0 <= j < k ensures Sum(Scores(extract, X, p, k)[j]) == 0.0 {
        if j < k - 1 {
          assert Scores(extract, X, p, k)[j] == Scores(extract, X, p, k - 1)[j];
        } else {
          assert Loading(extract, X, p, k - 1) == extract(R);
          assert Scores(extract, X, p, k)[j] == Score(extract, X, p, k - 1) == MatVec(R, extract(R));
        }
      }
    }
  }

  /** With a unit loading, the deflated residual is orthogonal to it:
      `(R - t·qᵀ)·q = 0` when `t = R·q`. */
  lemma DeflateOrthogonal(R: Matrix, q: Vector)
    requires Rect(R, |q|) && Dot(q, q) == 1.0
    ensures forall i :: 0 <= i < |R| ==> MatVec(Deflate(R, MatVec(R, q), q), q)[i] == 0.0
  {
    var t := MatVec(R, q);
    var E := Deflate(R, t, q);
    forall i | 0 <= i < |R| ensures Dot(E[i], q) == 0.0 {
      SumLinear(Hadamard(R[i], q), Hadamard(q, q), Hadamard(E[i], q), 1.0, -t[i]);
    }
  }

  /** One row of a deflation: `|r - s·q|² = |r|² - s²` when `s = r·q` and
      `|q| = 1`. */
  lemma RowSumSquaresAfterDeflation(R: Matrix, q: Vector, i: nat)
    requires Rect(R, |q|) && Dot(q, q) == 1.0 && i < |R|
    ensures RowSums(Square(Deflate(R, MatVec(R, q), q)))[i] == RowSums(Square(R))[i] - Sq(MatVec(R, q)[i])
  {
    var s := MatVec(R, q)[i];
    var a := Square(R)[i];
    var b := Hadamard(R[i], q);
    var h := Hadamard(q, q);
    var e := Square(Deflate(R, MatVec(R, q), q))[i];
    var d := seq(|q|, j requires 0 <= j < |q| => 1.0 * a[j] + (-2.0 * s) * b[j]);
    SumLinear(a, b, d, 1.0, -2.0 * s);
    DeflatedRowExpansion(R, q, i, s, a, b, d, h, e);
    SumLinear(d, h, e, 1.0, Sq(s));
    CombineSums(Sum(a), Sum(b), Sum(d), Sum(h), Sum(e), s);
  }

  /** Entry by entry, a deflated squared row expands into the squared row,
      the cross term and the squared loading. */
  lemma DeflatedRowExpansion(R: Matrix, q: Vector, i: nat, s: real, a: Vector, b: Vector, d: Vector, h: Vector, e: Vector)
    requires Rect(R, |q|) && i < |R| && s == MatVec(R, q)[i]
    requires a == Square(R)[i] && b == Hadamard(R[i], q) && h == Hadamard(q, q)
    requires e == Square(Deflate(R, MatVec(R, q), q))[i]
    requires |d| == |q| && forall j :: 0 <= j < |q| ==> d[j] == 1.0 * a[j] + (-2.0 * s) * b[j]
    ensures |e| == |q| && forall j :: 0 <= j < |q| ==> e[j] == 1.0 * d[j] + Sq(s) * h[j]
  {
    forall j | 0 <= j < |q| ensures e[j] == 1.0 * d[j] + Sq(s) * h[j] {
      DeflatedEntry(R, q, i, j, s, e[j]);
      assert a[j] == Sq(R[i][j]) && b[j] == R[i][j] * q[j] && h[j] == q[j] * q[j];
      SquareOfDifference(R[i][j], q[j], s, e[j], d[j], h[j]);
    }
  }

  /** One squared entry of a deflated matrix. */
  lemma DeflatedEntry(R: Matrix, q: Vector, i: nat, j: nat, s: real, e: real)
    requires Rect(R, |q|) && i < |R| && j < |q| && s == MatVec(R, q)[i]
    requires e == Square(Deflate(R, MatVec(R, q), q))[i][j]
    ensures e == Sq(R[i][j] - s * q[j])
  {
    var D := Deflate(R, MatVec(R, q), q);
    assert D[i][j] == R[i][j] - s * q[j];
  }

  /** `(a - s·b)² = a² - 2s·ab + s²·b²`, on named values. */
  lemma SquareOfDifference(a: real, b: real, s: real, e: real, d: real, h: real)
    requires e == Sq(a - s * b) && d == 1.0 * Sq(a) + (-2.0 * s) * (a * b) && h == b * b
    ensures e == 1.0 * d + Sq(s) * h
  {
  }

  /** The arithmetic that closes `RowSumSquaresAfterDeflation` and
      `SettledSumSquares`. */
  lemma CombineSums(A: real, B: real, D: real, H: real, E: real, s: real)
    requires D == 1.0 * A + (-2.0 * s) * B && B == H * s
    requires E == 1.0 * D + Sq(s) * H
    ensures E == A - Sq(s) * H
  {
  }

  /** With a unit loading, a deflation step removes exactly the squared
      length of the score from the total sum of squares. */
  lemma DeflateSumSquares(R: Matrix, q: Vector)
    requires Rect(R, |q|) && Dot(q, q) == 1.0
    ensures TotalSumSquares(Deflate(R, MatVec(R, q), q)) == TotalSumSquares(R) - Dot(MatVec(R, q), MatVec(R, q))
  {
    var t := MatVec(R, q);
    var E := Deflate(R, t, q);
    var before := RowSums(Square(R));
    var after := RowSums(Square(E));
    forall i | 0 <= i < |R| ensures after[i] == 1.0 * before[i] + (-1.0) * Hadamard(t, t)[i] {
      RowSumSquaresAfterDeflation(R, q, i);
    }
    SumLinear(before, Hadamard(t, t), after, 1.0, -1.0);
  }

  /** `t·t >= 0`. */
  lemma DotSelfNonNegative(t: Vector)
    ensures 0.0 <= Dot(t, t)
  {
    forall j | 0 <= j < |t| ensures 0.0 <= Hadamard(t, t)[j] {
      SquareNonNegative(t[j]);
    }
    SumNonNegative(Hadamard(t, t));
  }

  /** With unit loadings, the total sum of squares of the residuals never
      increases from one component to the next. */
  lemma ResidualSumSquaresDecrease(extract: Matrix -> Vector, X: Matrix, p: nat, j: nat)
    requires Rect(X, p) && LoadingsFit(extract, p) && UnitLoadings(extract, p)
    ensures TotalSumSquares(Residual(extract, X, p, j + 1)) <= TotalSumSquares(Residual(extract, X, p, j))
  {
    var R := Residual(extract, X, p, j);
    DeflateSumSquares(R, extract(R));
    DotSelfNonNegative(MatVec(R, extract(R)));
  }

  /** Deflating by a `t` whose cross term with column `c` is `(t·t)·q[c]`
      removes `q[c]²·(t·t)` from that column's sum of squares, which
      therefore does not grow. */
  lemma DeflatedColumnSumSquares(R: Matrix, t: Vector, q: Vector, c: nat)
    requires Rect(R, |q|) && |t| == |R| && c < |q|
    requires Dot(Column(R, c), t) == Dot(t, t) * q[c]
    ensures ColumnSumSquares(Deflate(R, t, q), |q|)[c] == ColumnSumSquares(R, |q|)[c] - Sq(q[c]) * Dot(t, t)
    ensures ColumnSumSquares(Deflate(R, t, q), |q|)[c] <= ColumnSumSquares(R, |q|)[c]
  {
    SettledSumSquares(Column(R, c), t, q[c], Column(Square(R), c), Column(Square(Deflate(R, t, q)), c));
  }

  /** When `r·t = (t·t)·s`, taking `t·s` away from `r` removes `s²·(t·t)`
      from its sum of squares; `a` holds the squares of `r` and `e` those of
      `r - t·s`. */
  lemma SettledSumSquares(r: Vector, t: Vector, s: real, a: Vector, e: Vector)
    requires |t| == |r| && |a| == |r| && |e| == |r| && Dot(r, t) == Dot(t, t) * s
    requires forall i :: 0 <= i < |r| ==> a[i] == Sq(r[i]) && e[i] == Sq(r[i] - t[i] * s)
    ensures Sum(e) == Sum(a) - Sq(s) * Dot(t, t) && Sum(e) <= Sum(a)
  {
    var D := SumSquaresOfDifference(r, t, s, a, e);
    CombineSums(Sum(a), Dot(r, t), D, Dot(t, t), Sum(e), s);
    DotSelfNonNegative(t);
    SquareNonNegative(s);
    assert 0.0 <= Sq(s) * Dot(t, t);
  }

  /** `Σ(r - t·s)² = D + s²·(t·t)` with `D = Σr² - 2s·(r·t)`. */
  lemma SumSquaresOfDifference(r: Vector, t: Vector, s: real, a: Vector, e: Vector) returns (D: real)
    requires |t| == |r| && |a| == |r| && |e| == |r|
    requires forall i :: 0 <= i < |r| ==> a[i] == Sq(r[i]) && e[i] == Sq(r[i] - t[i] * s)
    ensures D == 1.0 * Sum(a) + (-2.0 * s) * Dot(r, t) && Sum(e) == 1.0 * D + Sq(s) * Dot(t, t)
  {
    var d := CrossTermRow(r, t, s, a);
    D := Sum(d);
    DifferenceExpansion(r, t, s, a, Hadamard(r, t), d, Hadamard(t, t), e);
    SumLinear(d, Hadamard(t, t), e, 1.0, Sq(s));
  }

  /** The row `r² - 2s·(r∘t)` and its sum. */
  lemma CrossTermRow(r: Vector, t: Vector, s: real, a: Vector) returns (d: Vector)
    requires |t| == |r| && |a| == |r|
    ensures |d| == |r| && forall i :: 0 <= i < |r| ==> d[i] == 1.0 * a[i] + (-2.0 * s) * Hadamard(r, t)[i]
    ensures Sum(d) == 1.0 * Sum(a) + (-2.0 * s) * Dot(r, t)
  {
    var b := Hadamard(r, t);
    d := seq(|r|, i requires 0 <= i < |r| => 1.0 * a[i] + (-2.0 * s) * b[i]);
    SumLinear(a, b, d, 1.0, -2.0 * s);
  }

  /** Entry by entry, `(r - t·s)²` expands into `r²`, the cross term and
      `s²·t²`. */
  lemma DifferenceExpansion(r: Vector, t: Vector, s: real, a: Vector, b: Vector, d: Vector, h: Vector, e: Vector)
    requires |t| == |r| && |a| == |r| && |e| == |r| && |d| == |r|
    requires b == Hadamard(r, t) && h == Hadamard(t, t)
    requires forall i :: 0 <= i < |r| ==> a[i] == Sq(r[i]) && e[i] == Sq(r[i] - t[i] * s)
    requires forall i :: 0 <= i < |r| ==> d[i] == 1.0 * a[i] + (-2.0 * s) * b[i]
    ensures forall i :: 0 <= i < |r| ==> e[i] == 1.0 * d[i] + Sq(s) * h[i]
  {
    forall i | 0 <= i < |r| ensures e[i] == 1.0 * d[i] + Sq(s) * h[i] {
      assert r[i] - t[i] * s == r[i] - s * t[i];
      SquareOfDifference(r[i], t[i], s, e[i], d[i], h[i]);
    }
  }

  /** With settled loadings no column's residual sum of squares grows from
      one component to the next. */
  lemma SettledColumnsDecrease(extract: Matrix -> Vector, X: Matrix, p: nat, j: nat)
    requires Rect(X, p) && LoadingsFit(extract, p) && SettledLoadings(extract, p)
    ensures forall c :: 0 <= c < p ==>
      ColumnSumSquares(Residual(extract, X, p, j + 1), p)[c] <= ColumnSumSquares(Residual(extract, X, p, j), p)[c]
  {
    var R := Residual(extract, X, p, j);
    var q := extract(R);
    var t := MatVec(R, q);
    assert SettledAt(R, q);
    forall c | 0 <= c < p
      ensures ColumnSumSquares(Residual(extract, X, p, j + 1), p)[c] <= ColumnSumSquares(R, p)[c]
    {
      DeflatedColumnSumSquares(R, t, q, c);
    }
  }
}
