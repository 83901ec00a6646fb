/** Calibration (hoggorm/pca.py lines 185-223): the predictions of the input
    from the first `k` components, and the PRESS table that compares them
    with the input, column by column, after centring both. */
module Calibration {
  import opened Linalg
  import opened Preprocessing
  import opened Nipals
  import opened Statistics

  /** Scores of length `n` and loadings of length `p`. */
  predicate Components(T: seq<Vector>, P: seq<Vector>, numPC: nat, n: nat, p: nat)
  {
    |T| == numPC && |P| == numPC
    && (forall j :: 0 <= j < numPC ==> |T[j]| == n)
    && (forall j :: 0 <= j < numPC ==> |P[j]| == p)
  }

  /** `calXpredList[k - 1]` (lines 195-205): the product of the first `k`
      score and loading columns, brought back to the units of the input. */
  function Prediction(T: seq<Vector>, P: seq<Vector>, k: nat, n: nat, p: nat, par: Params): (Xhat: Matrix)
    requires Components(T, P, |T|, n, p) && k <= |T| && Usable(par, p)
    ensures IsMatrix(Xhat, n, p)
  {
    Restore(TruncatedProduct(T, P, k, n, p), par, p)
  }

  /** The whole of `calXpredList`: predictions with 1, 2, ..., `numPC`
      components. */
  function Predictions(T: seq<Vector>, P: seq<Vector>, n: nat, p: nat, par: Params): (preds: seq<Matrix>)
    requires Components(T, P, |T|, n, p) && Usable(par, p)
    ensures |preds| == |T|
    ensures forall k :: 0 <= k < |T| ==> IsMatrix(preds[k], n, p)
  {
    seq(|T|, k requires 0 <= k < |T| => Prediction(T, P, k + 1, n, p, par))
  }

  /** The loop of lines 192-205. */
  method CumulativePredictions(T: seq<Vector>, P: seq<Vector>, n: nat, p: nat, par: Params)
    returns (preds: seq<Matrix>)
    requires Components(T, P, |T|, n, p) && Usable(par, p)
    ensures preds == Predictions(T, P, n, p, par)
  {
    preds := [];
    for ind := 1 to |T| + 1
      invariant |preds| == ind - 1
      invariant forall k :: 0 <= k < ind - 1 ==> preds[k] == Prediction(T, P, k + 1, n, p, par)
    {
      var predXcal := TruncatedProduct(T, P, ind, n, p);
      var xhat := Restore(predXcal, par, p);
      preds := preds + [xhat];
    }
  }

  /** A prediction, preprocessed the way the input was, plus the residual
      after the same number of components, is the preprocessed input: the
      `k`-component model splits `arrX` into `T_k·P_kᵀ + E_k`. */
  lemma PredictionSplitsData(Xin: Matrix, par: Params, p: nat, extract: Matrix -> Vector, numPC: nat, k: nat)
    requires FittedTo(par, Xin, p) && LoadingsFit(extract, p) && k <= numPC
    ensures var X := Apply(Xin, par, p);
      var T := Scores(extract, X, p, numPC);
      var P := Loadings(extract, X, p, numPC);
      Add(Apply(Prediction(T, P, k, |Xin|, p, par), par, p), Residual(extract, X, p, k)) == X
  {
    var X := Apply(Xin, par, p);
    var T := Scores(extract, X, p, numPC);
    var P := Loadings(extract, X, p, numPC);
    var B := TruncatedProduct(T, P, k, |Xin|, p);
    ApplyRestore(B, par, p);
    TruncatedProductIsReconstruction(T, P, k, |Xin|, p);
    ResidualTelescopes(extract, X, p, k, numPC);
    MatrixExt(Add(B, Residual(extract, X, p, k)), X);
  }

  /** `PRESSE_0` (line 215): the column sums of squares of the centred input. */
  function PressBaseline(Xin: Matrix, p: nat): (row: Vector)
    requires Rect(Xin, p) && |Xin| > 0
    ensures |row| == p
    ensures forall c :: 0 <= c < p ==> 0.0 <= row[c]
  {
    ColumnSumSquaresNonNegative(Centre(Xin, p), p);
    ColumnSumSquares(Centre(Xin, p), p)
  }

  /** `PRESSE_k` (lines 221-222): the column sums of squares of the centred
      input minus the centred prediction. */
  function PressRow(Xin: Matrix, Xhat: Matrix, p: nat): (row: Vector)
    requires Rect(Xin, p) && |Xin| > 0 && IsMatrix(Xhat, |Xin|, p)
    ensures |row| == p
    ensures forall c :: 0 <= c < p ==> 0.0 <= row[c]
  {
    var D := Sub(Centre(Xin, p), Centre(Xhat, p));
    ColumnSumSquaresNonNegative(D, p);
    ColumnSumSquares(D, p)
  }

  /** `PRESSEarr_indVar_X`: the baseline row, then one row per prediction. */
  function PressTable(Xin: Matrix, preds: seq<Matrix>, p: nat): (press: Matrix)
    requires Rect(Xin, p) && |Xin| > 0
    requires forall k :: 0 <= k < |preds| ==> IsMatrix(preds[k], |Xin|, p)
    ensures IsMatrix(press, |preds| + 1, p) && NonNegative(press)
    ensures press[0] == PressBaseline(Xin, p)
  {
    [PressBaseline(Xin, p)] + seq(|preds|, k requires 0 <= k < |preds| => PressRow(Xin, preds[k], p))
  }

  /** The dictionary `PRESSEdict_indVar_X`, filled under keys `0..numPC` by
      lines 212-222 and turned into an array by line 227. */
  method PressEntries(Xin: Matrix, preds: seq<Matrix>, p: nat) returns (press: Matrix)
    requires Rect(Xin, p) && |Xin| > 0
    requires forall k :: 0 <= k < |preds| ==> IsMatrix(preds[k], |Xin|, p)
    ensures press == PressTable(Xin, preds, p)
  {
    var dict: map<nat, Vector> := map[0 := PressBaseline(Xin, p)];
    for ind := 0 to |preds|
      invariant forall k: nat :: k in dict <==> k <= ind
      invariant dict[0] == PressBaseline(Xin, p)
      invariant forall k :: 0 <= k < ind ==> dict[k + 1] == PressRow(Xin, preds[k], p)
    {
      var diffX := Sub(Centre(Xin, p), Centre(preds[ind], p));
      dict := dict[ind + 1 := ColumnSumSquares(diffX, p)];
    }
    press := seq(|preds| + 1, k requires 0 <= k <= |preds| => dict[k]);
    assert press == PressTable(Xin, preds, p);
  }

  /** The PRESS table of a calibration with `numPC` components: the
      decomposition of the preprocessed input, its predictions, and their
      PRESS rows. */
  function CalibrationPress(Xin: Matrix, par: Params, p: nat, extract: Matrix -> Vector, numPC: nat): (press: Matrix)
    requires FittedTo(par, Xin, p) && LoadingsFit(extract, p)
    ensures IsMatrix(press, numPC + 1, p) && NonNegative(press)
    ensures press[0] == PressBaseline(Xin, p)
  {
    var X := Apply(Xin, par, p);
    PressTable(Xin, Predictions(Scores(extract, X, p, numPC), Loadings(extract, X, p, numPC), |Xin|, p, par), p)
  }

  /** A row of sums of squares of the preprocessed data, in the units of
      the input: each column multiplied by the squared standard deviation of
      that column when standardising, unchanged when centring. */
  function Weighted(v: Vector, par: Params, p: nat): (w: Vector)
    requires Usable(par, p) && |v| == p
    ensures |w| == p
  {
    if par.std.Some? then seq(p, c requires 0 <= c < p => Sq(par.std.value[c]) * v[c]) else v
  }

  /** Centring a restored column-centred matrix only undoes the shift by
      the means. */
  lemma CentreOfRestored(B: Matrix, par: Params, p: nat)
    requires Usable(par, p) && IsMatrix(B, |B|, p) && |B| > 0
    requires forall c :: 0 <= c < p ==> ColumnSums(B, p)[c] == 0.0
    ensures Centre(Restore(B, par, p), p) == if par.std.Some? then MulRow(B, par.std.value) else B
  {
    if par.std.Some? {
      ColumnSumsMulRow(B, par.std.value);
      CentreOfShifted(MulRow(B, par.std.value), par.means);
    } else {
      CentreOfShifted(B, par.means);
    }
  }

  /** `X·s - B·s = (X - B)·s`, column by column. */
  lemma SubMulRow(X: Matrix, B: Matrix, s: Vector)
    requires IsMatrix(X, |X|, |s|) && IsMatrix(B, |X|, |s|)
    ensures Sub(MulRow(X, s), MulRow(B, s)) == MulRow(Sub(X, B), s)
  {
    MatrixExt(Sub(MulRow(X, s), MulRow(B, s)), MulRow(Sub(X, B), s));
  }

  /** Scaling each column by the standard deviation multiplies its sum of
      squares by the squared standard deviation. */
  lemma ColumnSumSquaresScaled(D: Matrix, par: Params, p: nat)
    requires Usable(par, p) && par.std.Some? && Rect(D, p)
    ensures ColumnSumSquares(MulRow(D, par.std.value), p) == Weighted(ColumnSumSquares(D, p), par, p)
  {
    forall c | 0 <= c < p
      ensures ColumnSumSquares(MulRow(D, par.std.value), p)[c] == Weighted(ColumnSumSquares(D, p), par, p)[c]
    {
      ColumnSumSquaresMulRow(D, par.std.value, c);
    }
  }

  /** The PRESS of a prediction whose preprocessed form `B` is column-centred
      is the weighted column sum of squares of `X - B`. */
  lemma PressOfCentredModel(Xin: Matrix, par: Params, p: nat, B: Matrix)
    requires FittedTo(par, Xin, p) && IsMatrix(B, |Xin|, p)
    requires forall c :: 0 <= c < p ==> ColumnSums(B, p)[c] == 0.0
    ensures PressRow(Xin, Restore(B, par, p), p) == Weighted(ColumnSumSquares(Sub(Apply(Xin, par, p), B), p), par, p)
  {
    var A := Apply(Xin, par, p);
    var D := Sub(A, B);
    CentredInput(Xin, par, p);
    CentreOfRestored(B, par, p);
    if par.std.Some? {
      var s := par.std.value;
      SubMulRow(A, B, s);
      calc {
        PressRow(Xin, Restore(B, par, p), p);
        ColumnSumSquares(Sub(MulRow(A, s), MulRow(B, s)), p);
        ColumnSumSquares(MulRow(D, s), p);
        { ColumnSumSquaresScaled(D, par, p); }
        Weighted(ColumnSumSquares(D, p), par, p);
      }
    }
  }

  /** The PRESS table is the weighted residual sum of squares: row `k` holds
      the column sums of squares of the residual after `k` components, each
      multiplied by the squared standard deviation of its column when
      standardising. Row 0 is the preprocessed input itself. */
  lemma PressIsResidualSumSquares(Xin: Matrix, par: Params, p: nat, extract: Matrix -> Vector, numPC: nat)
    requires FittedTo(par, Xin, p) && LoadingsFit(extract, p)
    ensures forall k :: 0 <= k <= numPC ==>
      CalibrationPress(Xin, par, p, extract, numPC)[k] == Weighted(ColumnSumSquares(Residual(extract, Apply(Xin, par, p), p, k), p), par, p)
  {
    forall k | 0 <= k <= numPC
      ensures CalibrationPress(Xin, par, p, extract, numPC)[k]
        == Weighted(ColumnSumSquares(Residual(extract, Apply(Xin, par, p), p, k), p), par, p)
    {
      PressEntry(Xin, par, p, extract, numPC, k, CalibrationPress(Xin, par, p, extract, numPC));
    }
  }

  /** One row of `PressIsResidualSumSquares`. */
  lemma PressEntry(Xin: Matrix, par: Params, p: nat, extract: Matrix -> Vector, numPC: nat, k: nat, press: Matrix)
    requires FittedTo(par, Xin, p) && LoadingsFit(extract, p) && k <= numPC
    requires press == CalibrationPress(Xin, par, p, extract, numPC)
    ensures press[k] == Weighted(ColumnSumSquares(Residual(extract, Apply(Xin, par, p), p, k), p), par, p)
  {
    if k == 0 {
      PressOfInput(Xin, par, p);
    } else {
      var X := Apply(Xin, par, p);
      var T := Scores(extract, X, p, numPC);
      var P := Loadings(extract, X, p, numPC);
      var preds := Predictions(T, P, |Xin|, p, par);
      assert press == PressTable(Xin, preds, p);
      assert press[k] == PressRow(Xin, preds[k - 1], p);
      assert preds[k - 1] == Prediction(T, P, k, |Xin|, p, par);
      PressOfModel(Xin, par, p, extract, numPC, k);
    }
  }

  /** Row 0 of `PressIsResidualSumSquares`. */
  lemma PressOfInput(Xin: Matrix, par: Params, p: nat)
    requires FittedTo(par, Xin, p)
    ensures PressBaseline(Xin, p) == Weighted(ColumnSumSquares(Apply(Xin, par, p), p), par, p)
  {
    CentredInput(Xin, par, p);
    if par.std.Some? {
      ColumnSumSquaresScaled(Apply(Xin, par, p), par, p);
    }
  }

  /** Row `k >= 1` of `PressIsResidualSumSquares`. */
  lemma PressOfModel(Xin: Matrix, par: Params, p: nat, extract: Matrix -> Vector, numPC: nat, k: nat)
    requires FittedTo(par, Xin, p) && LoadingsFit(extract, p)
    requires 1 <= k <= numPC
    ensures var X := Apply(Xin, par, p);
      var T := Scores(extract, X, p, numPC);
      var P := Loadings(extract, X, p, numPC);
      PressRow(Xin, Prediction(T, P, k, |Xin|, p, par), p)
        == Weighted(ColumnSumSquares(Residual(extract, X, p, k), p), par, p)
  {
    var X := Apply(Xin, par, p);
    var E := Residual(extract, X, p, k);
    FittedColumnsSumToZero(Xin, par, p);
    CentredDecomposition(extract, X, p, k);
    ProductIsDataMinusResidual(extract, X, p, k, numPC);
    DifferenceOfCentred(X, E, p);
    PressOfCentredModel(Xin, par, p, Sub(X, E));
  }

  /** When only centring and with unit loadings, the total PRESS never grows
      as components are added: its row sums are the residual sums of squares. */
  lemma CentredPressDecreases(Xin: Matrix, par: Params, p: nat, extract: Matrix -> Vector, numPC: nat, press: Matrix)
    requires FittedTo(par, Xin, p) && par.std.None?
    requires LoadingsFit(extract, p) && UnitLoadings(extract, p)
    requires press == CalibrationPress(Xin, par, p, extract, numPC)
    ensures |press| == numPC + 1 && forall k :: 0 <= k < numPC ==> Sum(press[k + 1]) <= Sum(press[k])
  {
    var X := Apply(Xin, par, p);
    PressIsResidualSumSquares(Xin, par, p, extract, numPC);
    forall k | 0 <= k < numPC
      ensures Sum(press[k + 1]) <= Sum(press[k])
    {
      ResidualSumSquaresDecrease(extract, X, p, k);
      RowTotalsFollowResiduals(press[k], press[k + 1], Residual(extract, X, p, k), Residual(extract, X, p, k + 1), par, p);
    }
  }

  /** With settled loadings no entry of the PRESS table grows as components
      are added, in either mode, and so neither does its total. */
  lemma SettledPressDecreases(Xin: Matrix, par: Params, p: nat, extract: Matrix -> Vector, numPC: nat, press: Matrix)
    requires FittedTo(par, Xin, p) && LoadingsFit(extract, p) && SettledLoadings(extract, p)
    requires press == CalibrationPress(Xin, par, p, extract, numPC)
    ensures |press| == numPC + 1
    ensures forall k :: 0 <= k < numPC ==> forall c :: 0 <= c < p ==> press[k + 1][c] <= press[k][c]
    ensures forall k :: 0 <= k < numPC ==> Sum(press[k + 1]) <= Sum(press[k])
  {
    var X := Apply(Xin, par, p);
    PressIsResidualSumSquares(Xin, par, p, extract, numPC);
    forall k | 0 <= k < numPC
      ensures (forall c :: 0 <= c < p ==> press[k + 1][c] <= press[k][c]) && Sum(press[k + 1]) <= Sum(press[k])
    {
      SettledColumnsDecrease(extract, X, p, k);
      WeightedOrder(ColumnSumSquares(Residual(extract, X, p, k), p), ColumnSumSquares(Residual(extract, X, p, k + 1), p), par, p);
      SumMonotone(press[k + 1], press[k]);
    }
  }

  /** The totals of a calibration with settled loadings, in either mode:
      PRESS and MSE totals that never increase, a total explained variance
      that stays between 0 and 100 percent and never decreases, and
      per-component values that are never negative. */
  lemma SettledCalibrationTotals(Xin: Matrix, par: Params, p: nat, extract: Matrix -> Vector, numPC: nat,
                                 xstand: bool, sqrt: real -> real, s: Summary)
    requires FittedTo(par, Xin, p) && LoadingsFit(extract, p) && SettledLoadings(extract, p)
    requires s.press == CalibrationPress(Xin, par, p, extract, numPC) && SummaryOf(s, p, |Xin|, xstand, sqrt)
    ensures forall k :: 0 <= k < numPC ==> s.pressTotal[k + 1] <= s.pressTotal[k] && s.mseTotal[k + 1] <= s.mseTotal[k]
    ensures forall k :: 0 <= k <= numPC ==> 0.0 <= s.cumTotal[k] <= 100.0
    ensures forall k :: 0 <= k < numPC ==> s.cumTotal[k] <= s.cumTotal[k + 1] && 0.0 <= s.perComponent[k]
  {
    SettledPressDecreases(Xin, par, p, extract, numPC, s.press);
    SummaryMonotone(s, p, |Xin|, xstand, sqrt);
  }

  /** Per variable, a calibration with settled loadings explains, in either
      mode, between 0 and 100 percent, more with every component. */
  lemma SettledCalibrationPerVariable(Xin: Matrix, par: Params, p: nat, extract: Matrix -> Vector, numPC: nat,
                                      xstand: bool, sqrt: real -> real, s: Summary)
    requires FittedTo(par, Xin, p) && LoadingsFit(extract, p) && SettledLoadings(extract, p)
    requires s.press == CalibrationPress(Xin, par, p, extract, numPC) && SummaryOf(s, p, |Xin|, xstand, sqrt)
    ensures forall k :: 0 <= k <= numPC ==> forall c :: 0 <= c < p ==> 0.0 <= s.cumPerVariable[k][c] <= 100.0
    ensures forall k :: 0 <= k < numPC ==> forall c :: 0 <= c < p ==> s.cumPerVariable[k][c] <= s.cumPerVariable[k + 1][c]
  {
    SettledPressDecreases(Xin, par, p, extract, numPC, s.press);
    SummaryPerVariableMonotone(s, p, |Xin|, xstand, sqrt);
  }

  /** Weighting keeps the order of two rows of sums of squares entry by
      entry: the weights are squares. */
  lemma WeightedOrder(u: Vector, v: Vector, par: Params, p: nat)
    requires Usable(par, p) && |u| == p && |v| == p
    requires forall c :: 0 <= c < p ==> v[c] <= u[c]
    ensures forall c :: 0 <= c < p ==> Weighted(v, par, p)[c] <= Weighted(u, par, p)[c]
  {
    if par.std.Some? {
      forall c | 0 <= c < p ensures Weighted(v, par, p)[c] <= Weighted(u, par, p)[c] {
        SquareNonNegative(par.std.value[c]);
      }
    }
  }

  /** Unweighted PRESS rows of two residuals are ordered as the residuals'
      sums of squares. */
  lemma RowTotalsFollowResiduals(a: Vector, b: Vector, E0: Matrix, E1: Matrix, par: Params, p: nat)
    requires Usable(par, p) && par.std.None? && Rect(E0, p) && Rect(E1, p)
    requires a == Weighted(ColumnSumSquares(E0, p), par, p) && b == Weighted(ColumnSumSquares(E1, p), par, p)
    requires TotalSumSquares(E1) <= TotalSumSquares(E0)
    ensures Sum(b) <= Sum(a)
  {
    TotalSumSquaresByColumns(E0, p);
    TotalSumSquaresByColumns(E1, p);
  }

  /** The calibrated PRESS table of centred data without constant columns
      can be summarised: every baseline entry is positive. */
  lemma CalibrationSummarisable(Xin: Matrix, par: Params, p: nat, extract: Matrix -> Vector, numPC: nat)
    requires FittedTo(par, Xin, p) && LoadingsFit(extract, p) && p > 0 && NoConstantColumn(Xin, p)
    ensures Summarisable(CalibrationPress(Xin, par, p, extract, numPC), p, |Xin|)
  {
    forall c | 0 <= c < p
      ensures 0.0 < CalibrationPress(Xin, par, p, extract, numPC)[0][c]
    {
      SpreadOfNonConstantColumn(Xin, p, c);
    }
  }

  /** The centred model explains a share of the variance between 0 and 100
      percent that grows with every component added, each component adding
      a non-negative share. */
  lemma CentredCalibrationExplained(Xin: Matrix, p: nat, extract: Matrix -> Vector, numPC: nat, sqrt: real -> real)
    requires Fittable(Xin, p, false) && p > 0 && NoConstantColumn(Xin, p) && IsSqrt(sqrt)
    requires LoadingsFit(extract, p) && UnitLoadings(extract, p)
    ensures var par := FitParams(Xin, p, false, sqrt);
      var press := CalibrationPress(Xin, par, p, extract, numPC);
      Summarisable(press, p, |Xin|)
      && (forall k :: 0 <= k <= numPC ==> 0.0 <= Summarise(press, p, |Xin|, false, sqrt).cumTotal[k] <= 100.0)
      && (forall k :: 0 <= k < numPC ==>
            Summarise(press, p, |Xin|, false, sqrt).cumTotal[k] <= Summarise(press, p, |Xin|, false, sqrt).cumTotal[k + 1])
      && (forall k :: 0 <= k < numPC ==> 0.0 <= Summarise(press, p, |Xin|, false, sqrt).perComponent[k])
  {
    var par := FitParams(Xin, p, false, sqrt);
    var press := CalibrationPress(Xin, par, p, extract, numPC);
    CalibrationSummarisable(Xin, par, p, extract, numPC);
    CentredPressDecreases(Xin, par, p, extract, numPC, press);
    CentredSummaryMonotone(press, p, |Xin|, sqrt);
  }
}
