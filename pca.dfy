/** The `nipalsPCA` class of hoggorm/pca.py: the constructor (lines 51-586)
    fits the model once and stores every result in the object; the accessors
    (lines 605-858) return those results; `X_scores_predict` (lines 832-851)
    projects new rows onto the stored loadings. */
module Pca {
  import opened Wrappers
  import opened Linalg
  import opened Preprocessing
  import opened Nipals
  import opened Statistics
  import opened Calibration
  import opened CrossValidation

  /** The `cvType` keyword (lines 104-107, 319-334): absent, or the name of a
      generator with its argument. The segments the generator produces are
      passed to the constructor separately. */
  datatype CvType = NoCv | Loo | KFold(k: int) | Lolo(labels: seq<int>) | Unrecognised(name: string)

  /** The ways the constructor fails. */
  datatype FitError =
    | NoComponents   // numPC < 1: `np.hstack([])` raises (line 179)
    | UnrecognisedCv // `cvComb` was never bound (line 361)
    | NoSegments     // the segment loop never ran, so `dims` is unbound (line 463)
    | RowMismatch    // a stacked prediction cannot be broadcast against the input (line 501)

  /** Input the constructor can preprocess and summarise: no division by a
      zero standard deviation or a zero baseline. */
  predicate Calibratable(Xin: Matrix, p: nat, xstand: bool)
  {
    Fittable(Xin, p, xstand) && p > 0 && NoConstantColumn(Xin, p)
  }

  /** Segments the cross-validation can run on, when there is one. */
  predicate Segmentable(Xin: Matrix, p: nat, cvType: CvType, folds: seq<Fold>, xstand: bool)
  {
    cvType.NoCv? || (|Xin| >= 2 && FoldsFit(Xin, p, folds, xstand))
  }

  /** Input the constructor can be called on: any shape when no component is
      to be computed (it then fails at line 179, whatever the data), and
      otherwise data it can preprocess, summarise and cross-validate. */
  predicate Admissible(Xin: Matrix, p: nat, requested: Option<int>, xstand: bool, cvType: CvType, folds: seq<Fold>)
  {
    Rect(Xin, p)
    && (ChooseNumPC(|Xin|, p, requested) >= 1
        ==> Calibratable(Xin, p, xstand) && Segmentable(Xin, p, cvType, folds, xstand))
  }

  /** Whether, and how, the constructor fails, in the order the source
      meets the errors. */
  function FitFailure(Xin: Matrix, p: nat, requested: Option<int>, xstand: bool, cvType: CvType, folds: seq<Fold>,
                      extract: Matrix -> Vector, sqrt: real -> real): (e: Option<FitError>)
    requires Admissible(Xin, p, requested, xstand, cvType, folds)
    requires IsSqrt(sqrt) && LoadingsFit(extract, p)
  {
    var numPC := ChooseNumPC(|Xin|, p, requested);
    if numPC < 1 then Some(NoComponents)
    else if cvType.NoCv? then None
    else if cvType.Unrecognised? then Some(UnrecognisedCv)
    else if |folds| == 0 then Some(NoSegments)
    else if CvPress(Xin, p, folds, xstand, extract, numPC, sqrt).None? then Some(RowMismatch)
    else None
  }

  /** The constructor fails for want of components exactly when the input
      has no rows or no columns, or fewer than one component is requested;
      otherwise, without cross-validation it succeeds, and with recognised,
      non-empty segments it fails exactly when the segments hold neither one
      test row per input row nor a single test row. */
  lemma FitFailureCases(Xin: Matrix, p: nat, requested: Option<int>, xstand: bool, cvType: CvType, folds: seq<Fold>,
                        extract: Matrix -> Vector, sqrt: real -> real)
    requires Admissible(Xin, p, requested, xstand, cvType, folds)
    requires IsSqrt(sqrt) && LoadingsFit(extract, p)
    ensures FitFailure(Xin, p, requested, xstand, cvType, folds, extract, sqrt) == Some(NoComponents)
        <==> |Xin| == 0 || p == 0 || (requested.Some? && requested.value < 1)
    ensures |Xin| > 0 && p > 0 && cvType.NoCv? && (requested.None? || requested.value >= 1)
        ==> FitFailure(Xin, p, requested, xstand, cvType, folds, extract, sqrt).None?
    ensures |Xin| > 0 && p > 0 && (requested.None? || requested.value >= 1)
            && !cvType.NoCv? && !cvType.Unrecognised? && |folds| > 0
        ==> (FitFailure(Xin, p, requested, xstand, cvType, folds, extract, sqrt).None?
             <==> TestCount(folds) == |Xin| || TestCount(folds) == 1)
  {
    var numPC := ChooseNumPC(|Xin|, p, requested);
    if numPC >= 1 && !cvType.NoCv? {
      CvPressDefined(Xin, p, folds, xstand, extract, numPC, sqrt);
    }
  }

  /** A fitted model. Every field is set once, by the constructor, and read
      by the accessors. */
  class NipalsPca {
    const arrXInput: Matrix
    const p: nat
    const xstand: bool
    const cvType: CvType
    const folds: seq<Fold>
    /** The NIPALS inner iteration: the loading it settles on for a residual. */
    const extract: Matrix -> Vector
    const sqrt: real -> real

    const numPC: nat
    const par: Params
    const arrX: Matrix
    const scoresList: seq<Vector>
    const loadingsList: seq<Vector>
    const residualsDict: map<nat, Matrix>
    const calXpredList: seq<Matrix>
    /** The calibration statistics: `cal.press` is `PRESSEarr_indVar_X`,
        `cal.mse` is `MSEEarr_indVar_X`, `cal.mseTotal` is
        `MSEE_total_list_X`, `cal.cumPerVariable` is
        `cumCalExplVarXarr_indVar` and `cal.cumTotal` is
        `XcumCalExplVarList`. */
    const cal: Summary
    const valXpredList: seq<Matrix>
    /** The validation statistics, the same way round, when the model is
        cross-validated. */
    const val: Option<Summary>

    /** The fields hold what the constructor computes from its inputs. */
    ghost predicate Valid()
    {
      Calibrated() && CrossValidated()
      && cal.press == CalibrationPress(arrXInput, par, p, extract, numPC)
      && Summarised()
    }

    /** The calibration fields hold what lines 67-205 compute from the
        input. */
    ghost predicate Calibrated()
    {
      Calibratable(arrXInput, p, xstand) && IsSqrt(sqrt) && LoadingsFit(extract, p) && numPC >= 1
      && par == FitParams(arrXInput, p, xstand, sqrt)
      && arrX == Apply(arrXInput, par, p)
      && scoresList == Scores(extract, arrX, p, numPC)
      && loadingsList == Loadings(extract, arrX, p, numPC)
      && residualsDict == ResidualsByComponent(extract, arrX, p, numPC)
      && calXpredList == Predictions(scoresList, loadingsList, |arrXInput|, p, par)
    }

    /** The validation fields hold what lines 318-586 compute from the
        input and the segments, when the model is cross-validated. */
    ghost predicate CrossValidated()
    {
      CvPredicted()
      && (val.Some? ==> CvPress(arrXInput, p, folds, xstand, extract, numPC, sqrt) == Some(val.value.press))
    }

    /** The stacked predictions of the segments' test rows are those of
        lines 318-430, when the model is cross-validated. */
    ghost predicate CvPredicted()
    {
      Calibratable(arrXInput, p, xstand) && Segmentable(arrXInput, p, cvType, folds, xstand)
      && IsSqrt(sqrt) && LoadingsFit(extract, p)
      && (cvType.NoCv? <==> val.None?)
      && (val.Some? ==>
            !cvType.Unrecognised? && |folds| > 0
            && valXpredList == CvPredictions(arrXInput, p, folds, xstand, extract, numPC, sqrt))
    }

    /** The stored statistics are those of their own PRESS tables, with one
        row for each number of components from 0 to `numPC`. */
    ghost predicate Summarised()
    {
      SummaryOf(cal, p, |arrXInput|, xstand, sqrt) && |cal.press| == numPC + 1
      && (val.Some? ==> SummaryOf(val.value, p, |arrXInput|, xstand, sqrt) && |val.value.press| == numPC + 1)
    }

    /** Lines 51-586 on input the constructor does not fail on: preprocess,
        decompose, predict, summarise the calibration and, when asked for,
        cross-validate and summarise the validation. */
    constructor (arrXInput: Matrix, p: nat, requested: Option<int>, xstand: bool, cvType: CvType, folds: seq<Fold>,
                 extract: Matrix -> Vector, sqrt: real -> real)
      requires Admissible(arrXInput, p, requested, xstand, cvType, folds)
      requires IsSqrt(sqrt) && LoadingsFit(extract, p)
      requires FitFailure(arrXInput, p, requested, xstand, cvType, folds, extract, sqrt).None?
      ensures Valid()
      ensures this.arrXInput == arrXInput && this.p == p && this.xstand == xstand
      ensures this.cvType == cvType && this.folds == folds && this.extract == extract && this.sqrt == sqrt
      ensures numPC == ChooseNumPC(|arrXInput|, p, requested)
    {
      this.arrXInput := arrXInput;
      this.p := p;
      this.xstand := xstand;
      this.cvType := cvType;
      this.folds := folds;
      this.extract := extract;
      this.sqrt := sqrt;
      var k := ChooseNumPC(|arrXInput|, p, requested) as nat;
      assert Calibratable(arrXInput, p, xstand) && Segmentable(arrXInput, p, cvType, folds, xstand);
      numPC := k;
      var fitted := FitParams(arrXInput, p, xstand, sqrt);
      par := fitted;
      var x := Apply(arrXInput, fitted, p);
      arrX := x;
      var T, P, E := Decompose(x, p, k, extract);
      scoresList, loadingsList, residualsDict := T, P, E;
      var preds := CumulativePredictions(T, P, |arrXInput|, p, fitted);
      calXpredList := preds;
      var press := PressEntries(arrXInput, preds, p);
      CalibrationSummarisable(arrXInput, fitted, p, extract, k);
      var summary := SummariseTable(press, p, |arrXInput|, xstand, sqrt);
      cal := summary;
      if cvType.NoCv? {
        valXpredList, val := [], None;
      } else {
        var stacked, cvPress := CrossValidate(arrXInput, p, folds, xstand, extract, k, sqrt);
        CvSummarisable(arrXInput, p, folds, xstand, extract, k, sqrt);
        var s := SummariseTable(cvPress.value, p, |arrXInput|, xstand, sqrt);
        valXpredList, val := stacked, Some(s);
      }
    }

    /** Construction with its error outcomes. */
    static method Fit(arrXInput: Matrix, p: nat, requested: Option<int>, xstand: bool, cvType: CvType, folds: seq<Fold>,
                      extract: Matrix -> Vector, sqrt: real -> real)
      returns (r: Result<NipalsPca, FitError>)
      requires Admissible(arrXInput, p, requested, xstand, cvType, folds)
      requires IsSqrt(sqrt) && LoadingsFit(extract, p)
      ensures r.Err? <==> FitFailure(arrXInput, p, requested, xstand, cvType, folds, extract, sqrt).Some?
      ensures r.Err? ==> r.error == FitFailure(arrXInput, p, requested, xstand, cvType, folds, extract, sqrt).value
      ensures r.Ok? ==> fresh(r.value) && r.value.Valid()
      ensures r.Ok? ==> r.value.arrXInput == arrXInput && r.value.numPC == ChooseNumPC(|arrXInput|, p, requested)
    {
      var k := ChooseNumPC(|arrXInput|, p, requested);
      if k < 1 {
        return Err(NoComponents);
      }
      if !cvType.NoCv? {
        if cvType.Unrecognised? {
          return Err(UnrecognisedCv);
        }
        if |folds| == 0 {
          return Err(NoSegments);
        }
        CvPressDefined(arrXInput, p, folds, xstand, extract, k, sqrt);
        var t := TestCount(folds);
        if t != |arrXInput| && t != 1 {
          return Err(RowMismatch);
        }
      }
      var model := new NipalsPca(arrXInput, p, requested, xstand, cvType, folds, extract, sqrt);
      return Ok(model);
    }

    // -------------------------------------------------------------------------
    // The decomposition (lines 605-659 and 686-701)
    // -------------------------------------------------------------------------

    /** `X_means` (lines 605-609): the column means, as one row; each mean
        times the number of objects is the column sum. */
    function XMeans(): (m: Matrix)
      requires Calibrated()
      ensures IsMatrix(m, 1, p)
      ensures forall c :: 0 <= c < p ==> m[0][c] * |arrXInput| as real == ColumnSums(arrXInput, p)[c]
    {
      [par.means]
    }

    /** `X_scores` (lines 612-617): column `j` holds the scores of component
        `j`, the residual left by the earlier components projected on the
        component's loading; every score column sums to zero. */
    function XScores(): (T: Matrix)
      requires Calibrated()
      ensures IsMatrix(T, |arrXInput|, numPC)
      ensures forall i, j :: 0 <= i < |arrXInput| && 0 <= j < numPC ==>
        T[i][j] == Dot(Residual(extract, arrX, p, j)[i], Loading(extract, arrX, p, j))
      ensures forall j :: 0 <= j < numPC ==> Sum(Column(T, j)) == 0.0
    {
      ComponentsAt(extract, arrX, p, numPC);
      FittedColumnsSumToZero(arrXInput, par, p);
      CentredDecomposition(extract, arrX, p, numPC);
      HStackColumns(scoresList, |arrXInput|);
      HStack(scoresList, |arrXInput|)
    }

    /** `X_loadings` (lines 620-625): column `j` holds the loading of
        component `j`, the one the iteration settles on for the residual left
        by the earlier components; with normalised loadings each column has
        unit length. */
    function XLoadings(): (P: Matrix)
      requires Calibrated()
      ensures IsMatrix(P, p, numPC)
      ensures forall c, j :: 0 <= c < p && 0 <= j < numPC ==> P[c][j] == Loading(extract, arrX, p, j)[c]
      ensures UnitLoadings(extract, p) ==> forall j :: 0 <= j < numPC ==> Dot(Column(P, j), Column(P, j)) == 1.0
    {
      ComponentsAt(extract, arrX, p, numPC);
      HStackColumns(loadingsList, p);
      HStack(loadingsList, p)
    }

    /** `X_residuals` (lines 654-659): under key `k`, the preprocessed data
        minus what the first `k` components model, `arrX - T_k·P_kᵀ`; every
        residual column sums to zero. */
    function XResiduals(): (D: map<nat, Matrix>)
      requires Calibrated()
      ensures forall k :: k in D <==> 1 <= k <= numPC
      ensures forall k :: 1 <= k <= numPC ==>
        D[k] == Sub(arrX, TruncatedProduct(scoresList, loadingsList, k, |arrXInput|, p))
      ensures forall k :: 1 <= k <= numPC ==>
        IsMatrix(D[k], |arrXInput|, p) && forall c :: 0 <= c < p ==> ColumnSums(D[k], p)[c] == 0.0
    {
      ResidualsAreUnmodelled(extract, arrX, p, numPC);
      FittedColumnsSumToZero(arrXInput, par, p);
      CentredResiduals(extract, arrX, p, numPC);
      residualsDict
    }

    /** `X_predCal` (lines 686-692): under key `k`, the prediction with `k`
        components in the units of the input (what `PredCalSplitsData` says
        it is). */
    function XPredCal(): (D: map<nat, Matrix>)
      requires Calibrated()
      ensures forall k :: k in D <==> 1 <= k <= numPC
      ensures forall k :: 1 <= k <= numPC ==> D[k] == calXpredList[k - 1]
    {
      Keyed(calXpredList)
    }

    /** Every entry of `X_predCal`, preprocessed, adds up with the residual
        after as many components to the preprocessed data. */
    lemma PredCalSplitsData(k: nat)
      requires Calibrated() && 1 <= k <= numPC
      ensures IsMatrix(XPredCal()[k], |arrXInput|, p)
      ensures Add(Apply(XPredCal()[k], par, p), Residual(extract, arrX, p, k)) == arrX
    {
      PredictionsSplitData(arrXInput, par, p, extract, numPC, arrX, calXpredList);
    }

    /** `X_PRESSE_indVar` (lines 695-701): row 0 is the sum of squares of
        each centred input column; row `k` is the sum of squares of each
        column of the residual after `k` components, scaled back to the
        units of the input. */
    function XPresseIndVar(): (E: Matrix)
      requires Valid()
      ensures IsMatrix(E, numPC + 1, p) && NonNegative(E)
      ensures E[0] == ColumnSumSquares(Centre(arrXInput, p), p)
      ensures forall k :: 0 <= k <= numPC ==>
        E[k] == Weighted(ColumnSumSquares(Residual(extract, arrX, p, k), p), par, p)
    {
      PressIsResidualSumSquares(arrXInput, par, p, extract, numPC);
      cal.press
    }

    /** When centring with normalised loadings, adding a component never
        increases the total PRESSE or MSEE, never decreases the cumulative
        explained variance, which stays between 0 and 100 percent, and so
        never adds a negative share. */
    lemma CentredCalibrationMonotone()
      requires Valid()
      ensures !xstand && UnitLoadings(extract, p) ==>
        (forall k :: 0 <= k < numPC ==> cal.pressTotal[k + 1] <= cal.pressTotal[k])
        && (forall k :: 0 <= k < numPC ==> cal.mseTotal[k + 1] <= cal.mseTotal[k])
        && (forall k :: 0 <= k <= numPC ==> 0.0 <= cal.cumTotal[k] <= 100.0)
        && (forall k :: 0 <= k < numPC ==> cal.cumTotal[k] <= cal.cumTotal[k + 1])
        && (forall k :: 0 <= k < numPC ==> 0.0 <= cal.perComponent[k])
    {
      if !xstand && UnitLoadings(extract, p) {
        CentredPressDecreases(arrXInput, par, p, extract, numPC, cal.press);
        CentredSummaryMonotone(cal.press, p, |arrXInput|, sqrt);
      }
    }

    /** With settled loadings, in either mode, adding a component never
        increases the PRESSE of any variable. */
    lemma SettledCalibrationPress()
      requires Valid()
      ensures SettledLoadings(extract, p) ==>
        forall k :: 0 <= k < numPC ==> forall c :: 0 <= c < p ==> cal.press[k + 1][c] <= cal.press[k][c]
    {
      if SettledLoadings(extract, p) {
        SettledPressDecreases(arrXInput, par, p, extract, numPC, cal.press);
      }
    }

    /** With settled loadings, in either mode, adding a component never
        increases the total PRESSE or MSEE, never decreases the total
        explained variance, which stays between 0 and 100 percent, and so
        never adds a negative share. */
    lemma SettledCalibrationMonotone()
      requires Valid()
      ensures SettledLoadings(extract, p) ==>
        (forall k :: 0 <= k < numPC ==> cal.pressTotal[k + 1] <= cal.pressTotal[k] && cal.mseTotal[k + 1] <= cal.mseTotal[k])
        && (forall k :: 0 <= k <= numPC ==> 0.0 <= cal.cumTotal[k] <= 100.0)
        && (forall k :: 0 <= k < numPC ==> cal.cumTotal[k] <= cal.cumTotal[k + 1] && 0.0 <= cal.perComponent[k])
    {
      if SettledLoadings(extract, p) {
        SettledCalibrationTotals(arrXInput, par, p, extract, numPC, xstand, sqrt, cal);
      }
    }

    /** With settled loadings, in either mode, the explained variance of
        every variable stays between 0 and 100 percent and never decreases
        as components are added. */
    lemma SettledExplainedPerVariable()
      requires Valid()
      ensures SettledLoadings(extract, p) ==>
        (forall k :: 0 <= k <= numPC ==> forall c :: 0 <= c < p ==> 0.0 <= cal.cumPerVariable[k][c] <= 100.0)
        && (forall k :: 0 <= k < numPC ==> forall c :: 0 <= c < p ==> cal.cumPerVariable[k][c] <= cal.cumPerVariable[k + 1][c])
    {
      if SettledLoadings(extract, p) {
        SettledCalibrationPerVariable(arrXInput, par, p, extract, numPC, xstand, sqrt, cal);
      }
    }

    // -------------------------------------------------------------------------
    // Calibration statistics (lines 662-683 and 704-744)
    // -------------------------------------------------------------------------

    /** `X_PRESSE` (lines 704-710): each row of `X_PRESSE_indVar` summed over
        the variables. */
    function XPresse(): (r: Vector)
      requires Summarised()
      ensures RowTotals(r, cal.press)
    {
      SummaryErrors(cal.press, p, |arrXInput|, xstand, sqrt, cal);
      cal.pressTotal
    }

    /** `X_MSEE_indVar` (lines 713-718): `X_PRESSE_indVar` per object. */
    function XMseeIndVar(): (M: Matrix)
      requires Summarised()
      ensures IsMatrix(M, numPC + 1, p) && PerObject(M, cal.press, |arrXInput|)
    {
      SummaryErrors(cal.press, p, |arrXInput|, xstand, sqrt, cal);
      cal.mse
    }

    /** `X_MSEE` (lines 721-727): the total PRESSE per entry of the data. */
    function XMsee(): (m: Vector)
      requires Summarised()
      ensures TotalPerEntry(m, cal.press, p * |arrXInput|)
    {
      SummaryErrors(cal.press, p, |arrXInput|, xstand, sqrt, cal);
      cal.mseTotal
    }

    /** `X_RMSEE_indVar` (lines 730-735): the non-negative root of each
        entry of `X_MSEE_indVar`. */
    function XRmseeIndVar(): (R: Matrix)
      requires Summarised()
      ensures RootsOf(R, cal.mse)
    {
      SummaryErrors(cal.press, p, |arrXInput|, xstand, sqrt, cal);
      cal.rmse
    }

    /** `X_RMSEE` (lines 738-744): the non-negative root of each entry of
        `X_MSEE`. */
    function XRmsee(): (r: Vector)
      requires Summarised()
      ensures RootsOfEach(r, cal.mseTotal)
    {
      SummaryErrors(cal.press, p, |arrXInput|, xstand, sqrt, cal);
      cal.rmseTotal
    }

    /** `X_cumCalExplVar_indVar` (lines 670-675): per variable, the share of
        its PRESSE that `k` components remove, in percent; zero for no
        components. */
    function XCumCalExplVarIndVar(): (E: Matrix)
      requires Summarised()
      ensures ExplainedPerColumn(E, cal.press, p)
      ensures forall c :: 0 <= c < p ==> E[0][c] == 0.0
    {
      SummaryExplained(cal.press, p, |arrXInput|, xstand, sqrt, cal);
      cal.cumPerVariable
    }

    /** `X_cumCalExplVar` (lines 678-683): zero for no components; the
        average of `X_cumCalExplVar_indVar` over the variables when
        standardising, the share of the total PRESSE removed when centring. */
    function XCumCalExplVar(): (cum: Vector)
      requires Summarised()
      ensures |cum| == numPC + 1 && cum[0] == 0.0
      ensures xstand ==> RowAverages(cum, cal.cumPerVariable, p)
      ensures !xstand ==> ShareOfTotal(cum, cal.press)
    {
      SummaryExplained(cal.press, p, |arrXInput|, xstand, sqrt, cal);
      cal.cumTotal
    }

    /** `X_calExplVar` (lines 662-667): what each component adds to
        `X_cumCalExplVar`; the shares add up to the last cumulative value. */
    function XCalExplVar(): (d: Vector)
      requires Summarised()
      ensures Increments(d, cal.cumTotal)
      ensures Sum(d) == cal.cumTotal[numPC]
    {
      SummaryExplained(cal.press, p, |arrXInput|, xstand, sqrt, cal);
      cal.perComponent
    }

    // -------------------------------------------------------------------------
    // Validation accessors (lines 747-829 and 854-858). Without
    // cross-validation the attributes they read are never set and the source
    // raises `AttributeError`; here they return `None`.
    // -------------------------------------------------------------------------

    /** `X_PRESSCV_indVar` (lines 778-784): one row of non-negative PRESS
        values per number of components from 0 to `numPC`;
        `ValidatedBaseline` and `ValidatedPressRows` say what each row
        holds. */
    function XPresscvIndVar(): (r: Option<Matrix>)
      requires Summarised()
      ensures r.Some? <==> val.Some?
      ensures r.Some? ==> IsMatrix(r.value, numPC + 1, p) && NonNegative(r.value)
    {
      if val.None? then None else Some(val.value.press)
    }

    /** Row 0 of `X_PRESSCV_indVar` is `n/(n - 1)` times row 0 of
        `X_PRESSE_indVar`: the validated baseline uses the sample variance
        (lines 492-494). */
    lemma ValidatedBaseline()
      requires Valid() && val.Some?
      ensures ScaledBaseline(val.value.press[0], cal.press[0], |arrXInput|)
    {
      CvPressRows(arrXInput, p, folds, xstand, extract, numPC, sqrt, valXpredList, val.value.press);
    }

    /** Row `k` of `X_PRESSCV_indVar` is the PRESS of the stacked
        predictions with `k` components (lines 493-503). */
    lemma ValidatedPressRows()
      requires CrossValidated() && val.Some?
      ensures forall k :: 1 <= k <= numPC ==> CvPressRow(arrXInput, valXpredList[k - 1], p) == Some(val.value.press[k])
    {
      CvPressRows(arrXInput, p, folds, xstand, extract, numPC, sqrt, valXpredList, val.value.press);
    }

    /** `X_PRESSCV` (lines 787-793): each row of `X_PRESSCV_indVar` summed
        over the variables. */
    function XPresscv(): (r: Option<Vector>)
      requires Summarised()
      ensures r.Some? <==> val.Some?
      ensures r.Some? ==> RowTotals(r.value, val.value.press)
    {
      if val.None? then None
      else
        SummaryErrors(val.value.press, p, |arrXInput|, xstand, sqrt, val.value);
        Some(val.value.pressTotal)
    }

    /** `X_MSECV_indVar` (lines 796-802): `X_PRESSCV_indVar` per object. */
    function XMsecvIndVar(): (r: Option<Matrix>)
      requires Summarised()
      ensures r.Some? <==> val.Some?
      ensures r.Some? ==> IsMatrix(r.value, numPC + 1, p) && PerObject(r.value, val.value.press, |arrXInput|)
    {
      if val.None? then None
      else
        SummaryErrors(val.value.press, p, |arrXInput|, xstand, sqrt, val.value);
        Some(val.value.mse)
    }

    /** `X_MSECV` (lines 805-811): the total PRESSCV per entry of the data. */
    function XMsecv(): (r: Option<Vector>)
      requires Summarised()
      ensures r.Some? <==> val.Some?
      ensures r.Some? ==> TotalPerEntry(r.value, val.value.press, p * |arrXInput|)
    {
      if val.None? then None
      else
        var s := val.value;
        SummaryErrors(s.press, p, |arrXInput|, xstand, sqrt, s);
        Some(s.mseTotal)
    }

    /** `X_RMSECV_indVar` (lines 814-820): the non-negative root of each
        entry of `X_MSECV_indVar`. */
    function XRmsecvIndVar(): (r: Option<Matrix>)
      requires Summarised()
      ensures r.Some? <==> val.Some?
      ensures r.Some? ==> RootsOf(r.value, val.value.mse)
    {
      if val.None? then None
      else
        SummaryErrors(val.value.press, p, |arrXInput|, xstand, sqrt, val.value);
        Some(val.value.rmse)
    }

    /** `X_RMSECV` (lines 823-829): the non-negative root of each entry of
        `X_MSECV`. */
    function XRmsecv(): (r: Option<Vector>)
      requires Summarised()
      ensures r.Some? <==> val.Some?
      ensures r.Some? ==> RootsOfEach(r.value, val.value.mseTotal)
    {
      if val.None? then None
      else
        SummaryErrors(val.value.press, p, |arrXInput|, xstand, sqrt, val.value);
        Some(val.value.rmseTotal)
    }

    /** `X_cumValExplVar_indVar` (lines 754-760): per variable, the share of
        its zero-component PRESSCV that `k` components remove, in percent. */
    function XCumValExplVarIndVar(): (r: Option<Matrix>)
      requires Summarised()
      ensures r.Some? <==> val.Some?
      ensures r.Some? ==> ExplainedPerColumn(r.value, val.value.press, p)
      ensures r.Some? ==> forall c :: 0 <= c < p ==> r.value[0][c] == 0.0
    {
      if val.None? then None
      else
        SummaryExplained(val.value.press, p, |arrXInput|, xstand, sqrt, val.value);
        Some(val.value.cumPerVariable)
    }

    /** `X_cumValExplVar` (lines 763-767): zero for no components; the
        average of `X_cumValExplVar_indVar` when standardising, the share of
        the total PRESSCV removed when centring. */
    function XCumValExplVar(): (r: Option<Vector>)
      requires Summarised()
      ensures r.Some? <==> val.Some?
      ensures r.Some? ==> |r.value| == numPC + 1 && r.value[0] == 0.0
      ensures r.Some? && xstand ==> RowAverages(r.value, val.value.cumPerVariable, p)
      ensures r.Some? && !xstand ==> ShareOfTotal(r.value, val.value.press)
    {
      if val.None? then None
      else
        SummaryExplained(val.value.press, p, |arrXInput|, xstand, sqrt, val.value);
        Some(val.value.cumTotal)
    }

    /** `X_valExplVar` (lines 747-751): what each component adds to
        `X_cumValExplVar`; the shares add up to the last cumulative value. */
    function XValExplVar(): (r: Option<Vector>)
      requires Summarised()
      ensures r.Some? <==> val.Some?
      ensures r.Some? ==> Increments(r.value, val.value.cumTotal) && Sum(r.value) == val.value.cumTotal[numPC]
    {
      if val.None? then None
      else
        SummaryExplained(val.value.press, p, |arrXInput|, xstand, sqrt, val.value);
        Some(val.value.perComponent)
    }

    /** `X_predVal` (lines 770-775): under key `k`, the stacked predictions
        of every segment's test rows with `k` components, one row per test
        index. */
    function XPredVal(): (r: Option<map<nat, Matrix>>)
      requires CvPredicted()
      ensures r.Some? <==> val.Some?
      ensures r.Some? ==> forall k :: k in r.value <==> 1 <= k <= numPC
      ensures r.Some? ==> forall k :: 1 <= k <= numPC ==>
        r.value[k] == valXpredList[k - 1] && IsMatrix(r.value[k], TestCount(folds), p)
    {
      if val.None? then None
      else
        StackedShape(arrXInput, p, folds, xstand, extract, numPC, sqrt, valXpredList);
        Some(Keyed(valXpredList))
    }

    // -------------------------------------------------------------------------
    // Scores of new rows (lines 832-851)
    // -------------------------------------------------------------------------

    /** `X_scores_predict` (lines 832-851) as written: the new rows are
        centred on the column means of the input and, when standardising,
        divided by one standard deviation of all of the input's entries taken
        together (lines 841-843), then projected on the loadings the slice
        `[:, 0:numPC]` keeps. Only without standardising does it agree with
        `XScoresPredict`. */
    function XScoresPredictAsWritten(Xnew: Matrix, count: int): (T: Matrix)
      requires Calibrated() && Rect(Xnew, p)
      ensures IsMatrix(T, |Xnew|, SliceEnd(count, numPC))
      ensures forall i, j :: 0 <= i < |Xnew| && 0 <= j < SliceEnd(count, numPC) ==>
        T[i][j] == Dot(Apply(Xnew, AsWrittenParams(arrXInput, p, xstand, sqrt), p)[i], Loading(extract, arrX, p, j))
      ensures !xstand ==> T == XScoresPredict(Xnew, count)
    {
      ComponentsAt(extract, arrX, p, numPC);
      MulTranspose(Apply(Xnew, AsWrittenParams(arrXInput, p, xstand, sqrt), p), loadingsList[..SliceEnd(count, numPC)], p)
    }

    /** When every input column has the same sample variance, every score
        `X_scores_predict` as written gives the input itself is `r` times the
        one the constructor's preprocessing gives, with `r²` the column
        variance over the variance of all entries together. */
    lemma AsWrittenScoresScaled(count: int) returns (r: real)
      requires Calibrated() && xstand && SharedColumnVariance(arrXInput, p)
      ensures RootRatio(r, WholeVariance(arrXInput, p), SampleVariances(arrXInput, p)[0])
      ensures ScaledBy(XScoresPredictAsWritten(arrXInput, count), XScoresPredict(arrXInput, count), r)
    {
      r := SharedVarianceRescales(arrXInput, p, xstand, sqrt);
      RescaledScores(extract, arrX, p, Apply(arrXInput, AsWrittenParams(arrXInput, p, xstand, sqrt), p),
        Apply(arrXInput, FitParams(arrXInput, p, xstand, sqrt), p),
        XScoresPredictAsWritten(arrXInput, count), XScoresPredict(arrXInput, count), r, |arrXInput|, SliceEnd(count, numPC));
    }

    /** The first column `X_scores_predict` as written gives the input
        itself is then `r` times that of `X_scores`; unless the column
        variance and that of all entries together agree, it differs from
        `X_scores` wherever that column is non-zero. */
    lemma AsWrittenFirstScores(count: int) returns (r: real)
      requires Calibrated() && xstand && SharedColumnVariance(arrXInput, p) && 1 <= SliceEnd(count, numPC)
      ensures RootRatio(r, WholeVariance(arrXInput, p), SampleVariances(arrXInput, p)[0])
      ensures var T, S := XScoresPredictAsWritten(arrXInput, count), XScores();
        ColumnScaledBy(T, S, 0, r)
        && (WholeVariance(arrXInput, p) != SampleVariances(arrXInput, p)[0] ==> ColumnDiffersWhereNonZero(T, S, 0))
    {
      r := AsWrittenScoresScaled(count);
      RescaledFirstColumn(XScoresPredictAsWritten(arrXInput, count), XScoresPredict(arrXInput, count), XScores(),
        r, WholeVariance(arrXInput, p), SampleVariances(arrXInput, p)[0], |arrXInput|, SliceEnd(count, numPC), numPC);
    }

    /** On `ZeroOne` the first column `X_scores_predict` as written gives
        the input itself is `sqrt(3/2)` times that of `X_scores`, and so
        differs from it wherever that column is non-zero. */
    lemma ZeroOneFirstScores(count: int) returns (r: real)
      requires Calibrated() && xstand && arrXInput == ZeroOne && 1 <= SliceEnd(count, numPC)
      ensures 0.0 < r && r * r == 1.5
      ensures var T, S := XScoresPredictAsWritten(arrXInput, count), XScores();
        ColumnScaledBy(T, S, 0, r) && ColumnDiffersWhereNonZero(T, S, 0)
    {
      ZeroOneSharedVariance();
      r := AsWrittenFirstScores(count);
      ThreeHalves(r, WholeVariance(arrXInput, p), SampleVariances(arrXInput, p)[0]);
    }

    /** `X_scores_predict` with the new rows preprocessed as the constructor
        preprocessed the input (lines 93-99), column by column: score `j` of a
        new row is that row, preprocessed, projected on loading `j`. On the
        input itself the first column is that of `X_scores`. */
    function XScoresPredict(Xnew: Matrix, count: int): (T: Matrix)
      requires Calibrated() && Rect(Xnew, p)
      ensures IsMatrix(T, |Xnew|, SliceEnd(count, numPC))
      ensures forall i, j :: 0 <= i < |Xnew| && 0 <= j < SliceEnd(count, numPC) ==>
        T[i][j] == Dot(Apply(Xnew, par, p)[i], Loading(extract, arrX, p, j))
      ensures Xnew == arrXInput && 1 <= SliceEnd(count, numPC) ==>
        forall i :: 0 <= i < |Xnew| ==> T[i][0] == XScores()[i][0]
    {
      ComponentsAt(extract, arrX, p, numPC);
      MulTranspose(Apply(Xnew, par, p), loadingsList[..SliceEnd(count, numPC)], p)
    }

    /** `cvTrainAndTestData` (lines 854-858): for every segment, its training
        rows and its test rows of the input, in index order (lines 362-367). */
    function CvTrainAndTestData(): (r: Option<seq<(Matrix, Matrix)>>)
      requires CvPredicted()
      ensures r.Some? <==> val.Some?
      ensures r.Some? ==> |r.value| == |folds|
      ensures r.Some? ==> forall b :: 0 <= b < |folds| ==>
        |r.value[b].0| == |folds[b].train| && |r.value[b].1| == |folds[b].test|
      ensures r.Some? ==> forall b, i :: 0 <= b < |folds| && 0 <= i < |folds[b].train| ==>
        r.value[b].0[i] == arrXInput[folds[b].train[i]]
      ensures r.Some? ==> forall b, i :: 0 <= b < |folds| && 0 <= i < |folds[b].test| ==>
        r.value[b].1[i] == arrXInput[folds[b].test[i]]
    {
      if val.None? then None
      else Some(seq(|folds|, b requires 0 <= b < |folds| =>
        (Rows(arrXInput, folds[b].train, p), Rows(arrXInput, folds[b].test, p))))
    }
  }

  /** The end of the Python slice `[0:k]` of a sequence of length `m`: a
      negative `k` counts from the end, and either way the end is clamped to
      `0..m`. */
  function SliceEnd(k: int, m: nat): (e: nat)
    ensures e <= m
    ensures 0 <= k <= m ==> e == k
    ensures m < k ==> e == m
    ensures k < 0 && 0 <= m + k ==> e == m + k
    ensures m + k < 0 ==> e == 0
  {
    if k >= 0 then (if k <= m then k else m)
    else if m + k >= 0 then m + k else 0
  }

  /** The parameters `X_scores_predict` preprocesses new rows with (lines
      839-846): the column means of the input and, when standardising, the
      standard deviation of all of its entries taken together, the same for
      every column. Without standardising they are those of the model. */
  function AsWrittenParams(Xin: Matrix, p: nat, xstand: bool, sqrt: real -> real): (P: Params)
    requires Calibratable(Xin, p, xstand) && IsSqrt(sqrt)
    ensures Usable(P, p) && P.means == FitParams(Xin, p, xstand, sqrt).means
    ensures P.std.Some? <==> xstand
    ensures xstand ==> forall c :: 0 <= c < p ==> P.std.value[c] * P.std.value[c] == WholeVariance(Xin, p)
    ensures !xstand ==> P == FitParams(Xin, p, xstand, sqrt)
  {
    if xstand then
      WholeVariancePositive(Xin, p);
      var s := WholeStd(Xin, p, sqrt);
      Params(ColumnMeans(Xin, p), Some(seq(p, c => s)))
    else
      Params(ColumnMeans(Xin, p), None)
  }

  /** A two-by-two input whose columns each hold 0 and 1. */
  const ZeroOne: Matrix := [[0.0, 0.0], [1.0, 1.0]]

  /** Every mean of `ZeroOne` is 1/2, column by column and overall. */
  lemma ZeroOneMeans()
    ensures Rect(ZeroOne, 2) && |ZeroOne| == 2
    ensures ColumnMeans(ZeroOne, 2)[0] == 0.5 && ColumnMeans(ZeroOne, 2)[1] == 0.5 && WholeMean(ZeroOne, 2) == 0.5
  {
    var X := ZeroOne;
    SumPair(Column(X, 0));
    SumPair(Column(X, 1));
    SumPair(ColumnSums(X, 2));
  }

  /** All four entries of `ZeroOne` lie 1/2 from their mean: their sample
      variance is 1/3. */
  lemma ZeroOneWholeVariance()
    ensures Rect(ZeroOne, 2) && WholeVariance(ZeroOne, 2) * 3.0 == 1.0
  {
    ZeroOneMeans();
    var D := WholeCentre(ZeroOne, 2);
    var S := Square(D);
    assert S[0][0] == 0.25 && S[0][1] == 0.25 && S[1][0] == 0.25 && S[1][1] == 0.25;
    SumPair(S[0]);
    SumPair(S[1]);
    SumPair(RowSums(S));
  }

  /** Each column of `ZeroOne` lies 1/2 from its mean in both rows: its
      sample variance is 1/2. */
  lemma ZeroOneColumnVariance()
    ensures Rect(ZeroOne, 2) && |ZeroOne| == 2
    ensures SampleVariances(ZeroOne, 2)[0] == 0.5 && SampleVariances(ZeroOne, 2)[1] == 0.5
  {
    ZeroOneMeans();
    var C := Centre(ZeroOne, 2);
    assert C == SubRow(ZeroOne, ColumnMeans(ZeroOne, 2));
    var col0 := Column(Square(C), 0);
    var col1 := Column(Square(C), 1);
    assert col0[0] == 0.25 && col0[1] == 0.25 && col1[0] == 0.25 && col1[1] == 0.25;
    SumPair(col0);
    SumPair(col1);
  }

  /** `ZeroOne` can be standardised, and the two standard deviations of
      its first column differ: 1/3 squared as written, 1/2 squared when fitted. */
  lemma ZeroOneStdDevs(sqrt: real -> real, s1: real, s2: real)
    requires IsSqrt(sqrt) && Calibratable(ZeroOne, 2, true)
    requires s1 == AsWrittenParams(ZeroOne, 2, true, sqrt).std.value[0]
    requires s2 == FitParams(ZeroOne, 2, true, sqrt).std.value[0]
    ensures s1 * s1 * 3.0 == 1.0 && s2 * s2 == 0.5
  {
    ZeroOneSharedVariance();
    SharedStds(ZeroOne, 2, true, sqrt);
    WholeStdIsRoot(ZeroOne, 2, sqrt);
    FirstStdIsRoot(ZeroOne, 2, sqrt);
    RootsOfThirdAndHalf(s1, WholeVariance(ZeroOne, 2), s2, SampleVariances(ZeroOne, 2)[0]);
  }

  /** The roots of variances 1/3 and 1/2 square to those variances. */
  lemma RootsOfThirdAndHalf(s1: real, v1: real, s2: real, v2: real)
    requires IsRoot(s1, v1) && IsRoot(s2, v2) && v1 * 3.0 == 1.0 && v2 == 0.5
    ensures s1 * s1 * 3.0 == 1.0 && s2 * s2 == 0.5
  {
  }

  /** On `ZeroOne` the standard deviation of all entries together (variance
      1/3) is not that of each column (variance 1/2), so `X_scores_predict`
      preprocesses the input itself differently from the constructor and
      does not reproduce its scores. */
  lemma WholeArrayStdMisScales(sqrt: real -> real)
    requires IsSqrt(sqrt)
    ensures Calibratable(ZeroOne, 2, true)
    ensures Apply(ZeroOne, AsWrittenParams(ZeroOne, 2, true, sqrt), 2)[0][0]
      != Apply(ZeroOne, FitParams(ZeroOne, 2, true, sqrt), 2)[0][0]
  {
    var X := ZeroOne;
    assert ColumnVaries(X, 2, 0) && ColumnVaries(X, 2, 1) by {
      assert X[0][0] != X[1][0] && X[0][1] != X[1][1];
    }
    ZeroOneMeans();
    var P1 := AsWrittenParams(X, 2, true, sqrt);
    var P2 := FitParams(X, 2, true, sqrt);
    var s1 := P1.std.value[0];
    var s2 := P2.std.value[0];
    ZeroOneStdDevs(sqrt, s1, s2);
    var a1 := Apply(X, P1, 2)[0][0];
    var a2 := Apply(X, P2, 2)[0][0];
    assert a1 == (X[0][0] - P1.means[0]) / s1;
    assert a2 == (X[0][0] - P2.means[0]) / s2;
    QuotientsDiffer(-0.5, s1, s2, a1, a2);
  }

  /** `ZeroOne`'s two columns share one sample variance, 1/2, while its four
      entries taken together have variance 1/3: on it the scores of
      `X_scores_predict` as written are `sqrt(3/2)` times the constructor's
      (`NipalsPca.AsWrittenScoresScaled`). */
  lemma ZeroOneSharedVariance()
    ensures Rect(ZeroOne, 2) && |ZeroOne| == 2 && SharedColumnVariance(ZeroOne, 2)
    ensures SampleVariances(ZeroOne, 2)[0] == 0.5 && WholeVariance(ZeroOne, 2) * 3.0 == 1.0
  {
    ZeroOneWholeVariance();
    ZeroOneColumnVariance();
  }

  /** Every column of `X` has the same sample variance. */
  predicate SharedColumnVariance(X: Matrix, p: nat)
    requires Rect(X, p) && |X| >= 2 && p > 0
  {
    forall c :: 0 <= c < p ==> SampleVariances(X, p)[c] == SampleVariances(X, p)[0]
  }

  /** `r` is the positive square root of `v2 / v1`. */
  predicate RootRatio(r: real, v1: real, v2: real)
  {
    0.0 < r && r * r * v1 == v2
  }

  /** When every column of the input has the same sample variance, each
      entry preprocessed as `X_scores_predict` does is `r` times the entry
      preprocessed as the constructor does, `r` being the ratio of the
      column standard deviation to that of all entries together. */
  lemma SharedVarianceRescales(X: Matrix, p: nat, xstand: bool, sqrt: real -> real) returns (r: real)
    requires xstand && Calibratable(X, p, xstand) && IsSqrt(sqrt) && SharedColumnVariance(X, p)
    ensures RootRatio(r, WholeVariance(X, p), SampleVariances(X, p)[0])
    ensures forall i :: 0 <= i < |X| ==>
      Apply(X, AsWrittenParams(X, p, xstand, sqrt), p)[i] == Scale(r, Apply(X, FitParams(X, p, xstand, sqrt), p)[i])
  {
    var P1 := AsWrittenParams(X, p, xstand, sqrt);
    var P2 := FitParams(X, p, xstand, sqrt);
    SharedStds(X, p, xstand, sqrt);
    SpreadRatio(X, p, sqrt);
    r := StdDevs(X, p, sqrt)[0] / WholeStd(X, p, sqrt);
    forall i | 0 <= i < |X| ensures Apply(X, P1, p)[i] == Scale(r, Apply(X, P2, p)[i]) {
      ApplyRescaled(X, P1, P2, p, WholeStd(X, p, sqrt), StdDevs(X, p, sqrt)[0], StdDevs(X, p, sqrt)[0] / WholeStd(X, p, sqrt), i);
    }
  }

  /** With one sample variance shared by every column, both kinds of
      preprocessing divide every column by one standard deviation. */
  lemma SharedStds(X: Matrix, p: nat, xstand: bool, sqrt: real -> real)
    requires xstand && Calibratable(X, p, xstand) && IsSqrt(sqrt) && SharedColumnVariance(X, p)
    ensures forall c :: 0 <= c < p ==>
      AsWrittenParams(X, p, xstand, sqrt).std.value[c] == WholeStd(X, p, sqrt)
      && FitParams(X, p, xstand, sqrt).std.value[c] == StdDevs(X, p, sqrt)[0]
  {
    var P1 := AsWrittenParams(X, p, xstand, sqrt);
    var P2 := FitParams(X, p, xstand, sqrt);
    assert P1.std.value == seq(p, c => WholeStd(X, p, sqrt));
    assert P2.std.value == StdDevs(X, p, sqrt);
    assert forall c :: 0 <= c < p ==> P2.std.value[c] == sqrt(SampleVariances(X, p)[0]);
  }

  /** Scores projected from rows `r` times as large are `r` times as
      large. */
  lemma RescaledScores(extract: Matrix -> Vector, X: Matrix, p: nat, A: Matrix, F: Matrix, TA: Matrix, TF: Matrix,
                       r: real, n: nat, k: nat)
    requires Rect(X, p) && LoadingsFit(extract, p)
    requires IsMatrix(A, n, p) && IsMatrix(F, n, p) && IsMatrix(TA, n, k) && IsMatrix(TF, n, k)
    requires forall i :: 0 <= i < n ==> A[i] == Scale(r, F[i])
    requires forall i, j :: 0 <= i < n && 0 <= j < k ==> TA[i][j] == Dot(A[i], Loading(extract, X, p, j))
    requires forall i, j :: 0 <= i < n && 0 <= j < k ==> TF[i][j] == Dot(F[i], Loading(extract, X, p, j))
    ensures ScaledBy(TA, TF, r)
  {
    forall i, j | 0 <= i < n && 0 <= j < k ensures TA[i][j] == r * TF[i][j] {
      RescaledScore(A, F, TA, TF, Loading(extract, X, p, j), r, i, j);
    }
    assert forall i :: 0 <= i < n ==> forall j :: 0 <= j < k ==> TA[i][j] == r * TF[i][j];
  }

  /** One score of a row `r` times as large is `r` times as large. */
  lemma RescaledScore(A: Matrix, F: Matrix, TA: Matrix, TF: Matrix, q: Vector, r: real, i: nat, j: nat)
    requires i < |A| && i < |F| && i < |TA| && i < |TF| && j < |TA[i]| && j < |TF[i]|
    requires |F[i]| == |q| && A[i] == Scale(r, F[i]) && TA[i][j] == Dot(A[i], q) && TF[i][j] == Dot(F[i], q)
    ensures TA[i][j] == r * TF[i][j]
  {
    DotScaled(F[i], q, r);
  }

  /** If every score is `r` times another whose first column is that of
      `S`, the first column is `r` times that of `S`; and if `r² · v1 = v2`
      with `v1 ≠ v2`, so that `r ≠ 1`, the two first columns differ wherever
      that of `S` is non-zero. */
  lemma RescaledFirstColumn(TA: Matrix, TF: Matrix, S: Matrix, r: real, v1: real, v2: real, n: nat, k: nat, m: nat)
    requires IsMatrix(TA, n, k) && IsMatrix(TF, n, k) && 1 <= k && IsMatrix(S, n, m) && 1 <= m
    requires ScaledBy(TA, TF, r) && RootRatio(r, v1, v2)
    requires forall i :: 0 <= i < n ==> TF[i][0] == S[i][0]
    ensures ColumnScaledBy(TA, S, 0, r)
    ensures v1 != v2 ==> ColumnDiffersWhereNonZero(TA, S, 0)
  {
    forall i | 0 <= i < n ensures TA[i][0] == r * S[i][0] {
      assert TA[i][0] == r * TF[i][0];
    }
    if v1 != v2 {
      assert r != 1.0;
      forall i | 0 <= i < n && S[i][0] != 0.0 ensures TA[i][0] != S[i][0] {
        assert (r - 1.0) * S[i][0] != 0.0;
      }
    }
  }

  /** The ratio of the first column's standard deviation to that of all
      entries together is the root of the ratio of their variances. */
  lemma SpreadRatio(X: Matrix, p: nat, sqrt: real -> real)
    requires Calibratable(X, p, true) && IsSqrt(sqrt)
    ensures WholeStd(X, p, sqrt) != 0.0
    ensures RootRatio(StdDevs(X, p, sqrt)[0] / WholeStd(X, p, sqrt), WholeVariance(X, p), SampleVariances(X, p)[0])
  {
    WholeStdIsRoot(X, p, sqrt);
    FirstStdIsRoot(X, p, sqrt);
    RatioOfRoots(WholeStd(X, p, sqrt), StdDevs(X, p, sqrt)[0], WholeVariance(X, p), SampleVariances(X, p)[0]);
  }

  /** `s` is the non-negative square root of the positive `v`. */
  predicate IsRoot(s: real, v: real)
  {
    0.0 <= s && s * s == v && 0.0 < v
  }

  /** The standard deviation of all entries together is the root of their
      positive variance. */
  lemma WholeStdIsRoot(X: Matrix, p: nat, sqrt: real -> real)
    requires Calibratable(X, p, true) && IsSqrt(sqrt)
    ensures IsRoot(WholeStd(X, p, sqrt), WholeVariance(X, p))
  {
    WholeVariancePositive(X, p);
  }

  /** The first column's standard deviation is the root of its positive
      sample variance. */
  lemma FirstStdIsRoot(X: Matrix, p: nat, sqrt: real -> real)
    requires Calibratable(X, p, true) && IsSqrt(sqrt)
    ensures IsRoot(StdDevs(X, p, sqrt)[0], SampleVariances(X, p)[0])
  {
    PositiveStdDevs(X, p, sqrt);
  }

  /** The root ratio of a variance of 1/2 to one of 1/3 is `sqrt(3/2)`. */
  lemma ThreeHalves(r: real, v1: real, v2: real)
    requires RootRatio(r, v1, v2) && v1 * 3.0 == 1.0 && v2 == 0.5
    ensures 0.0 < r && r * r == 1.5
  {
    assert r * r * (v1 * 3.0) == 1.5;
  }

  /** The ratio `s2 / s1` of two positive square roots is the root ratio
      of their squares. */
  lemma RatioOfRoots(s1: real, s2: real, v1: real, v2: real)
    requires IsRoot(s1, v1) && IsRoot(s2, v2)
    ensures s1 != 0.0 && RootRatio(s2 / s1, v1, v2)
  {
    var r := s2 / s1;
    assert r * s1 == s2;
    assert r * r * (s1 * s1) == s2 * s2;
  }

  /** Dividing a non-zero number by two numbers with different squares gives
      different quotients. */
  lemma QuotientsDiffer(a: real, s1: real, s2: real, x1: real, x2: real)
    requires a != 0.0 && s1 != 0.0 && s2 != 0.0 && s1 * s1 != s2 * s2
    requires x1 == a / s1 && x2 == a / s2
    ensures x1 != x2
  {
    assert x1 * s1 == a && x2 * s2 == a;
  }

  /** The shape of the stacked predictions, on named values. */
  lemma StackedShape(X: Matrix, p: nat, folds: seq<Fold>, xstand: bool, extract: Matrix -> Vector, numPC: nat,
                     sqrt: real -> real, stacked: seq<Matrix>)
    requires FoldsFit(X, p, folds, xstand) && IsSqrt(sqrt) && LoadingsFit(extract, p)
    requires stacked == CvPredictions(X, p, folds, xstand, extract, numPC, sqrt)
    ensures |stacked| == numPC && forall k :: 0 <= k < numPC ==> IsMatrix(stacked[k], TestCount(folds), p)
  {
  }

  /** The dictionary the source fills with `d[ind + 1] = item` while
      enumerating a list: keys `1..|list|`. */
  function Keyed(list: seq<Matrix>): (d: map<nat, Matrix>)
    ensures forall k :: k in d <==> 1 <= k <= |list|
    ensures forall k :: 1 <= k <= |list| ==> d[k] == list[k - 1]
  {
    if |list| == 0 then map[] else Keyed(list[..|list| - 1])[|list| := list[|list| - 1]]
  }

  /** Every residual is the preprocessed data minus what the components
      before it model. */
  lemma ResidualsAreUnmodelled(extract: Matrix -> Vector, X: Matrix, p: nat, K: nat)
    requires Rect(X, p) && LoadingsFit(extract, p)
    ensures forall k :: 0 <= k <= K ==>
      Residual(extract, X, p, k) == Sub(X, TruncatedProduct(Scores(extract, X, p, K), Loadings(extract, X, p, K), k, |X|, p))
  {
    forall k | 0 <= k <= K
      ensures Residual(extract, X, p, k)
        == Sub(X, TruncatedProduct(Scores(extract, X, p, K), Loadings(extract, X, p, K), k, |X|, p))
    {
      ProductIsDataMinusResidual(extract, X, p, k, K);
      var R := Residual(extract, X, p, k);
      MatrixExt(R, Sub(X, Sub(X, R)));
    }
  }

  /** From column-centred data, every residual is column-centred. */
  lemma CentredResiduals(extract: Matrix -> Vector, X: Matrix, p: nat, K: nat)
    requires Rect(X, p) && LoadingsFit(extract, p)
    requires forall c :: 0 <= c < p ==> ColumnSums(X, p)[c] == 0.0
    ensures forall k, c :: 0 <= k <= K && 0 <= c < p ==> ColumnSums(Residual(extract, X, p, k), p)[c] == 0.0
  {
    forall k | 0 <= k <= K
      ensures forall c :: 0 <= c < p ==> ColumnSums(Residual(extract, X, p, k), p)[c] == 0.0
    {
      CentredDecomposition(extract, X, p, k);
    }
  }

  /** `PredictionSplitsData` for every number of components. */
  lemma PredictionsSplitData(Xin: Matrix, par: Params, p: nat, extract: Matrix -> Vector, numPC: nat,
                             X: Matrix, preds: seq<Matrix>)
    requires FittedTo(par, Xin, p) && LoadingsFit(extract, p)
    requires X == Apply(Xin, par, p)
    requires preds == Predictions(Scores(extract, X, p, numPC), Loadings(extract, X, p, numPC), |Xin|, p, par)
    ensures |preds| == numPC
    ensures forall k :: 1 <= k <= numPC ==>
      IsMatrix(preds[k - 1], |Xin|, p) && Add(Apply(preds[k - 1], par, p), Residual(extract, X, p, k)) == X
  {
    var T := Scores(extract, X, p, numPC);
    var P := Loadings(extract, X, p, numPC);
    forall k | 1 <= k <= numPC
      ensures IsMatrix(preds[k - 1], |Xin|, p) && Add(Apply(preds[k - 1], par, p), Residual(extract, X, p, k)) == X
    {
      PredictionSplitsData(Xin, par, p, extract, numPC, k);
      assert preds[k - 1] == Prediction(T, P, k, |Xin|, p, par);
    }
  }
}
