/** The statistics computed from a PRESS table, identically for calibration
    (hoggorm/pca.py lines 226-313) and for cross-validation (lines 505-586):
    MSE and RMSE per variable, their totals across variables, the cumulative
    explained variance per variable and in total, and the explained variance
    of each single component.

    A PRESS table has one row per number of components (row 0 for none) and
    one column per variable. */
module Statistics {
  import opened Linalg
  import opened Preprocessing

  /** `PRESS / n` (lines 228-229, 508-509): each entry times `n` is the PRESS
      entry it came from. */
  function MseTable(press: Matrix, p: nat, n: nat): (mse: Matrix)
    requires Rect(press, p) && n > 0
    ensures IsMatrix(mse, |press|, p)
    ensures PerObject(mse, press, n)
    ensures NonNegative(press) ==> NonNegative(mse)
  {
    seq(|press|, k requires 0 <= k < |press| => seq(p, c requires 0 <= c < p => press[k][c] / n as real))
  }

  /** Every entry of the table is non-negative. */
  predicate NonNegative(M: Matrix)
  {
    forall k, c :: 0 <= k < |M| && 0 <= c < |M[k]| ==> 0.0 <= M[k][c]
  }

  /** `np.sqrt` of a non-negative table (lines 230, 510): each entry is the
      non-negative root of the MSE entry. */
  function RootTable(mse: Matrix, p: nat, sqrt: real -> real): (rmse: Matrix)
    requires Rect(mse, p) && NonNegative(mse) && IsSqrt(sqrt)
    ensures IsMatrix(rmse, |mse|, p)
    ensures RootsOf(rmse, mse)
  {
    seq(|mse|, k requires 0 <= k < |mse| => seq(p, c requires 0 <= c < p => sqrt(mse[k][c])))
  }

  /** `np.sum(mse, axis=1) / p` (lines 275-276, 554-555): the mean MSE over
      the variables. */
  function TotalMse(mse: Matrix, p: nat): (total: Vector)
    requires Rect(mse, p) && p > 0
    ensures |total| == |mse|
    ensures forall k :: 0 <= k < |mse| ==> total[k] * p as real == Sum(mse[k])
  {
    seq(|mse|, k requires 0 <= k < |mse| => Sum(mse[k]) / p as real)
  }

  /** `np.sqrt` of the totals (lines 309, 583). */
  function RootVector(v: Vector, sqrt: real -> real): (r: Vector)
    requires IsSqrt(sqrt) && forall k :: 0 <= k < |v| ==> 0.0 <= v[k]
    ensures RootsOfEach(r, v)
  {
    seq(|v|, k requires 0 <= k < |v| => sqrt(v[k]))
  }

  /** `(MSE_0 - MSE_k) / MSE_0 * 100` (lines 244, 283, 524, 562). */
  function ExplainedPercent(m0: real, mk: real): real
    requires m0 != 0.0
  {
    (m0 - mk) / m0 * 100.0
  }

  /** No error explained: zero percent; all of it: a hundred percent. */
  lemma ExplainedPercentEnds(m0: real)
    requires m0 != 0.0
    ensures ExplainedPercent(m0, m0) == 0.0
    ensures ExplainedPercent(m0, 0.0) == 100.0
  {
  }

  /** With a positive baseline, a smaller error explains more, and an error
      between zero and the baseline explains between 0 and 100 percent. */
  lemma ExplainedPercentOrder(m0: real, a: real, b: real)
    requires 0.0 < m0 && b <= a
    ensures ExplainedPercent(m0, a) <= ExplainedPercent(m0, b)
  {
    var ra := (m0 - a) / m0;
    var rb := (m0 - b) / m0;
    assert ra * m0 == m0 - a;
    assert rb * m0 == m0 - b;
    assert (rb - ra) * m0 == a - b;
    NonNegativeFactor(rb - ra, m0, a - b);
  }

  /** `x * m == y` with `m > 0` and `y >= 0` makes `x >= 0`. */
  lemma NonNegativeFactor(x: real, m: real, y: real)
    requires 0.0 < m && x * m == y && 0.0 <= y
    ensures 0.0 <= x
  {
    if x < 0.0 {
      MulPositive(-x, m, -y);
    }
  }

  lemma ExplainedPercentBounds(m0: real, mk: real)
    requires 0.0 < m0 && 0.0 <= mk <= m0
    ensures 0.0 <= ExplainedPercent(m0, mk) <= 100.0
  {
    ExplainedPercentOrder(m0, m0, mk);
    ExplainedPercentOrder(m0, mk, 0.0);
    ExplainedPercentEnds(m0);
  }

  /** Row `k` of `cumCalExplVarXarr_indVar`: per variable, the percentage of
      the zero-component MSE that `k` components explain. */
  function ExplainedRow(m0: Vector, mk: Vector): (r: Vector)
    requires |m0| == |mk| && NonZero(m0)
    ensures |r| == |m0|
    ensures forall c :: 0 <= c < |m0| ==> r[c] == ExplainedPercent(m0[c], mk[c])
  {
    seq(|m0|, c requires 0 <= c < |m0| => ExplainedPercent(m0[c], mk[c]))
  }

  /** An MSE table whose first row can be divided by. */
  predicate HasBaseline(mse: Matrix, p: nat)
  {
    Rect(mse, p) && |mse| > 0 && NonZero(mse[0])
  }

  /** The whole cumulative explained variance table, one row per number of
      components. */
  function ExplainedTable(mse: Matrix, p: nat): (E: Matrix)
    requires HasBaseline(mse, p)
    ensures IsMatrix(E, |mse|, p)
  {
    seq(|mse|, k requires 0 <= k < |mse| => ExplainedRow(mse[0], mse[k]))
  }

  /** The loop of lines 239-245 (and 520-525): the array, allocated with the
      shape of the MSE table, is overwritten row by row. */
  method CumulativeExplainedPerVariable(mse: Matrix, p: nat) returns (arr: array<Vector>)
    requires HasBaseline(mse, p)
    ensures fresh(arr)
    ensures arr[..] == ExplainedTable(mse, p)
  {
    arr := new Vector[|mse|](_ => seq(p, _ => 0.0));
    var m0 := mse[0];
    for ind := 0 to |mse|
      invariant forall k :: 0 <= k < ind ==> arr[k] == ExplainedRow(m0, mse[k])
    {
      arr[ind] := ExplainedRow(m0, mse[ind]);
    }
  }

  /** The first row of the table is all zeros: no component explains
      nothing. */
  lemma ExplainedTableStartsAtZero(mse: Matrix, p: nat)
    requires HasBaseline(mse, p)
    ensures forall c :: 0 <= c < p ==> ExplainedTable(mse, p)[0][c] == 0.0
  {
    forall c | 0 <= c < p ensures ExplainedTable(mse, p)[0][c] == 0.0 {
      ExplainedPercentEnds(mse[0][c]);
    }
  }

  /** `np.average(v)` over a non-empty vector. */
  function Average(v: Vector): (a: real)
    requires |v| > 0
    ensures a * |v| as real == Sum(v)
  {
    Sum(v) / |v| as real
  }

  /** The cumulative explained variance in total (lines 278-287 and
      563-572): with centring, the percentage of the total MSE explained;
      with standardising, the average over the variables of the per-variable
      percentages. */
  function ExplainedTotal(mseTotal: Vector, table: Matrix, p: nat, xstand: bool): (cum: Vector)
    requires p > 0 && Rect(table, p)
    requires !xstand ==> |mseTotal| > 0 && mseTotal[0] != 0.0
    ensures |cum| == if xstand then |table| else |mseTotal|
  {
    if xstand then seq(|table|, k requires 0 <= k < |table| => Average(table[k]))
    else seq(|mseTotal|, k requires 0 <= k < |mseTotal| => ExplainedPercent(mseTotal[0], mseTotal[k]))
  }

  /** The loop of lines 278-287: append one percentage per number of
      components in centre mode, or take the row averages in standardise
      mode. */
  method CumulativeExplainedTotal(mseTotal: Vector, table: Matrix, p: nat, xstand: bool) returns (cum: seq<real>)
    requires p > 0 && Rect(table, p)
    requires !xstand ==> |mseTotal| > 0 && mseTotal[0] != 0.0
    ensures cum == ExplainedTotal(mseTotal, table, p, xstand)
  {
    if !xstand {
      var m0 := mseTotal[0];
      cum := [];
      for ind := 0 to |mseTotal|
        invariant cum == seq(ind, k requires 0 <= k < ind => ExplainedPercent(m0, mseTotal[k]))
      {
        cum := cum + [ExplainedPercent(m0, mseTotal[ind])];
      }
    } else {
      cum := seq(|table|, k requires 0 <= k < |table| => Average(table[k]));
    }
  }

  /** The cumulative total also starts at zero, in both modes. */
  lemma ExplainedTotalStartsAtZero(mse: Matrix, p: nat, xstand: bool)
    requires HasBaseline(mse, p) && p > 0
    requires !xstand ==> TotalMse(mse, p)[0] != 0.0
    ensures ExplainedTotal(TotalMse(mse, p), ExplainedTable(mse, p), p, xstand)[0] == 0.0
  {
    var table := ExplainedTable(mse, p);
    if xstand {
      ExplainedTableStartsAtZero(mse, p);
      SumScaled(table[0], table[0], 0.0);
    } else {
      ExplainedPercentEnds(TotalMse(mse, p)[0]);
    }
  }

  /** The explained variance of each single component: consecutive
      differences of the cumulative list (lines 290-296). */
  function PerComponent(cum: seq<real>): (d: seq<real>)
    ensures |d| == if |cum| == 0 then 0 else |cum| - 1
    ensures forall k :: 0 <= k < |d| ==> cum[k] + d[k] == cum[k + 1]
  {
    if |cum| == 0 then [] else seq(|cum| - 1, k requires 0 <= k < |cum| - 1 => cum[k + 1] - cum[k])
  }

  /** The loop of lines 290-296, which stops at the last cumulative value. */
  method ExplainedPerComponent(cum: seq<real>) returns (d: seq<real>)
    ensures d == PerComponent(cum)
  {
    d := [];
    var ind := 0;
    while ind < |cum|
      invariant 0 <= ind <= |cum|
      invariant ind < |cum| ==> d == PerComponent(cum[..ind + 1])
      invariant ind == |cum| ==> d == PerComponent(cum)
      decreases |cum| - ind
    {
      if ind == |cum| - 1 {
        assert cum[..ind + 1] == cum;
        break;
      }
      d := d + [cum[ind + 1] - cum[ind]];
      ind := ind + 1;
    }
  }

  /** The per-component values add up to the cumulative values: the first
      `k` of them sum to `cum[k] - cum[0]`. */
  lemma {:induction false} PerComponentTelescopes(cum: seq<real>, k: nat)
    requires k < |cum|
    ensures SumTo(PerComponent(cum), k) == cum[k] - cum[0]
  {
    if k > 0 {
      PerComponentTelescopes(cum, k - 1);
    }
  }

  /** Hence all of them sum to the last cumulative value minus the first. */
  lemma PerComponentSum(cum: seq<real>)
    requires |cum| > 0
    ensures Sum(PerComponent(cum)) == cum[|cum| - 1] - cum[0]
  {
    PerComponentTelescopes(cum, |cum| - 1);
  }

  /** A non-increasing error gives a non-decreasing cumulative explained
      variance between 0 and 100, and no component explains a negative
      amount. */
  lemma ExplainedTotalMonotone(mseTotal: Vector)
    requires |mseTotal| > 0 && 0.0 < mseTotal[0]
    requires forall k :: 0 <= k < |mseTotal| ==> 0.0 <= mseTotal[k]
    requires forall k :: 0 <= k < |mseTotal| - 1 ==> mseTotal[k + 1] <= mseTotal[k]
    ensures forall k :: 0 <= k < |mseTotal| ==>
      0.0 <= ExplainedPercent(mseTotal[0], mseTotal[k]) <= 100.0
    ensures forall k :: 0 <= k < |mseTotal| - 1 ==>
      ExplainedPercent(mseTotal[0], mseTotal[k]) <= ExplainedPercent(mseTotal[0], mseTotal[k + 1])
  {
    forall k | 0 <= k < |mseTotal| ensures mseTotal[k] <= mseTotal[0] {
      BelowFirst(mseTotal, k);
    }
    forall k | 0 <= k < |mseTotal| ensures 0.0 <= ExplainedPercent(mseTotal[0], mseTotal[k]) <= 100.0 {
      ExplainedPercentBounds(mseTotal[0], mseTotal[k]);
    }
    forall k | 0 <= k < |mseTotal| - 1
      ensures ExplainedPercent(mseTotal[0], mseTotal[k]) <= ExplainedPercent(mseTotal[0], mseTotal[k + 1])
    {
      ExplainedPercentOrder(mseTotal[0], mseTotal[k], mseTotal[k + 1]);
    }
  }

  /** In a non-increasing sequence no entry exceeds the first. */
  lemma {:induction false} BelowFirst(v: Vector, k: nat)
    requires k < |v|
    requires forall j :: 0 <= j < |v| - 1 ==> v[j + 1] <= v[j]
    ensures v[k] <= v[0]
  {
    if k > 0 {
      BelowFirst(v, k - 1);
    }
  }

  /** A PRESS table the statistics can be computed from: rows of `p`
      non-negative entries, and a positive zero-component row to divide by. */
  predicate Summarisable(press: Matrix, p: nat, n: nat)
  {
    Rect(press, p) && |press| > 0 && p > 0 && n > 0 && NonNegative(press)
    && forall c :: 0 <= c < p ==> 0.0 < press[0][c]
  }

  /** Everything the source derives from one PRESS table. */
  datatype Summary = Summary(
    press: Matrix, mse: Matrix, rmse: Matrix,
    pressTotal: Vector, mseTotal: Vector, rmseTotal: Vector,
    cumPerVariable: Matrix, cumTotal: Vector, perComponent: Vector)

  /** From a positive baseline row, the MSE baseline row and its total are
      positive, and every total MSE is non-negative. */
  lemma MseBaselinePositive(press: Matrix, p: nat, n: nat)
    requires Summarisable(press, p, n)
    ensures forall c :: 0 <= c < p ==> 0.0 < MseTable(press, p, n)[0][c]
    ensures forall k :: 0 <= k < |press| ==> 0.0 <= TotalMse(MseTable(press, p, n), p)[k]
    ensures 0.0 < TotalMse(MseTable(press, p, n), p)[0]
  {
    var mse := MseTable(press, p, n);
    var total := TotalMse(mse, p);
    forall c | 0 <= c < p ensures 0.0 < mse[0][c] {
      NonNegativeFactor(mse[0][c], n as real, press[0][c]);
    }
    forall k | 0 <= k < |press| ensures 0.0 <= total[k] {
      SumNonNegative(mse[k]);
      NonNegativeFactor(total[k], p as real, Sum(mse[k]));
    }
    SumNonNegative(mse[0]);
    assert 0.0 < Sum(mse[0]);
    NonNegativeFactor(total[0], p as real, Sum(mse[0]));
  }

  /** The statistics of lines 226-313 (calibration) and 505-586
      (cross-validation), from the PRESS table on. */
  function Summarise(press: Matrix, p: nat, n: nat, xstand: bool, sqrt: real -> real): (s: Summary)
    requires Summarisable(press, p, n) && IsSqrt(sqrt)
    ensures s.press == press
    ensures IsMatrix(s.mse, |press|, p) && IsMatrix(s.cumPerVariable, |press|, p)
    ensures |s.pressTotal| == |s.mseTotal| == |s.rmseTotal| == |s.cumTotal| == |press|
    ensures |s.perComponent| == |press| - 1
  {
    MseBaselinePositive(press, p, n);
    var mse := MseTable(press, p, n);
    var mseTotal := TotalMse(mse, p);
    var table := ExplainedTable(mse, p);
    var cum := ExplainedTotal(mseTotal, table, p, xstand);
    Summary(press, mse, RootTable(mse, p, sqrt), RowSums(press), mseTotal, RootVector(mseTotal, sqrt),
      table, cum, PerComponent(cum))
  }

  /** `s` holds the statistics of its own PRESS table. */
  ghost predicate SummaryOf(s: Summary, p: nat, n: nat, xstand: bool, sqrt: real -> real)
  {
    Summarisable(s.press, p, n) && IsSqrt(sqrt) && s == Summarise(s.press, p, n, xstand, sqrt)
  }

  /** The statistics section of the constructor, step by step, with its
      loops. */
  method SummariseTable(press: Matrix, p: nat, n: nat, xstand: bool, sqrt: real -> real) returns (s: Summary)
    requires Summarisable(press, p, n) && IsSqrt(sqrt)
    ensures s == Summarise(press, p, n, xstand, sqrt)
  {
    MseBaselinePositive(press, p, n);
    var mse := MseTable(press, p, n);
    var rmse := RootTable(mse, p, sqrt);
    var arr := CumulativeExplainedPerVariable(mse, p);
    var table := arr[..];
    var pressTotal := RowSums(press);
    var mseTotal := TotalMse(mse, p);
    var cum := CumulativeExplainedTotal(mseTotal, table, p, xstand);
    var perComponent := ExplainedPerComponent(cum);
    s := Summary(press, mse, rmse, pressTotal, mseTotal, RootVector(mseTotal, sqrt), table, cum, perComponent);
  }

  /** With no components nothing is explained: the first cumulative values
      are zero per variable and in total, and the per-component values add
      up to the last cumulative value. */
  lemma SummaryStartsAtZero(press: Matrix, p: nat, n: nat, xstand: bool, sqrt: real -> real)
    requires Summarisable(press, p, n) && IsSqrt(sqrt)
    ensures forall c :: 0 <= c < p ==> Summarise(press, p, n, xstand, sqrt).cumPerVariable[0][c] == 0.0
    ensures Summarise(press, p, n, xstand, sqrt).cumTotal[0] == 0.0
    ensures Sum(Summarise(press, p, n, xstand, sqrt).perComponent)
      == Summarise(press, p, n, xstand, sqrt).cumTotal[|press| - 1]
  {
    MseBaselinePositive(press, p, n);
    var s := Summarise(press, p, n, xstand, sqrt);
    ExplainedTableStartsAtZero(s.mse, p);
    ExplainedTotalStartsAtZero(s.mse, p, xstand);
    PerComponentSum(s.cumTotal);
  }

  /** If the PRESS totals never increase, the MSE totals never increase. */
  lemma TotalMseMonotone(press: Matrix, p: nat, n: nat)
    requires Rect(press, p) && p > 0 && n > 0
    requires forall k :: 0 <= k < |press| - 1 ==> Sum(press[k + 1]) <= Sum(press[k])
    ensures forall k :: 0 <= k < |press| - 1 ==>
      TotalMse(MseTable(press, p, n), p)[k + 1] <= TotalMse(MseTable(press, p, n), p)[k]
  {
    MseTotalPerEntry(press, p, n);
    TotalsKeepOrder(TotalMse(MseTable(press, p, n), p), press, p * n);
  }

  /** Totals that are the row sums of `press` divided by a positive weight
      are ordered as those row sums. */
  lemma TotalsKeepOrder(total: Vector, press: Matrix, w: nat)
    requires w > 0 && TotalPerEntry(total, press, w)
    requires forall k :: 0 <= k < |press| - 1 ==> Sum(press[k + 1]) <= Sum(press[k])
    ensures forall k :: 0 <= k < |total| - 1 ==> total[k + 1] <= total[k]
  {
    forall k | 0 <= k < |total| - 1 ensures total[k + 1] <= total[k] {
      OrderByWeight(total[k], total[k + 1], w as real, Sum(press[k]), Sum(press[k + 1]));
    }
  }

  /** Dividing two totals by the same positive weight keeps their order. */
  lemma OrderByWeight(a: real, b: real, w: real, A: real, B: real)
    requires 0.0 < w && a * w == A && b * w == B && B <= A
    ensures b <= a
  {
    assert (a - b) * w == A - B;
    NonNegativeFactor(a - b, w, A - B);
  }

  /** `t·p = m` and `m·n = s` give `t·(p·n) = s`. */
  lemma TotalTimesWeight(t: real, m: real, s: real, p: real, n: real)
    requires t * p == m && s == n * m
    ensures t * (p * n) == s
  {
  }

  /** In centre mode, PRESS totals that never increase give MSE totals
      that never increase, a cumulative explained variance that never
      decreases and stays between 0 and 100, and per-component values that
      are never negative. */
  lemma CentredSummaryMonotone(press: Matrix, p: nat, n: nat, sqrt: real -> real)
    requires Summarisable(press, p, n) && IsSqrt(sqrt)
    requires forall k :: 0 <= k < |press| - 1 ==> Sum(press[k + 1]) <= Sum(press[k])
    ensures forall k :: 0 <= k < |press| - 1 ==>
      Summarise(press, p, n, false, sqrt).pressTotal[k + 1] <= Summarise(press, p, n, false, sqrt).pressTotal[k]
    ensures forall k :: 0 <= k < |press| - 1 ==>
      Summarise(press, p, n, false, sqrt).mseTotal[k + 1] <= Summarise(press, p, n, false, sqrt).mseTotal[k]
    ensures forall k :: 0 <= k < |press| ==> 0.0 <= Summarise(press, p, n, false, sqrt).cumTotal[k] <= 100.0
    ensures forall k :: 0 <= k < |press| - 1 ==>
      Summarise(press, p, n, false, sqrt).cumTotal[k] <= Summarise(press, p, n, false, sqrt).cumTotal[k + 1]
    ensures forall k :: 0 <= k < |press| - 1 ==> 0.0 <= Summarise(press, p, n, false, sqrt).perComponent[k]
  {
    MseBaselinePositive(press, p, n);
    TotalMseMonotone(press, p, n);
    var s := Summarise(press, p, n, false, sqrt);
    SummaryErrors(press, p, n, false, sqrt, s);
    ExplainedTotalMonotone(s.mseTotal);
  }

  /** No column of `M` grows from one row to the next. */
  predicate ColumnsNonIncreasing(M: Matrix, p: nat)
    requires Rect(M, p)
  {
    forall k :: 0 <= k < |M| - 1 ==> forall c :: 0 <= c < p ==> M[k + 1][c] <= M[k][c]
  }

  /** In both modes, a PRESS table none of whose columns grows gives PRESS
      and MSE totals that never increase, a total explained variance that
      stays between 0 and 100 percent and never decreases, and
      per-component values that are never negative. */
  lemma SummaryMonotone(s: Summary, p: nat, n: nat, xstand: bool, sqrt: real -> real)
    requires SummaryOf(s, p, n, xstand, sqrt) && ColumnsNonIncreasing(s.press, p)
    ensures forall k :: 0 <= k < |s.press| - 1 ==> s.pressTotal[k + 1] <= s.pressTotal[k] && s.mseTotal[k + 1] <= s.mseTotal[k]
    ensures forall k :: 0 <= k < |s.press| ==> 0.0 <= s.cumTotal[k] <= 100.0
    ensures forall k :: 0 <= k < |s.press| - 1 ==> s.cumTotal[k] <= s.cumTotal[k + 1] && 0.0 <= s.perComponent[k]
  {
    SummaryPerVariableMonotone(s, p, n, xstand, sqrt);
    SummaryTotalsMonotone(s.press, p, n, xstand, sqrt, s);
  }

  /** In both modes, a PRESS table none of whose columns grows gives an
      explained variance per variable that stays between 0 and 100 percent
      and never decreases. */
  lemma SummaryPerVariableMonotone(s: Summary, p: nat, n: nat, xstand: bool, sqrt: real -> real)
    requires SummaryOf(s, p, n, xstand, sqrt) && ColumnsNonIncreasing(s.press, p)
    ensures forall k :: 0 <= k < |s.press| ==> forall c :: 0 <= c < p ==> 0.0 <= s.cumPerVariable[k][c] <= 100.0
    ensures forall k :: 0 <= k < |s.press| - 1 ==> forall c :: 0 <= c < p ==> s.cumPerVariable[k][c] <= s.cumPerVariable[k + 1][c]
  {
    SummaryExplained(s.press, p, n, xstand, sqrt, s);
    ExplainedColumnsMonotone(s.press, p, n, s.cumPerVariable);
  }

  /** The totals part of `SummaryMonotone`. */
  lemma SummaryTotalsMonotone(press: Matrix, p: nat, n: nat, xstand: bool, sqrt: real -> real, s: Summary)
    requires Summarisable(press, p, n) && IsSqrt(sqrt) && ColumnsNonIncreasing(press, p)
    requires s == Summarise(press, p, n, xstand, sqrt)
    requires forall k :: 0 <= k < |press| ==> forall c :: 0 <= c < p ==> 0.0 <= s.cumPerVariable[k][c] <= 100.0
    requires forall k :: 0 <= k < |press| - 1 ==> forall c :: 0 <= c < p ==> s.cumPerVariable[k][c] <= s.cumPerVariable[k + 1][c]
    ensures forall k :: 0 <= k < |press| - 1 ==> s.pressTotal[k + 1] <= s.pressTotal[k] && s.mseTotal[k + 1] <= s.mseTotal[k]
    ensures forall k :: 0 <= k < |press| ==> 0.0 <= s.cumTotal[k] <= 100.0
    ensures forall k :: 0 <= k < |press| - 1 ==> s.cumTotal[k] <= s.cumTotal[k + 1] && 0.0 <= s.perComponent[k]
  {
    ErrorTotalsMonotone(press, p, n, xstand, sqrt, s);
    if xstand {
      SummaryExplained(press, p, n, xstand, sqrt, s);
      AveragesMonotone(s.cumTotal, s.cumPerVariable, p);
    } else {
      CentredSummaryMonotone(press, p, n, sqrt);
    }
  }

  /** PRESS columns that never grow give PRESS and MSE totals that never
      increase. */
  lemma ErrorTotalsMonotone(press: Matrix, p: nat, n: nat, xstand: bool, sqrt: real -> real, s: Summary)
    requires Summarisable(press, p, n) && IsSqrt(sqrt) && ColumnsNonIncreasing(press, p)
    requires s == Summarise(press, p, n, xstand, sqrt)
    ensures forall k :: 0 <= k < |press| - 1 ==> s.pressTotal[k + 1] <= s.pressTotal[k] && s.mseTotal[k + 1] <= s.mseTotal[k]
  {
    SummaryErrors(press, p, n, xstand, sqrt, s);
    forall k | 0 <= k < |press| - 1 ensures Sum(press[k + 1]) <= Sum(press[k]) {
      SumMonotone(press[k + 1], press[k]);
    }
    TotalsKeepOrder(s.mseTotal, press, p * n);
  }

  /** Per variable, a column of PRESS that never grows explains between 0
      and 100 percent, more with every row. */
  lemma ExplainedColumnsMonotone(press: Matrix, p: nat, n: nat, E: Matrix)
    requires Summarisable(press, p, n) && ColumnsNonIncreasing(press, p) && ExplainedPerColumn(E, press, p)
    ensures forall k :: 0 <= k < |press| ==> forall c :: 0 <= c < p ==> 0.0 <= E[k][c] <= 100.0
    ensures forall k :: 0 <= k < |press| - 1 ==> forall c :: 0 <= c < p ==> E[k][c] <= E[k + 1][c]
  {
    forall k | 0 <= k < |press| ensures forall c :: 0 <= c < p ==> 0.0 <= E[k][c] <= 100.0 {
      forall c | 0 <= c < p ensures 0.0 <= E[k][c] <= 100.0 {
        BelowFirst(Column(press, c), k);
        ExplainedPercentBounds(press[0][c], press[k][c]);
      }
    }
    forall k | 0 <= k < |press| - 1 ensures forall c :: 0 <= c < p ==> E[k][c] <= E[k + 1][c] {
      forall c | 0 <= c < p ensures E[k][c] <= E[k + 1][c] {
        ExplainedPercentOrder(press[0][c], press[k][c], press[k + 1][c]);
      }
    }
  }

  /** Averages over `p` columns of values between 0 and 100 that never
      decrease lie between 0 and 100 and never decrease. */
  lemma AveragesMonotone(cum: Vector, E: Matrix, p: nat)
    requires p > 0 && Rect(E, p) && RowAverages(cum, E, p)
    requires forall k :: 0 <= k < |E| ==> forall c :: 0 <= c < p ==> 0.0 <= E[k][c] <= 100.0
    requires forall k :: 0 <= k < |E| - 1 ==> forall c :: 0 <= c < p ==> E[k][c] <= E[k + 1][c]
    ensures forall k :: 0 <= k < |E| ==> 0.0 <= cum[k] <= 100.0
    ensures forall k :: 0 <= k < |E| - 1 ==> cum[k] <= cum[k + 1]
  {
    var w := p as real;
    forall k | 0 <= k < |E| ensures 0.0 <= cum[k] <= 100.0 {
      SumNonNegative(E[k]);
      NonNegativeFactor(cum[k], w, Sum(E[k]));
      SumAtMost(E[k], 100.0);
      OrderByWeight(100.0, cum[k], w, 100.0 * w, Sum(E[k]));
    }
    forall k | 0 <= k < |E| - 1 ensures cum[k] <= cum[k + 1] {
      SumMonotone(E[k], E[k + 1]);
      OrderByWeight(cum[k + 1], cum[k], w, Sum(E[k + 1]), Sum(E[k]));
    }
  }

  /** Scaling both MSE values by the same positive weight leaves the
      explained percentage unchanged. */
  lemma ExplainedPercentScaled(m0: real, mk: real, w: real, P0: real, Pk: real)
    requires 0.0 < w && m0 != 0.0 && m0 * w == P0 && mk * w == Pk
    ensures P0 != 0.0 && ExplainedPercent(m0, mk) == ExplainedPercent(P0, Pk)
  {
    var q := (m0 - mk) / m0;
    assert q * m0 == m0 - mk;
    assert P0 != 0.0;
    assert q * P0 == P0 - Pk by {
      assert q * P0 == (q * m0) * w;
      assert P0 - Pk == (m0 - mk) * w;
    }
    assert q == (P0 - Pk) / P0;
  }

  /** `mse` is `press` per object: each entry times `n` is the matching
      PRESS entry. */
  predicate PerObject(mse: Matrix, press: Matrix, n: nat)
  {
    |mse| == |press| && (forall k :: 0 <= k < |press| ==> |mse[k]| == |press[k]|)
    && forall k, c :: 0 <= k < |press| && 0 <= c < |press[k]| ==> mse[k][c] * n as real == press[k][c]
  }

  /** `total[k]` is the sum of row `k` of `press`. */
  predicate RowTotals(total: Vector, press: Matrix)
  {
    |total| == |press| && forall k :: 0 <= k < |press| ==> total[k] == Sum(press[k])
  }

  /** `total[k]` is the sum of row `k` of `press` per entry of data with
      `w` entries. */
  predicate TotalPerEntry(total: Vector, press: Matrix, w: nat)
  {
    |total| == |press| && forall k :: 0 <= k < |press| ==> total[k] * w as real == Sum(press[k])
  }

  /** Every entry of `r` is the non-negative square root of the matching
      entry of `m`. */
  predicate RootsOf(r: Matrix, m: Matrix)
  {
    |r| == |m| && (forall k :: 0 <= k < |m| ==> |r[k]| == |m[k]|)
    && forall k, c :: 0 <= k < |m| && 0 <= c < |m[k]| ==> 0.0 <= r[k][c] && r[k][c] * r[k][c] == m[k][c]
  }

  /** `RootsOf` for a vector. */
  predicate RootsOfEach(r: Vector, m: Vector)
  {
    |r| == |m| && forall k :: 0 <= k < |m| ==> 0.0 <= r[k] && r[k] * r[k] == m[k]
  }

  /** `E[k][c]` is the share of column `c`'s zero-component PRESS that row
      `k` no longer has, in percent. */
  predicate ExplainedPerColumn(E: Matrix, press: Matrix, p: nat)
  {
    Rect(press, p) && |press| > 0 && IsMatrix(E, |press|, p)
    && (forall c :: 0 <= c < p ==> press[0][c] != 0.0)
    && forall k, c :: 0 <= k < |press| && 0 <= c < p ==> E[k][c] == ExplainedPercent(press[0][c], press[k][c])
  }

  /** `cum[k]` is the average of row `k` of `E` over its `p` columns. */
  predicate RowAverages(cum: Vector, E: Matrix, p: nat)
  {
    |cum| == |E| && forall k :: 0 <= k < |E| ==> cum[k] * p as real == Sum(E[k])
  }

  /** `cum[k]` is the share of the zero-component PRESS total that row `k`
      no longer has, in percent. */
  predicate ShareOfTotal(cum: Vector, press: Matrix)
  {
    |press| > 0 && |cum| == |press| && Sum(press[0]) != 0.0
    && forall k :: 0 <= k < |press| ==> cum[k] == ExplainedPercent(Sum(press[0]), Sum(press[k]))
  }

  /** `d[j]` is what `cum` gains from entry `j` to entry `j + 1`. */
  predicate Increments(d: Vector, cum: Vector)
  {
    |cum| == |d| + 1 && forall j :: 0 <= j < |d| ==> cum[j] + d[j] == cum[j + 1]
  }

  /** The error statistics of a summary in terms of its PRESS table: MSE is
      PRESS per object, the PRESS total is the row sum, the MSE total is the
      PRESS total per entry of the data, and every RMSE is the non-negative
      root of its MSE. */
  lemma SummaryErrors(press: Matrix, p: nat, n: nat, xstand: bool, sqrt: real -> real, s: Summary)
    requires Summarisable(press, p, n) && IsSqrt(sqrt)
    requires s == Summarise(press, p, n, xstand, sqrt)
    ensures PerObject(s.mse, press, n)
    ensures RowTotals(s.pressTotal, press)
    ensures TotalPerEntry(s.mseTotal, press, p * n)
    ensures RootsOf(s.rmse, s.mse) && RootsOfEach(s.rmseTotal, s.mseTotal)
  {
    MseBaselinePositive(press, p, n);
    var mse := MseTable(press, p, n);
    assert s.mse == mse;
    assert s.pressTotal == RowSums(press);
    assert s.mseTotal == TotalMse(mse, p);
    assert s.rmse == RootTable(mse, p, sqrt);
    assert s.rmseTotal == RootVector(s.mseTotal, sqrt);
    MseTotalPerEntry(press, p, n);
  }

  /** The total MSE is the PRESS total per entry of the data. */
  lemma MseTotalPerEntry(press: Matrix, p: nat, n: nat)
    requires Rect(press, p) && p > 0 && n > 0
    ensures TotalPerEntry(TotalMse(MseTable(press, p, n), p), press, p * n)
  {
    var mse := MseTable(press, p, n);
    var total := TotalMse(mse, p);
    forall k | 0 <= k < |press| ensures total[k] * (p * n) as real == Sum(press[k]) {
      SumScaled(mse[k], press[k], n as real);
      TotalTimesWeight(total[k], Sum(mse[k]), Sum(press[k]), p as real, n as real);
    }
  }

  /** The explained variances of a summary in terms of its PRESS table: per
      variable, the relative drop of that variable's PRESS; in total, the
      average over the variables when standardising and the relative drop of
      the PRESS total when centring; nothing for no components, and the
      per-component values are the steps of the cumulative ones. */
  lemma SummaryExplained(press: Matrix, p: nat, n: nat, xstand: bool, sqrt: real -> real, s: Summary)
    requires Summarisable(press, p, n) && IsSqrt(sqrt)
    requires s == Summarise(press, p, n, xstand, sqrt)
    ensures ExplainedPerColumn(s.cumPerVariable, press, p)
    ensures xstand ==> RowAverages(s.cumTotal, s.cumPerVariable, p)
    ensures !xstand ==> ShareOfTotal(s.cumTotal, press)
    ensures Increments(s.perComponent, s.cumTotal)
    ensures s.cumTotal[0] == 0.0 && forall c :: 0 <= c < p ==> s.cumPerVariable[0][c] == 0.0
    ensures Sum(s.perComponent) == s.cumTotal[|press| - 1]
  {
    MseBaselinePositive(press, p, n);
    var mse := MseTable(press, p, n);
    assert s.mse == mse && s.cumPerVariable == ExplainedTable(mse, p);
    ExplainedPerVariable(press, p, n, mse, s.cumPerVariable);
    assert s.cumTotal == ExplainedTotal(s.mseTotal, s.cumPerVariable, p, xstand);
    if xstand {
      ExplainedAverages(s.mseTotal, s.cumPerVariable, p, s.cumTotal);
    } else {
      SummaryErrors(press, p, n, xstand, sqrt, s);
      ExplainedOfTotals(press, p, n, s.mseTotal, s.cumTotal);
    }
    SummaryStartsAtZero(press, p, n, xstand, sqrt);
    assert s.perComponent == PerComponent(s.cumTotal);
  }

  /** `SummaryExplained` in total, when standardising. */
  lemma ExplainedAverages(mseTotal: Vector, table: Matrix, p: nat, cum: Vector)
    requires p > 0 && Rect(table, p)
    requires cum == ExplainedTotal(mseTotal, table, p, true)
    ensures RowAverages(cum, table, p)
  {
  }

  /** `SummaryExplained` per variable. */
  lemma ExplainedPerVariable(press: Matrix, p: nat, n: nat, mse: Matrix, table: Matrix)
    requires Summarisable(press, p, n)
    requires mse == MseTable(press, p, n) && HasBaseline(mse, p) && table == ExplainedTable(mse, p)
    ensures ExplainedPerColumn(table, press, p)
  {
    forall k, c | 0 <= k < |press| && 0 <= c < p
      ensures press[0][c] != 0.0 && table[k][c] == ExplainedPercent(press[0][c], press[k][c])
    {
      assert table[k] == ExplainedRow(mse[0], mse[k]);
      ExplainedPercentScaled(mse[0][c], mse[k][c], n as real, press[0][c], press[k][c]);
    }
  }

  /** `SummaryExplained` in total, when centring. */
  lemma ExplainedOfTotals(press: Matrix, p: nat, n: nat, mseTotal: Vector, cum: Vector)
    requires Summarisable(press, p, n)
    requires TotalPerEntry(mseTotal, press, p * n) && mseTotal[0] != 0.0
    requires |cum| == |press|
    requires forall k :: 0 <= k < |press| ==> cum[k] == ExplainedPercent(mseTotal[0], mseTotal[k])
    ensures ShareOfTotal(cum, press)
  {
    var w := (p * n) as real;
    forall k | 0 <= k < |press| ensures Sum(press[0]) != 0.0 && cum[k] == ExplainedPercent(Sum(press[0]), Sum(press[k])) {
      ExplainedPercentScaled(mseTotal[0], mseTotal[k], w, Sum(press[0]), Sum(press[k]));
    }
  }
}
