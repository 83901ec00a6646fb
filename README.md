# nipalsPCA in Dafny

This project models the `nipalsPCA` class of hoggorm (`hoggorm/pca.py`): principal
component analysis by NIPALS on a data matrix with `n` objects (rows) and `p`
variables (columns), together with its calibration and cross-validation statistics.

The constructor does all the work and stores every result in the object. The model
follows it in this order:

- It chooses the number of components (`numPC`). When none is requested, this is
  `min(n, p)`; a larger request is capped at that value.
- It centres the data or, with `Xstand`, standardises it with the `ddof=1`
  standard deviation.
- It peels off one rank-one component `t·pᵀ` after another. Each score, loading
  and residual is recorded.
- It rebuilds the predictions `calXpredList` from the first `k` components, in the
  units of the input.
- It compares them with the input in a PRESS table, after centring both.
- From that table it derives:
  - the MSE and RMSE, per variable and in total;
  - the cumulative explained variance, per variable and in total;
  - the explained variance of each component.
- With cross-validation, it repeats the fit for every segment:
  - it preprocesses the training rows and decomposes them;
  - it projects the test rows on the training loadings and predicts them;
  - it stacks the predictions, builds the validated PRESS table and derives the
    same statistics from it.

The accessors (`X_means` … `cvTrainAndTestData`) return these stored results.
`X_scores_predict` projects new rows onto the stored loadings.

Modules:

- `Linalg`: matrices as sequences of rows, sums, products and stacking.
- `Preprocessing`: column means, sample variances, standard deviations, centring
  and standardising, and the whole-array statistics used by `X_scores_predict`.
- `Nipals`: the choice of `numPC`, deflation, the decomposition loop, and the
  algebra of residuals and scores.
- `Statistics`: everything derived from a PRESS table.
- `Calibration`: the calibrated predictions and the PRESS table.
- `CrossValidation`: segments, their predictions, stacking, and the validated
  PRESS table.
- `Pca`: the class. Its fields are the constructor's results (immutable `const`
  fields). Its accessors have contracts that say what each returned value means.

The class invariant is split by what each accessor needs:

- `Calibrated`: preprocessing, decomposition and predictions.
- `CvPredicted`: the stacked cross-validation predictions.
- `CrossValidated`: `CvPredicted` plus the validated PRESS table.
- `Summarised`: the statistics are those of their PRESS tables.
- `Valid`: all of them.

Three things are parameters instead of code:

- `extract: Matrix -> Vector` is the inner power iteration of NIPALS (lines 143-159).
  It gives the loading that the iteration settles on for a residual. The score is
  then `t = R·p`, which is what holds when the loop exits (line 148). Some lemmas
  assume that every loading has unit length (`UnitLoadings`), as `num / norm(num)`
  has; only those lemmas do. Others assume that every loading is a fixed point of
  lines 144-148 (`SettledLoadings`): `Rᵀt = (tᵀt)·p` for `t = R·p`. This is what
  `p = num / norm(num)` gives once the score no longer changes.
- `sqrt` is any function that gives the non-negative square root of a non-negative
  real (`IsSqrt`).
- The cross-validation segments are a sequence of `(train, test)` index lists.
  In the source, the generator that `cvType` names produces them.

Numbers are exact reals.

## Model

| member | source | states |
|---|---|---|
| `Nipals.ChooseNumPC` | hoggorm/pca.py:67-74 | the number of components never exceeds `min(n, p)`; it equals `min(n, p)` exactly when none is requested or the request reaches `min(n, p)`; a smaller request is kept as given, even below one |
| `Nipals.Decompose` | hoggorm/pca.py:138-168 | the deflation loop returns the score list, the loading list and the residual dictionary (keys `1..numPC`) of components `0..numPC-1`: each loading is the iteration's loading for the current residual, each score is that residual times the loading, each residual is the previous one minus `t·pᵀ` |
| `Nipals.ComponentsAt` | hoggorm/pca.py:138-157 | entry `j` of the score and loading lists is component `j`, however many components are computed after it |
| `Nipals.TruncatedProductIsReconstruction` | hoggorm/pca.py:197-199 | the product of the first `k` columns of the stacked scores and loadings is the sum of the first `k` rank-one terms `t_j·p_jᵀ` |
| `Nipals.ResidualTelescopes` | hoggorm/pca.py:163-168 | the residual after `k` components is the preprocessed data minus the sum of the first `k` rank-one terms |
| `Nipals.ProductIsDataMinusResidual` | hoggorm/pca.py:197-199 | what the first `k` components model, `T_k·P_kᵀ`, is the preprocessed data minus the residual after `k` components |
| `Nipals.DeflateKeepsCentred` | hoggorm/pca.py:163-165 | deflating a column-centred residual with its own score leaves it column-centred |
| `Nipals.CentredDecomposition` | hoggorm/pca.py:138-168 | from column-centred data every residual is column-centred and every score vector sums to zero |
| `Nipals.DeflateOrthogonal` | hoggorm/pca.py:163-165 | with a unit loading, the deflated residual is orthogonal to that loading |
| `Nipals.RowSumSquaresAfterDeflation` | hoggorm/pca.py:163-165 | with a unit loading, each deflated row loses exactly the square of its score from its sum of squares |
| `Nipals.DeflateSumSquares` | hoggorm/pca.py:163-165 | with a unit loading, deflation removes exactly the squared length of the score from the total sum of squares |
| `Nipals.ResidualSumSquaresDecrease` | hoggorm/pca.py:138-168 | with unit loadings the residual sum of squares never increases from one component to the next |
| `Nipals.DeflatedColumnSumSquares` | hoggorm/pca.py:163-165 | when the score's cross term with column `c` is `(tᵀt)·p[c]`, deflation removes exactly `p[c]²·(tᵀt)` from that column's sum of squares, which therefore does not grow |
| `Nipals.SettledColumnsDecrease` | hoggorm/pca.py:138-168 | with settled loadings, in either mode, no column's residual sum of squares grows from one component to the next |
| `Preprocessing.ColumnMeans` | hoggorm/pca.py:94 | each column mean times `n` is the column sum |
| `Preprocessing.Centre` | hoggorm/pca.py:215-221 | the centring used by the PRESS computation leaves every column summing to zero |
| `Preprocessing.SampleVariances` | hoggorm/pca.py:95 | each `ddof=1` variance is non-negative and times `n - 1` is the centred column sum of squares |
| `Preprocessing.StdDevs` | hoggorm/pca.py:95 | each standard deviation is non-negative and its square is the column's sample variance |
| `Preprocessing.SpreadOfNonConstantColumn` | hoggorm/pca.py:95 | a column holding two different values has a positive centred sum of squares |
| `Preprocessing.ConstantColumnHasNoSpread` | hoggorm/pca.py:95 | a column holding one value has a zero centred sum of squares, so standardising it would divide by zero |
| `Preprocessing.PositiveStdDevs` | hoggorm/pca.py:95-96 | with no constant column every sample variance, and so every standard deviation, is positive: the division of line 96 is defined |
| `Preprocessing.FitParams` | hoggorm/pca.py:93-99 | the means are the column means of the data; a non-zero standard deviation row is present exactly when standardising |
| `Preprocessing.RestoreApply` | hoggorm/pca.py:172-175 | multiplying back by the standard deviations and adding the means undoes the preprocessing |
| `Preprocessing.ApplyRestore` | hoggorm/pca.py:201-204 | preprocessing a restored matrix gives it back |
| `Preprocessing.FittedColumnsSumToZero` | hoggorm/pca.py:93-99 | the preprocessed input `arrX` is column-centred in both modes |
| `Preprocessing.StandardisedUnitVariance` | hoggorm/pca.py:94-96 | every standardised column has sample variance one |
| `Preprocessing.CentredInput` | hoggorm/pca.py:96-99 | the centred input is `arrX`, multiplied back by the standard deviations when standardising |
| `Preprocessing.CentreOfDifference` | hoggorm/pca.py:221 | centring the difference of two matrices is the difference of their centrings |
| `Preprocessing.CentreOfShifted` | hoggorm/pca.py:221 | centring removes the mean row that the prediction adds back |
| `Preprocessing.WholeMean` | hoggorm/pca.py:842 | the mean of all entries, times `n·p`, is the sum of all entries |
| `Preprocessing.WholeVariance` | hoggorm/pca.py:842 | the `ddof=1` variance of all entries taken together is non-negative and times `n·p - 1` is their sum of squares about that mean |
| `Preprocessing.WholeVariancePositive` | hoggorm/pca.py:842 | with no constant column that variance is positive |
| `Preprocessing.WholeStd` | hoggorm/pca.py:842 | the whole-array standard deviation is non-negative and its square is the whole-array variance |
| `Calibration.CumulativePredictions` | hoggorm/pca.py:192-205 | the loop appends, for `k = 1..numPC`, the product of the first `k` score and loading columns restored to the input's units |
| `Calibration.PredictionSplitsData` | hoggorm/pca.py:195-205 | a prediction with `k` components, preprocessed as the input was, plus the residual after `k` components is exactly `arrX` |
| `Calibration.PressBaseline` | hoggorm/pca.py:215 | the zero-component PRESS row has one non-negative entry per variable |
| `Calibration.PressRow` | hoggorm/pca.py:221-222 | a PRESS row has one non-negative entry per variable |
| `Calibration.PressTable` | hoggorm/pca.py:212-227 | the PRESS array has `numPC + 1` rows of `p` non-negative entries, and row 0 is the baseline |
| `Calibration.PressEntries` | hoggorm/pca.py:212-227 | filling the dictionary under keys `0..numPC` and turning it into an array gives that table |
| `Calibration.CalibrationPress` | hoggorm/pca.py:192-227 | the calibrated PRESS table has `numPC + 1` non-negative rows, and row 0 is the baseline |
| `Calibration.PressIsResidualSumSquares` | hoggorm/pca.py:212-222 | row `k` of the PRESS table is the column sum of squares of the residual after `k` components, times the squared standard deviation of each column when standardising |
| `Calibration.CentredPressDecreases` | hoggorm/pca.py:212-227 | when centring with unit loadings, the total PRESS never grows as components are added |
| `Calibration.CalibrationSummarisable` | hoggorm/pca.py:215 | with no constant column every baseline entry is positive, so the divisions of lines 244 and 283 are defined |
| `Calibration.CentredCalibrationExplained` | hoggorm/pca.py:280-296 | when centring with unit loadings, the cumulative explained variance stays within 0..100, never decreases, and no component adds a negative share |
| `Calibration.SettledPressDecreases` | hoggorm/pca.py:212-227 | with settled loadings, centring or standardising, no entry of the PRESS table grows as components are added, and so no PRESS total does |
| `Calibration.SettledCalibrationTotals` | hoggorm/pca.py:227-296 | with settled loadings, in both modes, the PRESS and MSE totals never increase, the total cumulative explained variance stays within 0..100 and never decreases, and no component adds a negative share |
| `Calibration.SettledCalibrationPerVariable` | hoggorm/pca.py:240-245 | with settled loadings, in both modes, each variable's cumulative explained variance stays within 0..100 and never decreases |
| `Statistics.MseTable` | hoggorm/pca.py:228-229 | every MSE entry times `n` is its PRESS entry, and is non-negative when the PRESS is |
| `Statistics.RootTable` | hoggorm/pca.py:230 | every RMSE entry is the non-negative square root of its MSE entry |
| `Statistics.TotalMse` | hoggorm/pca.py:275-276 | each total MSE times `p` is the sum of its MSE row |
| `Statistics.RootVector` | hoggorm/pca.py:309 | every total RMSE is the non-negative root of its total MSE |
| `Statistics.ExplainedPercentEnds` | hoggorm/pca.py:244 | no drop in error explains 0 percent; an error of zero explains 100 percent |
| `Statistics.ExplainedPercentOrder` | hoggorm/pca.py:244 | with a positive baseline, a smaller error explains more |
| `Statistics.ExplainedPercentBounds` | hoggorm/pca.py:244 | an error between zero and the baseline explains between 0 and 100 percent |
| `Statistics.CumulativeExplainedPerVariable` | hoggorm/pca.py:240-245 | the array allocated with the MSE table's shape is overwritten row by row with the table of per-variable percentages |
| `Statistics.ExplainedTableStartsAtZero` | hoggorm/pca.py:240-245 | row 0 of the per-variable table is all zeros |
| `Statistics.Average` | hoggorm/pca.py:287 | the average times the length is the sum |
| `Statistics.CumulativeExplainedTotal` | hoggorm/pca.py:280-287 | the loop (centring) or the row averages (standardising) give the total cumulative explained variance |
| `Statistics.ExplainedTotalStartsAtZero` | hoggorm/pca.py:280-287 | the total cumulative explained variance starts at zero in both modes |
| `Statistics.PerComponent` | hoggorm/pca.py:291-296 | one value per step, each the gain from one cumulative value to the next |
| `Statistics.ExplainedPerComponent` | hoggorm/pca.py:291-296 | the loop that stops at the last cumulative value gives those steps |
| `Statistics.PerComponentTelescopes` | hoggorm/pca.py:291-296 | the first `k` per-component values add up to `cum[k] - cum[0]` |
| `Statistics.PerComponentSum` | hoggorm/pca.py:291-296 | all of them add up to the last cumulative value minus the first |
| `Statistics.ExplainedTotalMonotone` | hoggorm/pca.py:280-283 | a non-increasing, non-negative total MSE gives percentages within 0..100 that never decrease |
| `Statistics.MseBaselinePositive` | hoggorm/pca.py:227-277 | a positive PRESS baseline gives a positive MSE baseline per variable and in total, and non-negative totals |
| `Statistics.SummariseTable` | hoggorm/pca.py:227-312 | the statistics section, with its loops, computes the summary of the PRESS table |
| `Statistics.Summarise` | hoggorm/pca.py:227-312 | the summary keeps the PRESS table and has one MSE, RMSE and cumulative row per PRESS row, and one per-component value fewer |
| `Statistics.SummaryStartsAtZero` | hoggorm/pca.py:240-296 | with no components nothing is explained, per variable or in total, and the per-component values add up to the last cumulative value |
| `Statistics.TotalMseMonotone` | hoggorm/pca.py:275-276 | PRESS totals that never increase give total MSEs that never increase |
| `Statistics.CentredSummaryMonotone` | hoggorm/pca.py:264-296 | in centre mode, non-increasing PRESS totals give non-increasing PRESS and MSE totals, a cumulative explained variance within 0..100 that never decreases, and non-negative per-component values |
| `Statistics.SummaryMonotone` | hoggorm/pca.py:227-296 | a summary of a PRESS table none of whose columns grows has, in both modes, non-increasing PRESS and MSE totals, a total cumulative explained variance within 0..100 that never decreases, and non-negative per-component values |
| `Statistics.SummaryPerVariableMonotone` | hoggorm/pca.py:240-245 | in such a summary each variable's cumulative explained variance stays within 0..100 and never decreases |
| `Statistics.ExplainedColumnsMonotone` | hoggorm/pca.py:240-245 | PRESS columns that never grow give per-variable percentages within 0..100 that never decrease |
| `Statistics.AveragesMonotone` | hoggorm/pca.py:286-288 | averaging per-variable percentages within 0..100 that never decrease gives totals within 0..100 that never decrease |
| `Statistics.ErrorTotalsMonotone` | hoggorm/pca.py:264-276 | PRESS columns that never grow give PRESS and MSE totals that never grow |
| `Statistics.ExplainedPercentScaled` | hoggorm/pca.py:275-283 | the percentage computed from total MSEs is the one computed from PRESS totals: scaling both by the same positive weight changes nothing |
| `Statistics.SummaryErrors` | hoggorm/pca.py:227-312 | in a summary, MSE is PRESS per object, the PRESS total is the row sum, the total MSE is the PRESS total per entry of the data, and every RMSE is the non-negative root of its MSE |
| `Statistics.MseTotalPerEntry` | hoggorm/pca.py:275-276 | the total MSE times `n·p` is the PRESS row sum |
| `Statistics.SummaryExplained` | hoggorm/pca.py:240-296 | in a summary, each per-variable value is the percentage drop of that variable's PRESS. The total is the average over the variables when standardising and the percentage drop of the PRESS total when centring. Both start at zero, and the per-component values are the steps, which add up to the last cumulative value |
| `CrossValidation.Rows` | hoggorm/pca.py:362 | `cv.split`: row `i` of the result is input row `idx[i]` |
| `CrossValidation.FoldParams` | hoggorm/pca.py:371-384 | a segment is preprocessed with the means and, when standardising, the standard deviations of its training rows alone |
| `CrossValidation.FoldLoadings` | hoggorm/pca.py:391-431 | a segment has `numPC` loadings of length `p`, from its preprocessed training rows |
| `CrossValidation.ProjectedScores` | hoggorm/pca.py:438 | score `j` of test row `i` is that preprocessed row projected on training loading `j` |
| `CrossValidation.SegmentPredictions` | hoggorm/pca.py:361-458 | the body of the segment loop gives the predictions of the segment's test rows with `1..numPC` components, in the input's units |
| `CrossValidation.CollectSegments` | hoggorm/pca.py:339-458 | `valXpredDict` has keys `1..numPC`, and key `k` lists every segment's `k`-component predictions in segment order |
| `CrossValidation.FoldBlocksExtend` | hoggorm/pca.py:458 | processing one more segment appends its predictions to the end of every list |
| `CrossValidation.StackSegments` | hoggorm/pca.py:463-473 | stacking every list gives the stacked predictions |
| `CrossValidation.CrossValidate` | hoggorm/pca.py:319-507 | the segment loop, the stacking and the PRESS loop give the stacked predictions and the validated PRESS table |
| `CrossValidation.CvPredictions` | hoggorm/pca.py:463-473 | one stacked matrix per number of components, with one row per test index of all the segments |
| `CrossValidation.BlockRows` | hoggorm/pca.py:463-464 | the stacked blocks of the first `m` segments have as many rows as those segments have test indices |
| `CrossValidation.StackedEntry` | hoggorm/pca.py:463-464 | row `i` of block `b` sits in the stack after the test rows of the earlier segments |
| `CrossValidation.StackedRowIsFoldRow` | hoggorm/pca.py:463-473 | row `TestCount(folds[..b]) + i` of the stacked predictions with `k + 1` components is segment `b`'s prediction of its test row `i` |
| `CrossValidation.TestOrderIndex` | hoggorm/pca.py:463-464 | test index `i` of segment `b` sits in the segments' test order at the position its prediction has in the stack |
| `CrossValidation.StackedRowsInInputOrder` | hoggorm/pca.py:463-501 | when the test indices, segment after segment, are `0..n-1`, the stacked row compared with input row `r` is the prediction of row `r` by the segment that holds it out |
| `CrossValidation.LeaveOneLabelOutMisaligned` | hoggorm/pca.py:463-501 | with leave-one-label-out segments on the labels `[1, 2, 1, 2]` the test order is `[0, 2, 1, 3]`, and the stacked row compared with input row 1 is the first segment's prediction of input row 2 |
| `CrossValidation.CvPredictionsByInput` | hoggorm/pca.py:461-464 | the stacked predictions moved back into input order whenever the test indices name every input row once: one `n × p` matrix per number of components |
| `CrossValidation.ByInputRowIsOwnPrediction` | hoggorm/pca.py:461-464 | in whatever order the segments test the rows, row `folds[b].test[i]` of the reordered predictions is segment `b`'s own prediction of its test row `i` |
| `CrossValidation.InOrderByInputUnchanged` | hoggorm/pca.py:461-464 | when the test indices run through `0..n-1` in order, the reordered predictions are the stacked ones unchanged |
| `CrossValidation.LeaveOneLabelOutByInput` | hoggorm/pca.py:461-464 | on the leave-one-label-out segments for the labels `[1, 2, 1, 2]` the reordered row 1 is the second segment's prediction of input row 1 |
| `CrossValidation.FoldRowUsesTrainAndOwnRow` | hoggorm/pca.py:361-458 | a segment's prediction of its test row `i` depends on the input only through the segment's training rows and that one row |
| `CrossValidation.PredictionRowAgrees` | hoggorm/pca.py:438-458 | prediction row `i` depends only on preprocessed test row `i` |
| `CrossValidation.CvPredictionUsesTrainAndOwnRow` | hoggorm/pca.py:361-473 | no leakage: each stacked prediction depends on the input only through its segment's training rows and its own row |
| `CrossValidation.CvBaselineScalesPress` | hoggorm/pca.py:492-494 | the validated baseline times `n - 1` is `n` times the calibrated baseline |
| `CrossValidation.CvBaselineSign` | hoggorm/pca.py:492-494 | every validated baseline entry is non-negative, and positive exactly when its column varies |
| `CrossValidation.CvPressRow` | hoggorm/pca.py:499-503 | a validated PRESS row exists exactly when the stacked prediction has `n` rows or a single row (numpy broadcasting); its entries are non-negative |
| `CrossValidation.SinglePredictionIsBaseline` | hoggorm/pca.py:499-503 | a single broadcast prediction row centres to zero, so its PRESS is the calibrated baseline |
| `CrossValidation.CvPressTable` | hoggorm/pca.py:485-507 | the validated PRESS table exists exactly when every stacked prediction can be broadcast; it then has one non-negative row per prediction after the baseline |
| `CrossValidation.CvPressEntries` | hoggorm/pca.py:485-507 | the PRESS loop, which stops at the first shape error, computes that table |
| `CrossValidation.CvPress` | hoggorm/pca.py:485-507 | the validated PRESS table, when it exists, has `numPC + 1` non-negative rows |
| `CrossValidation.CvPressRows` | hoggorm/pca.py:485-503 | the validated baseline is `n/(n - 1)` times the calibrated one, and row `k` is the PRESS of the stacked `k`-component predictions |
| `CrossValidation.CvPressDefined` | hoggorm/pca.py:493-503 | with at least one component, the validated table exists exactly when the segments hold `n` test rows in all, or one |
| `CrossValidation.CvSummarisable` | hoggorm/pca.py:492-494 | with no constant column the validated baseline is positive, so its statistics are defined |
| `Pca.FitFailureCases` | hoggorm/pca.py:67-503 | the constructor fails for want of components exactly when the input has no rows or no columns (so `min(n, p)` is 0) or fewer than one component is requested; otherwise, without cross-validation it never fails; with recognised, non-empty segments it fails exactly when they hold neither `n` test rows nor one |
| `Pca.NipalsPca.Fit` | hoggorm/pca.py:51-586 | construction fails exactly when `FitFailure` names an error, with that error; otherwise the new model satisfies the class invariant |
| `Pca.NipalsPca.constructor` | hoggorm/pca.py:51-586 | the fields hold the inputs, the chosen `numPC`, and everything lines 67-586 compute from them |
| `Pca.NipalsPca.XMeans` | hoggorm/pca.py:605-609 | one row of column means, each times `n` the column sum |
| `Pca.NipalsPca.XScores` | hoggorm/pca.py:612-617 | `n × numPC`; column `j` is residual `j` projected on loading `j`, and every score column sums to zero |
| `Pca.NipalsPca.XLoadings` | hoggorm/pca.py:620-625 | `p × numPC`; column `j` is loading `j`, of unit length when the iteration normalises |
| `Pca.NipalsPca.XResiduals` | hoggorm/pca.py:654-659 | keys `1..numPC`; entry `k` is `arrX - T_k·P_kᵀ`, and every residual column sums to zero |
| `Pca.NipalsPca.XPredCal` | hoggorm/pca.py:686-692 | keys `1..numPC`; entry `k` is the `k`-component prediction |
| `Pca.NipalsPca.PredCalSplitsData` | hoggorm/pca.py:686-692 | each entry of `X_predCal`, preprocessed, plus the residual after as many components is `arrX` |
| `Pca.NipalsPca.XPresseIndVar` | hoggorm/pca.py:695-701 | `(numPC + 1) × p`, non-negative; row 0 is the centred input's column sums of squares, row `k` is the weighted residual sum of squares |
| `Pca.NipalsPca.CentredCalibrationMonotone` | hoggorm/pca.py:227-296 | when centring with unit loadings, the PRESSE and MSEE totals never increase, the cumulative explained variance stays within 0..100 and never decreases, and no component adds a negative share |
| `Pca.NipalsPca.SettledCalibrationPress` | hoggorm/pca.py:695-701 | with settled loadings, in both modes, no entry of `X_PRESSE_indVar` grows from one row to the next |
| `Pca.NipalsPca.SettledCalibrationMonotone` | hoggorm/pca.py:227-296 | with settled loadings, in both modes, the PRESSE and MSEE totals never increase, the cumulative explained variance stays within 0..100 and never decreases, and no component adds a negative share |
| `Pca.NipalsPca.SettledExplainedPerVariable` | hoggorm/pca.py:670-675 | with settled loadings, in both modes, each variable's cumulative explained variance stays within 0..100 and never decreases |
| `Pca.NipalsPca.XPresse` | hoggorm/pca.py:704-710 | each total is the sum of its `X_PRESSE_indVar` row |
| `Pca.NipalsPca.XMseeIndVar` | hoggorm/pca.py:713-718 | `X_PRESSE_indVar` per object |
| `Pca.NipalsPca.XMsee` | hoggorm/pca.py:721-727 | each total PRESSE per entry of the data |
| `Pca.NipalsPca.XRmseeIndVar` | hoggorm/pca.py:730-735 | the non-negative root of each MSEE entry |
| `Pca.NipalsPca.XRmsee` | hoggorm/pca.py:738-744 | the non-negative root of each total MSEE |
| `Pca.NipalsPca.XCumCalExplVarIndVar` | hoggorm/pca.py:670-675 | per variable, the percentage drop of its PRESSE; zero for no components |
| `Pca.NipalsPca.XCumCalExplVar` | hoggorm/pca.py:678-683 | starts at zero; the average of the per-variable values when standardising, the percentage drop of the PRESSE total when centring |
| `Pca.NipalsPca.XCalExplVar` | hoggorm/pca.py:662-667 | the steps of the cumulative values, which add up to the last one |
| `Pca.NipalsPca.XPresscvIndVar` | hoggorm/pca.py:778-784 | present exactly with cross-validation; `(numPC + 1) × p`, non-negative |
| `Pca.NipalsPca.ValidatedBaseline` | hoggorm/pca.py:492-494 | row 0 of `X_PRESSCV_indVar` times `n - 1` is `n` times row 0 of `X_PRESSE_indVar` |
| `Pca.NipalsPca.ValidatedPressRows` | hoggorm/pca.py:493-503 | row `k` of `X_PRESSCV_indVar` is the PRESS of the stacked `k`-component predictions |
| `Pca.NipalsPca.XPresscv` | hoggorm/pca.py:787-793 | present exactly with cross-validation; each total is its row sum |
| `Pca.NipalsPca.XMsecvIndVar` | hoggorm/pca.py:796-802 | present exactly with cross-validation; PRESSCV per object |
| `Pca.NipalsPca.XMsecv` | hoggorm/pca.py:805-811 | present exactly with cross-validation; total PRESSCV per entry of the data |
| `Pca.NipalsPca.XRmsecvIndVar` | hoggorm/pca.py:814-820 | present exactly with cross-validation; the non-negative root of each MSECV entry |
| `Pca.NipalsPca.XRmsecv` | hoggorm/pca.py:823-829 | present exactly with cross-validation; the non-negative root of each total MSECV |
| `Pca.NipalsPca.XCumValExplVarIndVar` | hoggorm/pca.py:754-760 | present exactly with cross-validation; per variable, the percentage drop of its PRESSCV, zero for no components |
| `Pca.NipalsPca.XCumValExplVar` | hoggorm/pca.py:763-767 | present exactly with cross-validation; starts at zero; the average per variable when standardising, the drop of the total when centring |
| `Pca.NipalsPca.XValExplVar` | hoggorm/pca.py:747-751 | present exactly with cross-validation; the steps of the cumulative values, adding up to the last one |
| `Pca.NipalsPca.XPredVal` | hoggorm/pca.py:770-775 | present exactly with cross-validation; keys `1..numPC`, each a stacked prediction with one row per test index |
| `Pca.NipalsPca.XScoresPredictAsWritten` | hoggorm/pca.py:832-851 | new rows, minus the column means and divided by the whole-array standard deviation when standardising, projected on the first `numPC` loadings after Python slice clamping; equal to `XScoresPredict` when centring |
| `Pca.NipalsPca.XScoresPredict` | hoggorm/pca.py:832-851 | new rows preprocessed with the model's own parameters and projected on the kept loadings; on the input itself its first column is that of `X_scores` |
| `Pca.NipalsPca.CvTrainAndTestData` | hoggorm/pca.py:854-858 | present exactly with cross-validation; per segment, its training rows and its test rows of the input, in index order |
| `Pca.SliceEnd` | hoggorm/pca.py:849 | the end of `[:, 0:numPC]` on `m` columns: the request when it lies in `0..m`, `m` above, counted from the end when negative, and zero below `-m` |
| `Pca.AsWrittenParams` | hoggorm/pca.py:839-846 | the means are the model's; when standardising every column gets one scale whose square is the whole-array variance; when centring the parameters are the model's |
| `Pca.Keyed` | hoggorm/pca.py:300-302 | the dictionary filled with `d[ind + 1] = item` has keys `1..len` and entry `k` is item `k - 1` |
| `Pca.ResidualsAreUnmodelled` | hoggorm/pca.py:163-168 | every residual is `arrX` minus what the components before it model |
| `Pca.CentredResiduals` | hoggorm/pca.py:163-168 | from column-centred data every residual is column-centred |
| `Pca.PredictionsSplitData` | hoggorm/pca.py:192-205 | every calibrated prediction, preprocessed, plus its residual is `arrX` |
| `Pca.ZeroOneStdDevs` | hoggorm/pca.py:841-842 | on `[[0, 0], [1, 1]]` the whole-array standard deviation squared is 1/3 and the column one is 1/2 |
| `Pca.WholeArrayStdMisScales` | hoggorm/pca.py:841-842 | on `[[0, 0], [1, 1]]` with `Xstand`, `X_scores_predict` as written standardises the input differently from the constructor |
| `Pca.ZeroOneSharedVariance` | hoggorm/pca.py:841-842 | both columns of `[[0, 0], [1, 1]]` have sample variance 1/2, and its four entries taken together have variance 1/3 |
| `Pca.SharedVarianceRescales` | hoggorm/pca.py:839-843 | when every column of the input has the same sample variance, every row preprocessed as `X_scores_predict` does is `r` times the row the constructor preprocesses, where `r > 0` and `r²` times the whole-array variance is the column variance |
| `Pca.NipalsPca.AsWrittenScoresScaled` | hoggorm/pca.py:832-851 | under the same condition, every score `X_scores_predict` as written gives for the input itself is `r` times the one the model's own preprocessing gives |
| `Pca.NipalsPca.AsWrittenFirstScores` | hoggorm/pca.py:832-851 | under the same condition, the first score column `X_scores_predict` as written gives for the input is `r` times that of `X_scores`; when the two variances differ, the two columns differ wherever `X_scores` is non-zero |
| `Pca.NipalsPca.ZeroOneFirstScores` | hoggorm/pca.py:841-843 | on `[[0, 0], [1, 1]]` with `Xstand`, the first score column `X_scores_predict` gives for the input is `r` times that of `X_scores` with `r > 0` and `r² = 3/2`, and differs from it wherever that column is non-zero |

## Left out

- The NIPALS power iteration (lines 143-159) is a floating-point loop with a
  convergence threshold and no iteration bound. It is the parameter `extract`.
  Facts about its result are hypotheses: loadings of length `p` (`LoadingsFit`),
  and, in the lemmas that say so, unit length (`UnitLoadings`). Convergence and the
  threshold are not modelled.
- Floating point: all arithmetic is exact real arithmetic. `np.sqrt` is any
  function satisfying `IsSqrt`.
- The cross-validation generators (`cv.LeaveOneOut`, `cv.KFold`,
  `cv.LeaveOneLabelOut`) are not part of this model. The segments are an input, and
  `CvType` only says whether a recognised generator was named. `cv.split` is
  `CrossValidation.Rows`.
- `statTools.centre` is not part of this model. It is taken to be column centring
  (`Preprocessing.Centre`).
- `X_corrLoadings`, `corrLoadingsEllipses`, `modelSettings` and the `print` calls
  (lines 326-335) are not modelled. They are outside the fitted model's contracts.
- `Pca.NipalsPca.constructor`: requires, and so does `Fit`, no constant input
  column and at least two rows with cross-validation whenever at least one
  component is to be computed (`Admissible`). On the excluded inputs the source
  does one of two things, neither of which exact reals can express:
  - with `Xstand`, any constant column is 0/0 at line 96. The NaN reaches `num`,
    `denom` and `p` (lines 144-147), `SS < threshold` (line 156) is never true,
    and the `while 1` loop at line 143 never ends: the constructor hangs;
  - when centring, a constant first column makes the first score `t` zero
    (line 140), so `p = num / denom` is 0/0 at line 147 and the constructor hangs
    the same way;
  - when centring, a constant column other than the first lets the decomposition
    finish. Its baseline PRESS is then zero, and the explained variance of that
    column is 0/0 (NaN) at line 244.

  An input with no rows or no columns is admitted: `numPC` is then `min(n, p) = 0`
  and construction fails with `NoComponents`, as the source raises at line 179.
- Non-termination of the power iteration is not modelled. Whenever the residual
  being decomposed has a zero first column, lines 140-147 compute `p = 0/0` and
  the loops at lines 143 and 405 never end. The parameter `extract` returns a
  loading for every residual, so the model finishes where the source hangs. This
  includes inputs that `Admissible` accepts:
  - a residual that deflation has made zero, when `numPC` exceeds the rank of the
    data;
  - a cross-validation segment whose training rows have a constant first column.
    For example, centring with leave-one-out on `[[1, 0], [1, 1], [2, 2]]` leaves
    out row 2 and trains on `[[1, 0], [1, 1]]`. The loop at lines 405-421 hangs
    there, while `CrossValidation.CrossValidate` returns predictions.
- `Pca.NipalsPca.constructor`: requires that every segment have at least one
  training row, and no constant training column when standardising. Every segment
  index must also be a row of the input. A constant training column is 0/0 at
  line 374 and hangs the loop at line 405, as above; an empty training set gives
  NaN means at lines 372 and 380. The generators that produce the segments guarantee the
  indices.
- `Pca.NipalsPca.XScoresPredictAsWritten`: requires `Xnew` to be a matrix with `p`
  columns. With a single column numpy broadcasts it across all `p` variables, and a
  one-dimensional `Xnew` of length `p` or 1 also goes through; with any other
  column count numpy raises. None of these is modelled.
- The validation accessors return `None` when the model was not cross-validated. The
  source raises `AttributeError` there.
- `X_scores_predict`'s default `numPC=1` is not modelled. The count is always passed.
- `CrossValidation.CvPressRows`: states the validated PRESS row by row against
  the stacked predictions, not against each input row's own prediction. The two
  agree only when the test indices, segment after segment, are `0..n-1`
  (`StackedRowsInInputOrder`), as with leave-one-out and unshuffled K-fold.
  Lines 463-464 stack in segment order and line 501 pairs stacked row `r` with
  input row `r`. For interleaved segments the pairing is wrong, for example
  leave-one-label-out on the labels `[1, 2, 1, 2]`
  (`LeaveOneLabelOutMisaligned`). The model keeps the source's order for the
  PRESS table and states the input-order stack separately as
  `CrossValidation.CvPredictionsByInput` (see "## Findings").
- `calXhatDict_singPC` (lines 124 and 169-175) is not modelled: each single
  component's `t·pᵀ` restored to the input's units. No accessor returns it, and
  the cumulative predictions `calXpredList` are modelled instead.
- Reproducing the data exactly with `min(n, p)` components (a zero final
  residual) is not proved. It needs a rank argument that the `extract`
  parameter does not supply. What is proved is that residuals never grow
  (`ResidualSumSquaresDecrease`, `SettledColumnsDecrease`).
- Row broadcasting in the validated PRESS is modelled only for what numpy accepts
  against an `n × p` input: `n` rows, or one row. Every other count is the
  `RowMismatch` error.

## Findings

| source | as written | input that shows it | evidently intended | confidence | as-written member | corrected member |
|---|---|---|---|---|---|---|
| hoggorm/pca.py:841-843 | `X_scores_predict` divides new rows by `np.std(self.arrX_input, ddof=1)` with no `axis`: one standard deviation of all entries taken together | `arrX = [[0, 0], [1, 1]]` with `Xstand=True`. The whole-array variance is 1/3 and each column's is 1/2, so scoring the training data gives `sqrt(3/2)` times the first column of `X_scores` (`Pca.NipalsPca.ZeroOneFirstScores`), not that column | the column standard deviations the constructor standardised with (line 95), as the column means it does use (line 841) | not executed | `Pca.WholeArrayStdMisScales` | `Pca.NipalsPca.XScoresPredict` |
| hoggorm/pca.py:461-501 | the predictions of all segments are stacked in segment order, and line 501 compares stacked row `r` with input row `r`, although the comment at lines 461-462 says the stack corresponds to the original variable | leave-one-label-out on the labels `[1, 2, 1, 2]`: the segments test rows `[0, 2]` and then `[1, 3]`, so stacked row 1, compared with input row 1, is the first segment's prediction of input row 2 | each input row compared with the prediction made for it by the segment that holds it out: the stack put back into input order | not executed | `CrossValidation.LeaveOneLabelOutMisaligned` | `CrossValidation.CvPredictionsByInput` |
