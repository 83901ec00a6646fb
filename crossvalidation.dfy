/** Cross-validation (hoggorm/pca.py lines 318-586): every segment fits the
    preprocessing and the components on its training rows alone, predicts
    its test rows from them, and the predictions of all segments, stacked in
    segment order, are compared with the input by a PRESS table. */
module CrossValidation {
  import opened Wrappers
  import opened Linalg
  import opened Preprocessing
  import opened Nipals
  import opened Statistics
  import opened Calibration

  /** One segment: the row indices to train on and the row indices to
      predict, as a cross-validation generator yields them. */
  datatype Fold = Fold(train: seq<nat>, test: seq<nat>)

  predicate InRange(idx: seq<nat>, n: nat)
  {
    forall i :: 0 <= i < |idx| ==> idx[i] < n
  }

  /** `cv.split`: the rows of `X` at `idx`, in that order. */
  function Rows(X: Matrix, idx: seq<nat>, p: nat): (M: Matrix)
    requires Rect(X, p) && InRange(idx, |X|)
    ensures IsMatrix(M, |idx|, p)
    ensures forall i :: 0 <= i < |idx| ==> M[i] == X[idx[i]]
  {
    seq(|idx|, i requires 0 <= i < |idx| => X[idx[i]])
  }

  /** A segment the source can process: indices inside the input, and
      training rows that can be centred, or standardised. */
  predicate FoldFits(X: Matrix, p: nat, f: Fold, xstand: bool)
  {
    Rect(X, p) && InRange(f.train, |X|) && InRange(f.test, |X|)
    && Fittable(Rows(X, f.train, p), p, xstand)
  }

  predicate FoldsFit(X: Matrix, p: nat, folds: seq<Fold>, xstand: bool)
  {
    forall b :: 0 <= b < |folds| ==> FoldFits(X, p, folds[b], xstand)
  }

  /** Lines 371-385: the means, and the standard deviations when
      standardising, of the training rows alone. */
  function FoldParams(X: Matrix, p: nat, f: Fold, xstand: bool, sqrt: real -> real): (par: Params)
    requires FoldFits(X, p, f, xstand) && IsSqrt(sqrt)
    ensures FittedTo(par, Rows(X, f.train, p), p) && (par.std.Some? <==> xstand)
  {
    FitParams(Rows(X, f.train, p), p, xstand, sqrt)
  }

  /** `valP` (lines 391-431): the loadings of the preprocessed training rows. */
  function FoldLoadings(X: Matrix, p: nat, f: Fold, xstand: bool, extract: Matrix -> Vector, numPC: nat, sqrt: real -> real)
    : (P: seq<Vector>)
    requires FoldFits(X, p, f, xstand) && IsSqrt(sqrt) && LoadingsFit(extract, p)
    ensures |P| == numPC && forall j :: 0 <= j < numPC ==> |P[j]| == p
  {
    Loadings(extract, Apply(Rows(X, f.train, p), FoldParams(X, p, f, xstand, sqrt), p), p, numPC)
  }

  /** `projT = X_test_proc · valP` (line 438): the scores of the test rows on
      the training loadings, one column per component. */
  function ProjectedScores(Z: Matrix, P: seq<Vector>, p: nat): (T: seq<Vector>)
    requires Rect(Z, p) && forall j :: 0 <= j < |P| ==> |P[j]| == p
    ensures |T| == |P| && forall j :: 0 <= j < |P| ==> |T[j]| == |Z|
    ensures forall j, i :: 0 <= j < |P| && 0 <= i < |Z| ==> T[j][i] == Dot(Z[i], P[j])
  {
    seq(|P|, j requires 0 <= j < |P| => MatVec(Z, P[j]))
  }

  /** Lines 440-458: the predictions of the test rows of one segment with
      1, 2, ..., `numPC` components, back in the units of the input. */
  function FoldPredictions(X: Matrix, p: nat, f: Fold, xstand: bool, extract: Matrix -> Vector, numPC: nat, sqrt: real -> real)
    : (preds: seq<Matrix>)
    requires FoldFits(X, p, f, xstand) && IsSqrt(sqrt) && LoadingsFit(extract, p)
    ensures |preds| == numPC && forall k :: 0 <= k < numPC ==> IsMatrix(preds[k], |f.test|, p)
  {
    var par := FoldParams(X, p, f, xstand, sqrt);
    var P := FoldLoadings(X, p, f, xstand, extract, numPC, sqrt);
    var Z := Apply(Rows(X, f.test, p), par, p);
    Predictions(ProjectedScores(Z, P, p), P, |f.test|, p, par)
  }

  /** `valXpredDict[k + 1]` before stacking: the predictions with `k + 1`
      components of every segment, in segment order. */
  function FoldBlocks(X: Matrix, p: nat, folds: seq<Fold>, xstand: bool, extract: Matrix -> Vector, numPC: nat, sqrt: real -> real, k: nat)
    : (blocks: seq<Matrix>)
    requires FoldsFit(X, p, folds, xstand) && IsSqrt(sqrt) && LoadingsFit(extract, p) && k < numPC
    ensures |blocks| == |folds|
    ensures forall b :: 0 <= b < |folds| ==> IsMatrix(blocks[b], |folds[b].test|, p)
  {
    seq(|folds|, b requires 0 <= b < |folds| => FoldPredictions(X, p, folds[b], xstand, extract, numPC, sqrt)[k])
  }

  /** The number of test rows over the segments. */
  function TestCount(folds: seq<Fold>): nat
  {
    if |folds| == 0 then 0 else TestCount(folds[..|folds| - 1]) + |folds[|folds| - 1].test|
  }

  /** Blocks with one row per test index have, up to each segment, as many
      rows as those segments have test indices. */
  lemma {:induction false} BlockRows(blocks: seq<Matrix>, folds: seq<Fold>, m: nat)
    requires |blocks| == |folds| && m <= |folds|
    requires forall b :: 0 <= b < |folds| ==> |blocks[b]| == |folds[b].test|
    ensures TotalRows(blocks[..m]) == TestCount(folds[..m])
  {
    if m > 0 {
      BlockRows(blocks, folds, m - 1);
      assert blocks[..m][..m - 1] == blocks[..m - 1];
      assert folds[..m][..m - 1] == folds[..m - 1];
    }
  }

  /** Lines 460-473: the stacked predictions, one matrix per number of
      components, with one row per test index. */
  function CvPredictions(X: Matrix, p: nat, folds: seq<Fold>, xstand: bool, extract: Matrix -> Vector, numPC: nat, sqrt: real -> real)
    : (stacked: seq<Matrix>)
    requires FoldsFit(X, p, folds, xstand) && IsSqrt(sqrt) && LoadingsFit(extract, p)
    ensures |stacked| == numPC
    ensures forall k :: 0 <= k < numPC ==> IsMatrix(stacked[k], TestCount(folds), p)
  {
    seq(numPC, k requires 0 <= k < numPC => StackedBlocks(X, p, folds, xstand, extract, numPC, sqrt, k))
  }

  /** One entry of `CvPredictions`. */
  function StackedBlocks(X: Matrix, p: nat, folds: seq<Fold>, xstand: bool, extract: Matrix -> Vector, numPC: nat, sqrt: real -> real, k: nat)
    : (S: Matrix)
    requires FoldsFit(X, p, folds, xstand) && IsSqrt(sqrt) && LoadingsFit(extract, p) && k < numPC
    ensures IsMatrix(S, TestCount(folds), p)
  {
    var blocks := FoldBlocks(X, p, folds, xstand, extract, numPC, sqrt, k);
    StackRows(blocks, p);
    BlockRows(blocks, folds, |folds|);
    assert blocks[..|folds|] == blocks && folds[..|folds|] == folds;
    Stack(blocks)
  }

  /** Entry `k` of `CvPredictions` stacks the segment predictions with
      `k + 1` components. */
  lemma StackedBlocksAre(X: Matrix, p: nat, folds: seq<Fold>, xstand: bool, extract: Matrix -> Vector, numPC: nat,
                         sqrt: real -> real, k: nat, blocks: seq<Matrix>, all: seq<Matrix>)
    requires FoldsFit(X, p, folds, xstand) && IsSqrt(sqrt) && LoadingsFit(extract, p) && k < numPC
    requires blocks == FoldBlocks(X, p, folds, xstand, extract, numPC, sqrt, k)
    requires all == CvPredictions(X, p, folds, xstand, extract, numPC, sqrt)
    ensures |all| == numPC && all[k] == Stack(blocks)
  {
    assert all[k] == StackedBlocks(X, p, folds, xstand, extract, numPC, sqrt, k);
  }

  /** The prediction of test row `i` of a segment depends on the input only
      through the training rows of that segment and the test row itself:
      no other row, and in particular no other test row, leaks into it. */
  lemma FoldRowUsesTrainAndOwnRow(X1: Matrix, X2: Matrix, p: nat, f: Fold, xstand: bool, extract: Matrix -> Vector,
                                  numPC: nat, sqrt: real -> real, k: nat, i: nat)
    requires FoldFits(X1, p, f, xstand) && FoldFits(X2, p, f, xstand) && IsSqrt(sqrt) && LoadingsFit(extract, p)
    requires k < numPC && i < |f.test|
    requires Rows(X1, f.train, p) == Rows(X2, f.train, p) && X1[f.test[i]] == X2[f.test[i]]
    ensures FoldPredictions(X1, p, f, xstand, extract, numPC, sqrt)[k][i]
         == FoldPredictions(X2, p, f, xstand, extract, numPC, sqrt)[k][i]
  {
    var par := FoldParams(X1, p, f, xstand, sqrt);
    var P := FoldLoadings(X1, p, f, xstand, extract, numPC, sqrt);
    var Z1 := Apply(Rows(X1, f.test, p), par, p);
    var Z2 := Apply(Rows(X2, f.test, p), par, p);
    assert Z1[i] == Z2[i];
    PredictionRowAgrees(Z1, Z2, P, p, par, k, i);
  }

  /** Row `i` of the predictions of preprocessed test rows depends only on
      row `i` of those rows. */
  lemma PredictionRowAgrees(Z1: Matrix, Z2: Matrix, P: seq<Vector>, p: nat, par: Params, k: nat, i: nat)
    requires Rect(Z1, p) && Rect(Z2, p) && |Z1| == |Z2| && i < |Z1| && Z1[i] == Z2[i]
    requires (forall j :: 0 <= j < |P| ==> |P[j]| == p) && k < |P| && Usable(par, p)
    ensures Predictions(ProjectedScores(Z1, P, p), P, |Z1|, p, par)[k][i]
         == Predictions(ProjectedScores(Z2, P, p), P, |Z2|, p, par)[k][i]
  {
    var n := |Z1|;
    var T1 := ProjectedScores(Z1, P, p);
    var T2 := ProjectedScores(Z2, P, p);
    var B1 := TruncatedProduct(T1, P, k + 1, n, p);
    var B2 := TruncatedProduct(T2, P, k + 1, n, p);
    TruncatedRowAgrees(T1, T2, P, k + 1, n, p, i);
    RestoredRowAgrees(B1, B2, par, p, i);
    assert Predictions(T1, P, n, p, par)[k] == Restore(B1, par, p);
    assert Predictions(T2, P, n, p, par)[k] == Restore(B2, par, p);
  }

  /** Restoring the units of a row depends on that row alone. */
  lemma RestoredRowAgrees(M1: Matrix, M2: Matrix, par: Params, p: nat, i: nat)
    requires Rect(M1, p) && Rect(M2, p) && Usable(par, p) && i < |M1| && i < |M2| && M1[i] == M2[i]
    ensures Restore(M1, par, p)[i] == Restore(M2, par, p)[i]
  {
  }

  /** Row `i` of the product of the first `k` score and loading columns
      depends only on row `i` of those scores. */
  lemma TruncatedRowAgrees(T1: seq<Vector>, T2: seq<Vector>, P: seq<Vector>, k: nat, n: nat, p: nat, i: nat)
    requires k <= |T1| && k <= |T2| && k <= |P| && i < n
    requires (forall j :: 0 <= j < |T1| ==> |T1[j]| == n) && (forall j :: 0 <= j < |T2| ==> |T2[j]| == n)
    requires forall j :: 0 <= j < |P| ==> |P[j]| == p
    requires forall j :: 0 <= j < k ==> T1[j][i] == T2[j][i]
    ensures TruncatedProduct(T1, P, k, n, p)[i] == TruncatedProduct(T2, P, k, n, p)[i]
  {
    var H1 := HStack(T1[..k], n);
    var H2 := HStack(T2[..k], n);
    assert H1[i] == H2[i];
  }

  /** The stacked prediction of test row `i` of segment `b` is the
      prediction the model of segment `b` makes for that row. */
  lemma StackedRowIsFoldRow(X: Matrix, p: nat, folds: seq<Fold>, xstand: bool, extract: Matrix -> Vector,
                            numPC: nat, sqrt: real -> real, k: nat, b: nat, i: nat,
                            stacked: seq<Matrix>, own: seq<Matrix>)
    requires FoldsFit(X, p, folds, xstand) && IsSqrt(sqrt) && LoadingsFit(extract, p)
    requires k < numPC && b < |folds| && i < |folds[b].test|
    requires stacked == CvPredictions(X, p, folds, xstand, extract, numPC, sqrt)
    requires own == FoldPredictions(X, p, folds[b], xstand, extract, numPC, sqrt)
    ensures TestCount(folds[..b]) + i < TestCount(folds) && |stacked| == numPC && |own| == numPC
    ensures |stacked[k]| == TestCount(folds) && i < |own[k]|
    ensures stacked[k][TestCount(folds[..b]) + i] == own[k][i]
  {
    var blocks := FoldBlocks(X, p, folds, xstand, extract, numPC, sqrt, k);
    StackedEntry(blocks, folds, p, b, i);
    assert stacked[k] == Stack(blocks);
  }

  /** Row `i` of block `b` sits in the stack after the test rows of the
      earlier segments. */
  lemma StackedEntry(blocks: seq<Matrix>, folds: seq<Fold>, p: nat, b: nat, i: nat)
    requires |blocks| == |folds|
    requires forall b' :: 0 <= b' < |folds| ==> |blocks[b']| == |folds[b'].test| && Rect(blocks[b'], p)
    requires b < |folds| && i < |folds[b].test|
    ensures |Stack(blocks)| == TestCount(folds)
    ensures TestCount(folds[..b]) + i < |Stack(blocks)|
    ensures Stack(blocks)[TestCount(folds[..b]) + i] == blocks[b][i]
  {
    StackRows(blocks, p);
    BlockRows(blocks, folds, |folds|);
    assert blocks[..|folds|] == blocks && folds[..|folds|] == folds;
    BlockRows(blocks, folds, b);
    StackIndex(blocks, p, b, i);
  }

  /** The test indices of the segments, in segment order: the input row
      each row of the stacked predictions was predicted for. */
  function TestOrder(folds: seq<Fold>): (order: seq<nat>)
    ensures |order| == TestCount(folds)
  {
    if |folds| == 0 then [] else TestOrder(folds[..|folds| - 1]) + folds[|folds| - 1].test
  }

  /** Test index `i` of segment `b` sits in `TestOrder` after the test
      indices of the earlier segments, as its prediction does in the stack. */
  lemma {:induction false} TestOrderIndex(folds: seq<Fold>, m: nat, b: nat, i: nat)
    requires b < m <= |folds| && i < |folds[b].test|
    ensures TestCount(folds[..b]) + i < |TestOrder(folds[..m])|
    ensures TestOrder(folds[..m])[TestCount(folds[..b]) + i] == folds[b].test[i]
  {
    assert folds[..m][..m - 1] == folds[..m - 1];
    if b < m - 1 {
      TestOrderIndex(folds, m - 1, b, i);
    } else {
      assert |TestOrder(folds[..b])| == TestCount(folds[..b]);
    }
  }

  /** Row `r` of the stacked predictions stands for input row `r`. */
  predicate InInputOrder(order: seq<nat>, n: nat)
  {
    |order| == n && forall r :: 0 <= r < n ==> order[r] == r
  }

  /** When the test indices, segment after segment, run through the input
      rows in order (contiguous K-fold segments, leave-one-out), the stacked
      row that the validated PRESS compares with input row `r` is the
      prediction of row `r` by the segment that holds it out. */
  lemma StackedRowsInInputOrder(X: Matrix, p: nat, folds: seq<Fold>, xstand: bool, extract: Matrix -> Vector,
                                numPC: nat, sqrt: real -> real, k: nat, b: nat, i: nat,
                                stacked: seq<Matrix>, own: seq<Matrix>)
    requires FoldsFit(X, p, folds, xstand) && IsSqrt(sqrt) && LoadingsFit(extract, p)
    requires k < numPC && b < |folds| && i < |folds[b].test|
    requires InInputOrder(TestOrder(folds), |X|)
    requires stacked == CvPredictions(X, p, folds, xstand, extract, numPC, sqrt)
    requires own == FoldPredictions(X, p, folds[b], xstand, extract, numPC, sqrt)
    ensures |stacked| == numPC && |own| == numPC && i < |own[k]|
    ensures |stacked[k]| == |X| && folds[b].test[i] < |stacked[k]|
    ensures stacked[k][folds[b].test[i]] == own[k][i]
  {
    StackedRowIsFoldRow(X, p, folds, xstand, extract, numPC, sqrt, k, b, i, stacked, own);
    InOrderPosition(folds, |X|, b, i);
  }

  /** In input order, test index `i` of segment `b` is its own position in
      the stack. */
  lemma InOrderPosition(folds: seq<Fold>, n: nat, b: nat, i: nat)
    requires b < |folds| && i < |folds[b].test| && InInputOrder(TestOrder(folds), n)
    ensures folds[b].test[i] == TestCount(folds[..b]) + i
  {
    var j := TestCount(folds[..b]) + i;
    TestOrderIndex(folds, |folds|, b, i);
    assert folds[..|folds|] == folds;
    assert folds[b].test[i] == TestOrder(folds)[j] == j;
  }

  /** Segments whose test indices interleave break that pairing: with
      leave-one-label-out on the labels `[1, 2, 1, 2]` the segments test rows
      `[0, 2]` and then `[1, 3]`, so the stacked row compared with input row 1
      is the first segment's prediction of input row 2. */
  lemma LeaveOneLabelOutMisaligned(X: Matrix, p: nat, folds: seq<Fold>, xstand: bool, extract: Matrix -> Vector,
                                   numPC: nat, sqrt: real -> real, k: nat, stacked: seq<Matrix>, own: seq<Matrix>)
    requires |X| == 4 && folds == [Fold([1, 3], [0, 2]), Fold([0, 2], [1, 3])]
    requires FoldsFit(X, p, folds, xstand) && IsSqrt(sqrt) && LoadingsFit(extract, p) && k < numPC
    requires stacked == CvPredictions(X, p, folds, xstand, extract, numPC, sqrt)
    requires own == FoldPredictions(X, p, folds[0], xstand, extract, numPC, sqrt)
    ensures TestOrder(folds) == [0, 2, 1, 3] && !InInputOrder(TestOrder(folds), |X|)
    ensures |stacked| == numPC && |own| == numPC && |stacked[k]| == 4 && |own[k]| == 2
    ensures folds[0].test[1] == 2 && stacked[k][1] == own[k][1]
  {
    InterleavedTestOrder(folds);
    StackedRowIsFoldRow(X, p, folds, xstand, extract, numPC, sqrt, k, 0, 1, stacked, own);
  }

  /** The test order of the two leave-one-label-out segments above. */
  lemma InterleavedTestOrder(folds: seq<Fold>)
    requires folds == [Fold([1, 3], [0, 2]), Fold([0, 2], [1, 3])]
    ensures TestOrder(folds) == [0, 2, 1, 3] && TestCount(folds[..0]) == 0
    ensures !InInputOrder(TestOrder(folds), 4)
  {
    assert folds[..1][..0] == [] && folds[..2 - 1] == folds[..1];
    assert TestOrder(folds[..1]) == [0, 2];
    assert TestOrder(folds) == [0, 2] + [1, 3];
    assert TestOrder(folds)[1] != 1;
  }

  /** `order` names every row below `n` exactly once. */
  predicate Permutes(order: seq<nat>, n: nat)
  {
    |order| == n
    && (forall j :: 0 <= j < n ==> order[j] < n)
    && (forall j, j' :: 0 <= j < j' < n ==> order[j] != order[j'])
    && (forall r :: 0 <= r < n ==> r in order)
  }

  /** The first position of `r` in `order`. */
  function IndexOf(order: seq<nat>, r: nat): (j: nat)
    requires r in order
    ensures j < |order| && order[j] == r
    ensures forall j' :: 0 <= j' < j ==> order[j'] != r
  {
    if order[0] == r then 0 else 1 + IndexOf(order[1..], r)
  }

  /** The rows of `S`, one per entry of `order`, moved so that the row for
      input row `order[j]` stands at position `order[j]`. */
  function ByInput(S: Matrix, order: seq<nat>, n: nat): (R: Matrix)
    requires Permutes(order, n) && |S| == n
    ensures |R| == n
    ensures forall j :: 0 <= j < n ==> R[order[j]] == S[j]
  {
    seq(n, r requires 0 <= r < n => S[IndexOf(order, r)])
  }

  /** The stacked predictions of lines 460-473 put back into input order,
      which the validated PRESS at lines 499-501 evidently means to compare
      with the input. */
  function CvPredictionsByInput(X: Matrix, p: nat, folds: seq<Fold>, xstand: bool, extract: Matrix -> Vector,
                                numPC: nat, sqrt: real -> real)
    : (R: seq<Matrix>)
    requires FoldsFit(X, p, folds, xstand) && IsSqrt(sqrt) && LoadingsFit(extract, p)
    requires Permutes(TestOrder(folds), |X|)
    ensures |R| == numPC
    ensures forall k :: 0 <= k < numPC ==> IsMatrix(R[k], |X|, p)
  {
    var stacked := CvPredictions(X, p, folds, xstand, extract, numPC, sqrt);
    seq(numPC, k requires 0 <= k < numPC => ByInput(stacked[k], TestOrder(folds), |X|))
  }

  /** Whatever order the segments test the rows in, row `r` of the
      reordered predictions is the prediction of input row `r` by the
      segment that holds it out. */
  lemma ByInputRowIsOwnPrediction(X: Matrix, p: nat, folds: seq<Fold>, xstand: bool, extract: Matrix -> Vector,
                                  numPC: nat, sqrt: real -> real, k: nat, b: nat, i: nat, own: seq<Matrix>)
    requires FoldsFit(X, p, folds, xstand) && IsSqrt(sqrt) && LoadingsFit(extract, p)
    requires Permutes(TestOrder(folds), |X|)
    requires k < numPC && b < |folds| && i < |folds[b].test|
    requires own == FoldPredictions(X, p, folds[b], xstand, extract, numPC, sqrt)
    ensures |own| == numPC && i < |own[k]| && folds[b].test[i] < |X|
    ensures CvPredictionsByInput(X, p, folds, xstand, extract, numPC, sqrt)[k][folds[b].test[i]] == own[k][i]
  {
    var stacked := CvPredictions(X, p, folds, xstand, extract, numPC, sqrt);
    StackedRowIsFoldRow(X, p, folds, xstand, extract, numPC, sqrt, k, b, i, stacked, own);
    TestOrderIndex(folds, |folds|, b, i);
    assert folds[..|folds|] == folds;
  }

  /** In input order the reordering changes nothing: there the stack the
      source compares is already the corrected one. */
  lemma InOrderByInputUnchanged(X: Matrix, p: nat, folds: seq<Fold>, xstand: bool, extract: Matrix -> Vector,
                                numPC: nat, sqrt: real -> real)
    requires FoldsFit(X, p, folds, xstand) && IsSqrt(sqrt) && LoadingsFit(extract, p)
    requires InInputOrder(TestOrder(folds), |X|)
    ensures Permutes(TestOrder(folds), |X|)
    ensures CvPredictionsByInput(X, p, folds, xstand, extract, numPC, sqrt)
         == CvPredictions(X, p, folds, xstand, extract, numPC, sqrt)
  {
    var order, n := TestOrder(folds), |X|;
    forall r | 0 <= r < n ensures r in order {
      assert order[r] == r;
    }
    var R := CvPredictionsByInput(X, p, folds, xstand, extract, numPC, sqrt);
    var stacked := CvPredictions(X, p, folds, xstand, extract, numPC, sqrt);
    forall k | 0 <= k < numPC ensures R[k] == stacked[k] {
      assert forall r :: 0 <= r < n ==> R[k][order[r]] == stacked[k][r];
    }
  }

  /** On the leave-one-label-out segments above, the corrected stack pairs
      input row 1 with the second segment's prediction of it, where the
      source's stack holds the first segment's prediction of row 2. */
  lemma LeaveOneLabelOutByInput(X: Matrix, p: nat, folds: seq<Fold>, xstand: bool, extract: Matrix -> Vector,
                                numPC: nat, sqrt: real -> real, k: nat, own: seq<Matrix>)
    requires |X| == 4 && folds == [Fold([1, 3], [0, 2]), Fold([0, 2], [1, 3])]
    requires FoldsFit(X, p, folds, xstand) && IsSqrt(sqrt) && LoadingsFit(extract, p) && k < numPC
    requires own == FoldPredictions(X, p, folds[1], xstand, extract, numPC, sqrt)
    ensures Permutes(TestOrder(folds), |X|)
    ensures |own| == numPC && |own[k]| == 2 && folds[1].test[0] == 1
    ensures CvPredictionsByInput(X, p, folds, xstand, extract, numPC, sqrt)[k][1] == own[k][0]
  {
    InterleavedTestOrder(folds);
    var order := TestOrder(folds);
    assert order == [0, 2, 1, 3];
    assert order[0] == 0 && order[2] == 1 && order[1] == 2 && order[3] == 3;
    ByInputRowIsOwnPrediction(X, p, folds, xstand, extract, numPC, sqrt, k, 1, 0, own);
  }

  /** Cross-validation does not leak: the stacked prediction of test row `i`
      of segment `b` depends on the input only through that segment's
      training rows and that one row. */
  lemma CvPredictionUsesTrainAndOwnRow(X1: Matrix, X2: Matrix, p: nat, folds: seq<Fold>, xstand: bool,
                                       extract: Matrix -> Vector, numPC: nat, sqrt: real -> real, k: nat, b: nat, i: nat)
    requires FoldsFit(X1, p, folds, xstand) && FoldsFit(X2, p, folds, xstand) && IsSqrt(sqrt) && LoadingsFit(extract, p)
    requires k < numPC && b < |folds| && i < |folds[b].test|
    requires Rows(X1, folds[b].train, p) == Rows(X2, folds[b].train, p)
    requires X1[folds[b].test[i]] == X2[folds[b].test[i]]
    ensures TestCount(folds[..b]) + i < TestCount(folds)
    ensures CvPredictions(X1, p, folds, xstand, extract, numPC, sqrt)[k][TestCount(folds[..b]) + i]
         == CvPredictions(X2, p, folds, xstand, extract, numPC, sqrt)[k][TestCount(folds[..b]) + i]
  {
    StackedRowUsesTrainAndOwnRow(X1, X2, p, folds, xstand, extract, numPC, sqrt, k, b, i);
    assert CvPredictions(X1, p, folds, xstand, extract, numPC, sqrt)[k] == StackedBlocks(X1, p, folds, xstand, extract, numPC, sqrt, k);
    assert CvPredictions(X2, p, folds, xstand, extract, numPC, sqrt)[k] == StackedBlocks(X2, p, folds, xstand, extract, numPC, sqrt, k);
  }

  /** `CvPredictionUsesTrainAndOwnRow` for one number of components. */
  lemma StackedRowUsesTrainAndOwnRow(X1: Matrix, X2: Matrix, p: nat, folds: seq<Fold>, xstand: bool,
                                     extract: Matrix -> Vector, numPC: nat, sqrt: real -> real, k: nat, b: nat, i: nat)
    requires FoldsFit(X1, p, folds, xstand) && FoldsFit(X2, p, folds, xstand) && IsSqrt(sqrt) && LoadingsFit(extract, p)
    requires k < numPC && b < |folds| && i < |folds[b].test|
    requires Rows(X1, folds[b].train, p) == Rows(X2, folds[b].train, p)
    requires X1[folds[b].test[i]] == X2[folds[b].test[i]]
    ensures TestCount(folds[..b]) + i < TestCount(folds)
    ensures StackedBlocks(X1, p, folds, xstand, extract, numPC, sqrt, k)[TestCount(folds[..b]) + i]
         == StackedBlocks(X2, p, folds, xstand, extract, numPC, sqrt, k)[TestCount(folds[..b]) + i]
  {
    var blocks1 := FoldBlocks(X1, p, folds, xstand, extract, numPC, sqrt, k);
    var blocks2 := FoldBlocks(X2, p, folds, xstand, extract, numPC, sqrt, k);
    BlockRowUsesTrainAndOwnRow(X1, X2, p, folds, xstand, extract, numPC, sqrt, k, b, i);
    StackRowsAgree(blocks1, blocks2, p, b, i);
    BlockRows(blocks1, folds, b);
    var j := TestCount(folds[..b]) + i;
    assert Stack(blocks1)[j] == Stack(blocks2)[j];
    assert StackedBlocks(X1, p, folds, xstand, extract, numPC, sqrt, k) == Stack(blocks1);
    assert StackedBlocks(X2, p, folds, xstand, extract, numPC, sqrt, k) == Stack(blocks2);
  }

  /** `FoldRowUsesTrainAndOwnRow` inside the list of segment predictions. */
  lemma BlockRowUsesTrainAndOwnRow(X1: Matrix, X2: Matrix, p: nat, folds: seq<Fold>, xstand: bool,
                                   extract: Matrix -> Vector, numPC: nat, sqrt: real -> real, k: nat, b: nat, i: nat)
    requires FoldsFit(X1, p, folds, xstand) && FoldsFit(X2, p, folds, xstand) && IsSqrt(sqrt) && LoadingsFit(extract, p)
    requires k < numPC && b < |folds| && i < |folds[b].test|
    requires Rows(X1, folds[b].train, p) == Rows(X2, folds[b].train, p)
    requires X1[folds[b].test[i]] == X2[folds[b].test[i]]
    ensures FoldBlocks(X1, p, folds, xstand, extract, numPC, sqrt, k)[b][i]
         == FoldBlocks(X2, p, folds, xstand, extract, numPC, sqrt, k)[b][i]
  {
    FoldRowUsesTrainAndOwnRow(X1, X2, p, folds[b], xstand, extract, numPC, sqrt, k, i);
  }

  // ---------------------------------------------------------------------------
  // Validated PRESS
  // ---------------------------------------------------------------------------

  /** `PRESSCV_0` (lines 492-494): `var(X)·n²/n`, with the sample variance
      (`ddof=1`) of the input. */
  function CvBaseline(Xin: Matrix, p: nat): (row: Vector)
    requires Rect(Xin, p) && |Xin| >= 2
    ensures |row| == p
  {
    var n := |Xin| as real;
    var v := SampleVariances(Xin, p);
    seq(p, c requires 0 <= c < p => SquareOverCount(v[c], n))
  }

  /** One entry of `PRESSCV_0`: `v·n²/n`. */
  function SquareOverCount(v: real, n: real): real
    requires n != 0.0
  {
    v * (n * n) / n
  }

  /** `v·n²/n` times `n - 1` is `n` times `v·(n - 1)`. */
  lemma ScaledVariance(v: real, n: real, s: real, b: real)
    requires 1.0 < n && v * (n - 1.0) == s && b == SquareOverCount(v, n)
    ensures b * (n - 1.0) == n * s
  {
    assert b * n == v * (n * n);
    assert b == v * n by {
      assert (b - v * n) * n == 0.0;
    }
  }

  /** Each entry of `cv` times `n - 1` is `n` times the matching entry of
      `e`. */
  predicate ScaledBaseline(cv: Vector, e: Vector, n: nat)
  {
    |cv| == |e| && forall c :: 0 <= c < |e| ==> cv[c] * (n - 1) as real == n as real * e[c]
  }

  /** `PRESSCV_0` is `n/(n - 1)` times `PRESSE_0`: the validated baseline is
      the calibrated one, scaled by `n/(n - 1)`. */
  lemma CvBaselineScalesPress(Xin: Matrix, p: nat)
    requires Rect(Xin, p) && |Xin| >= 2
    ensures ScaledBaseline(CvBaseline(Xin, p), PressBaseline(Xin, p), |Xin|)
  {
    var n := |Xin| as real;
    var v := SampleVariances(Xin, p);
    var cv := CvBaseline(Xin, p);
    var e := PressBaseline(Xin, p);
    forall c | 0 <= c < p ensures cv[c] * (|Xin| - 1) as real == n * e[c] {
      assert e[c] == ColumnSumSquares(Centre(Xin, p), p)[c];
      assert cv[c] == SquareOverCount(v[c], n);
      ScaledVariance(v[c], n, e[c], cv[c]);
    }
  }

  /** The validated baseline of a column is positive exactly when the
      column is not constant. */
  lemma CvBaselineSign(Xin: Matrix, p: nat)
    requires Rect(Xin, p) && |Xin| >= 2
    ensures forall c :: 0 <= c < p ==> 0.0 <= CvBaseline(Xin, p)[c]
    ensures forall c :: 0 <= c < p ==> (0.0 < CvBaseline(Xin, p)[c] <==> ColumnVaries(Xin, p, c))
  {
    CvBaselineScalesPress(Xin, p);
    var n := |Xin| as real;
    forall c | 0 <= c < p
      ensures 0.0 <= CvBaseline(Xin, p)[c]
      ensures 0.0 < CvBaseline(Xin, p)[c] <==> ColumnVaries(Xin, p, c)
    {
      var b := CvBaseline(Xin, p)[c];
      var e := PressBaseline(Xin, p)[c];
      SameSign(b, n - 1.0, n * e);
      SameSign(e, n, n * e);
      if ColumnVaries(Xin, p, c) {
        SpreadOfNonConstantColumn(Xin, p, c);
      } else {
        ConstantColumnHasNoSpread(Xin, p, c);
      }
    }
  }

  /** With `b·m == y` and `m > 0`, `b` has the sign of `y`. */
  lemma SameSign(b: real, m: real, y: real)
    requires 0.0 < m && b * m == y
    ensures 0.0 <= b <==> 0.0 <= y
    ensures 0.0 < b <==> 0.0 < y
  {
    if b < 0.0 {
      assert (0.0 - b) * m > 0.0;
    } else if b > 0.0 {
      assert b * m > 0.0;
    }
  }

  /** `PRESSCV_k` (lines 499-503): the centred input minus the centred
      stacked predictions, squared and summed per column. A single predicted
      row is broadcast over every input row; any other row count that
      differs from the input's is a shape error (`None`). */
  function CvPressRow(Xin: Matrix, Xhat: Matrix, p: nat): (row: Option<Vector>)
    requires Rect(Xin, p) && |Xin| >= 2 && Rect(Xhat, p)
    ensures row.Some? <==> |Xhat| == |Xin| || |Xhat| == 1
    ensures row.Some? ==> |row.value| == p && forall c :: 0 <= c < p ==> 0.0 <= row.value[c]
  {
    if |Xhat| == |Xin| then
      Some(PressRow(Xin, Xhat, p))
    else if |Xhat| == 1 then
      var C := Centre(Xhat, p);
      var D := Sub(Centre(Xin, p), seq(|Xin|, i => C[0]));
      ColumnSumSquaresNonNegative(D, p);
      Some(ColumnSumSquares(D, p))
    else
      None
  }

  /** A single predicted row centres to zero, so its broadcast PRESS is the
      baseline of the calibration: the prediction explains nothing. */
  lemma SinglePredictionIsBaseline(Xin: Matrix, Xhat: Matrix, p: nat)
    requires Rect(Xin, p) && |Xin| >= 2 && IsMatrix(Xhat, 1, p)
    ensures CvPressRow(Xin, Xhat, p) == Some(PressBaseline(Xin, p))
  {
    var C := Centre(Xhat, p);
    var m := ColumnMeans(Xhat, p);
    assert C == SubRow(Xhat, m);
    forall c | 0 <= c < p
      ensures C[0][c] == 0.0
    {
      var col := Column(Xhat, c);
      assert Sum(col) == SumTo(col, 0) + col[0];
    }
    var D := Sub(Centre(Xin, p), seq(|Xin|, i => C[0]));
    MatrixExt(D, Centre(Xin, p));
  }

  /** Every stacked prediction has as many rows as the input, or a single
      row that numpy broadcasts. */
  predicate Broadcastable(Xin: Matrix, stacked: seq<Matrix>)
  {
    forall k :: 0 <= k < |stacked| ==> |stacked[k]| == |Xin| || |stacked[k]| == 1
  }

  /** `PRESSCVarr_indVar_X` (line 507): the validated baseline, then one row
      per stacked prediction; `None` when a prediction has a row count numpy
      cannot broadcast against the input. */
  function CvPressTable(Xin: Matrix, stacked: seq<Matrix>, p: nat): (press: Option<Matrix>)
    requires Rect(Xin, p) && |Xin| >= 2
    requires forall k :: 0 <= k < |stacked| ==> Rect(stacked[k], p)
    ensures press.Some? <==> Broadcastable(Xin, stacked)
    ensures press.Some? ==> IsMatrix(press.value, |stacked| + 1, p) && NonNegative(press.value)
    ensures press.Some? ==> press.value[0] == CvBaseline(Xin, p)
  {
    if Broadcastable(Xin, stacked) then
      CvBaselineSign(Xin, p);
      Some([CvBaseline(Xin, p)] + seq(|stacked|, k requires 0 <= k < |stacked| => CvPressRow(Xin, stacked[k], p).value))
    else
      None
  }

  /** The dictionary `PRESSCVdict_indVar_X` of lines 489-503, filled under
      keys `0..numPC`; the loop stops at the first shape error. */
  method CvPressEntries(Xin: Matrix, stacked: seq<Matrix>, p: nat) returns (press: Option<Matrix>)
    requires Rect(Xin, p) && |Xin| >= 2
    requires forall k :: 0 <= k < |stacked| ==> Rect(stacked[k], p)
    ensures press == CvPressTable(Xin, stacked, p)
  {
    var dict: map<nat, Vector> := map[0 := CvBaseline(Xin, p)];
    for ind := 0 to |stacked|
      invariant forall k: nat :: k in dict <==> k <= ind
      invariant dict[0] == CvBaseline(Xin, p)
      invariant forall k :: 0 <= k < ind ==> CvPressRow(Xin, stacked[k], p).Some?
      invariant forall k :: 0 <= k < ind ==> dict[k + 1] == CvPressRow(Xin, stacked[k], p).value
    {
      var row := CvPressRow(Xin, stacked[ind], p);
      if row.None? {
        return None;
      }
      dict := dict[ind + 1 := row.value];
    }
    press := Some(seq(|stacked| + 1, k requires 0 <= k <= |stacked| => dict[k]));
    assert Broadcastable(Xin, stacked);
    assert press.value == CvPressTable(Xin, stacked, p).value;
  }

  /** The whole validated PRESS table. */
  function CvPress(Xin: Matrix, p: nat, folds: seq<Fold>, xstand: bool, extract: Matrix -> Vector, numPC: nat, sqrt: real -> real)
    : (press: Option<Matrix>)
    requires Rect(Xin, p) && |Xin| >= 2 && FoldsFit(Xin, p, folds, xstand) && IsSqrt(sqrt) && LoadingsFit(extract, p)
    ensures press.Some? ==> IsMatrix(press.value, numPC + 1, p) && NonNegative(press.value)
  {
    CvPressTable(Xin, CvPredictions(Xin, p, folds, xstand, extract, numPC, sqrt), p)
  }

  /** The validated PRESS table row by row: the baseline is `n/(n - 1)`
      times the calibrated one, and row `k` is the PRESS of the stacked
      predictions with `k` components. */
  lemma CvPressRows(Xin: Matrix, p: nat, folds: seq<Fold>, xstand: bool, extract: Matrix -> Vector, numPC: nat,
                    sqrt: real -> real, stacked: seq<Matrix>, press: Matrix)
    requires Rect(Xin, p) && |Xin| >= 2 && FoldsFit(Xin, p, folds, xstand) && IsSqrt(sqrt) && LoadingsFit(extract, p)
    requires stacked == CvPredictions(Xin, p, folds, xstand, extract, numPC, sqrt)
    requires CvPress(Xin, p, folds, xstand, extract, numPC, sqrt) == Some(press)
    ensures IsMatrix(press, numPC + 1, p) && NonNegative(press)
    ensures ScaledBaseline(press[0], PressBaseline(Xin, p), |Xin|)
    ensures forall k :: 1 <= k <= numPC ==> CvPressRow(Xin, stacked[k - 1], p) == Some(press[k])
  {
    CvBaselineScalesPress(Xin, p);
    assert press == CvPressTable(Xin, stacked, p).value;
    assert press[0] == CvBaseline(Xin, p);
  }

  /** With at least one component, the validated PRESS table exists
      exactly when the segments hold as many test rows as the input has rows
      (as leave-one-out and K-fold do), or a single test row, which numpy
      broadcasts. */
  lemma CvPressDefined(Xin: Matrix, p: nat, folds: seq<Fold>, xstand: bool, extract: Matrix -> Vector, numPC: nat, sqrt: real -> real)
    requires Rect(Xin, p) && |Xin| >= 2 && FoldsFit(Xin, p, folds, xstand) && IsSqrt(sqrt) && LoadingsFit(extract, p)
    requires numPC >= 1
    ensures CvPress(Xin, p, folds, xstand, extract, numPC, sqrt).Some?
        <==> TestCount(folds) == |Xin| || TestCount(folds) == 1
  {
    var stacked := CvPredictions(Xin, p, folds, xstand, extract, numPC, sqrt);
    assert |stacked[0]| == TestCount(folds);
  }

  /** The validated PRESS table of an input without constant columns can be
      summarised: every baseline entry is positive. */
  lemma CvSummarisable(Xin: Matrix, p: nat, folds: seq<Fold>, xstand: bool, extract: Matrix -> Vector, numPC: nat, sqrt: real -> real)
    requires Rect(Xin, p) && |Xin| >= 2 && FoldsFit(Xin, p, folds, xstand) && IsSqrt(sqrt) && LoadingsFit(extract, p)
    requires p > 0 && NoConstantColumn(Xin, p)
    requires CvPress(Xin, p, folds, xstand, extract, numPC, sqrt).Some?
    ensures Summarisable(CvPress(Xin, p, folds, xstand, extract, numPC, sqrt).value, p, |Xin|)
  {
    CvBaselineSign(Xin, p);
  }

  /** Adding a segment adds its predictions at the end of every list. */
  lemma FoldBlocksExtend(Xin: Matrix, p: nat, folds: seq<Fold>, xstand: bool, extract: Matrix -> Vector, numPC: nat,
                         sqrt: real -> real, k: nat, b: nat)
    requires FoldsFit(Xin, p, folds, xstand) && IsSqrt(sqrt) && LoadingsFit(extract, p) && k < numPC && b < |folds|
    ensures FoldsFit(Xin, p, folds[..b], xstand) && FoldsFit(Xin, p, folds[..b + 1], xstand)
    ensures FoldBlocks(Xin, p, folds[..b + 1], xstand, extract, numPC, sqrt, k)
         == FoldBlocks(Xin, p, folds[..b], xstand, extract, numPC, sqrt, k)
            + [FoldPredictions(Xin, p, folds[b], xstand, extract, numPC, sqrt)[k]]
  {
  }

  /** The body of the segment loop (lines 361-458): split, preprocess with
      the training parameters, decompose the training rows, project the
      test rows and predict them with 1, 2, ..., `numPC` components. */
  method SegmentPredictions(Xin: Matrix, p: nat, f: Fold, xstand: bool, extract: Matrix -> Vector, numPC: nat, sqrt: real -> real)
    returns (preds: seq<Matrix>)
    requires FoldFits(Xin, p, f, xstand) && IsSqrt(sqrt) && LoadingsFit(extract, p)
    ensures preds == FoldPredictions(Xin, p, f, xstand, extract, numPC, sqrt)
  {
    var xTrain := Rows(Xin, f.train, p);
    var xTest := Rows(Xin, f.test, p);
    var par := FitParams(xTrain, p, xstand, sqrt);
    var xTrainProc := Apply(xTrain, par, p);
    var xTestProc := Apply(xTest, par, p);
    var valT, valP, _ := Decompose(xTrainProc, p, numPC, extract);
    var projT := ProjectedScores(xTestProc, valP, p);
    preds := CumulativePredictions(projT, valP, |f.test|, p, par);
  }

  /** Lines 338-458: `valXpredDict`, with key `k` listing the predictions
      with `k` components of every segment, in segment order. */
  method CollectSegments(Xin: Matrix, p: nat, folds: seq<Fold>, xstand: bool, extract: Matrix -> Vector, numPC: nat, sqrt: real -> real)
    returns (valXpredDict: map<nat, seq<Matrix>>)
    requires FoldsFit(Xin, p, folds, xstand) && IsSqrt(sqrt) && LoadingsFit(extract, p)
    ensures forall k: nat :: k in valXpredDict <==> 1 <= k <= numPC
    ensures forall k :: 1 <= k <= numPC ==>
      valXpredDict[k] == FoldBlocks(Xin, p, folds, xstand, extract, numPC, sqrt, k - 1)
  {
    valXpredDict := map[];
    for ind := 1 to numPC + 1
      invariant forall k: nat :: k in valXpredDict <==> 1 <= k < ind
      invariant forall k :: 1 <= k < ind ==> valXpredDict[k] == []
    {
      valXpredDict := valXpredDict[ind := []];
    }
    for b := 0 to |folds|
      invariant FoldsFit(Xin, p, folds[..b], xstand)
      invariant forall k: nat :: k in valXpredDict <==> 1 <= k <= numPC
      invariant forall k :: 1 <= k <= numPC ==>
        valXpredDict[k] == FoldBlocks(Xin, p, folds[..b], xstand, extract, numPC, sqrt, k - 1)
    {
      var preds := SegmentPredictions(Xin, p, folds[b], xstand, extract, numPC, sqrt);
      for ind := 0 to numPC
        invariant forall k: nat :: k in valXpredDict <==> 1 <= k <= numPC
        invariant forall k :: 1 <= k <= ind ==>
          valXpredDict[k] == FoldBlocks(Xin, p, folds[..b + 1], xstand, extract, numPC, sqrt, k - 1)
        invariant forall k :: ind < k <= numPC ==>
          valXpredDict[k] == FoldBlocks(Xin, p, folds[..b], xstand, extract, numPC, sqrt, k - 1)
      {
        FoldBlocksExtend(Xin, p, folds, xstand, extract, numPC, sqrt, ind, b);
        valXpredDict := valXpredDict[ind + 1 := valXpredDict[ind + 1] + [preds[ind]]];
      }
    }
    assert folds[..|folds|] == folds;
  }

  /** Lines 460-473: every list of segment predictions stacked into one
      matrix. */
  method StackSegments(Xin: Matrix, p: nat, folds: seq<Fold>, xstand: bool, extract: Matrix -> Vector, numPC: nat, sqrt: real -> real,
                       valXpredDict: map<nat, seq<Matrix>>)
    returns (stacked: seq<Matrix>)
    requires FoldsFit(Xin, p, folds, xstand) && IsSqrt(sqrt) && LoadingsFit(extract, p)
    requires forall k :: 1 <= k <= numPC ==>
      k in valXpredDict && valXpredDict[k] == FoldBlocks(Xin, p, folds, xstand, extract, numPC, sqrt, k - 1)
    ensures stacked == CvPredictions(Xin, p, folds, xstand, extract, numPC, sqrt)
  {
    ghost var all := CvPredictions(Xin, p, folds, xstand, extract, numPC, sqrt);
    stacked := [];
    for ind := 1 to numPC + 1
      invariant stacked == all[..ind - 1]
    {
      var blocks := valXpredDict[ind];
      StackedBlocksAre(Xin, p, folds, xstand, extract, numPC, sqrt, ind - 1, blocks, all);
      var S := Stack(blocks);
      PrefixGrows(all, ind, S);
      stacked := stacked + [S];
    }
    assert all[..numPC] == all;
  }

  /** The prefix of `all` up to `ind` extends the one before by its entry. */
  lemma PrefixGrows(all: seq<Matrix>, ind: nat, S: Matrix)
    requires 1 <= ind <= |all| && all[ind - 1] == S
    ensures all[..ind] == all[..ind - 1] + [S]
  {
  }

  /** Lines 318-506: the segment loop, the stacking, and the validated PRESS
      table. */
  method CrossValidate(Xin: Matrix, p: nat, folds: seq<Fold>, xstand: bool, extract: Matrix -> Vector, numPC: nat, sqrt: real -> real)
    returns (stacked: seq<Matrix>, press: Option<Matrix>)
    requires Rect(Xin, p) && |Xin| >= 2 && FoldsFit(Xin, p, folds, xstand) && IsSqrt(sqrt) && LoadingsFit(extract, p)
    ensures stacked == CvPredictions(Xin, p, folds, xstand, extract, numPC, sqrt)
    ensures press == CvPress(Xin, p, folds, xstand, extract, numPC, sqrt)
  {
    var valXpredDict := CollectSegments(Xin, p, folds, xstand, extract, numPC, sqrt);
    stacked := StackSegments(Xin, p, folds, xstand, extract, numPC, sqrt, valXpredDict);
    press := CvPressEntries(Xin, stacked, p);
  }
}
