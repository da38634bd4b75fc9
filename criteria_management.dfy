/**
 * The client's pairwise-comparison editor and weight check
 * (src/components/CriteriaManagement.tsx). The component keeps a 5-by-5
 * matrix over its five fixed criteria, updates it reciprocally, and derives
 * weights, λ, CI, CR and a consistent/inconsistent verdict.
 *
 * Its formulas differ from the server's: the normalisation divides row i by
 * the sum of column i, and λ is Σ (M·w)[i]·w[i]. Both are modelled as written
 * (`ClientNormalize`, `ClientLambda`); `CorrectedCalculateWeights` uses column
 * normalisation and λmax = (1/n)·Σ (M·w)[i]/w[i] instead.
 */
module CriteriaManagement {
  import opened Matrices

  /** Akademik, Perilaku, Prestasi, Kepemimpinan, Kehadiran. */
  const CriteriaCount: nat := 5

  /** Saaty's random consistency index for n = 1..9. */
  const RandomIndexTable: seq<real> := [0.0, 0.0, 0.52, 0.89, 1.11, 1.25, 1.35, 1.40, 1.45]

  /** The table entry at n - 1: zero below three criteria, positive from three on. */
  function RandomIndex(n: nat): (ri: real)
    requires 1 <= n <= |RandomIndexTable|
    ensures n <= 2 <==> ri == 0.0
    ensures ri >= 0.0
  {
    RandomIndexTable[n - 1]
  }

  /** What `calculateWeights` hands back, together with the verdict it announces. */
  datatype WeightReport = WeightReport(weights: seq<real>, cr: real, consistent: bool)

  // ---------------------------------------------------------------------------
  // Component state (lines 24-26, 48-53)
  // ---------------------------------------------------------------------------

  class CriteriaManager {
    /** `pairwiseMatrix`. */
    var pairwiseMatrix: Matrix

    /** The matrix is 5-by-5, positive and reciprocal off the diagonal. */
    predicate Valid()
      reads this
    {
      |pairwiseMatrix| == CriteriaCount && IsPositive(pairwiseMatrix) && ReciprocalOffDiagonal(pairwiseMatrix)
    }

    /** Lines 24-26: every entry starts at 1. */
    constructor()
      ensures pairwiseMatrix == Ones(CriteriaCount)
      ensures Valid() && UnitDiagonal(pairwiseMatrix)
    {
      pairwiseMatrix := Ones(CriteriaCount);
      OnesIsReciprocal(CriteriaCount);
    }

    /**
     * Lines 48-53: `newMatrix[i][j] = value` then `newMatrix[j][i] = 1 / value`.
     * A positive value keeps the matrix valid; off the diagonal (the table
     * only offers cells with i < j) the diagonal stays 1.
     */
    method UpdateMatrix(i: nat, j: nat, value: real)
      requires Valid() && i < CriteriaCount && j < CriteriaCount && value > 0.0
      modifies this
      ensures pairwiseMatrix == SetPair(old(pairwiseMatrix), i, j, value)
      ensures Valid()
      ensures i != j && UnitDiagonal(old(pairwiseMatrix)) ==> UnitDiagonal(pairwiseMatrix)
    {
      var newMatrix := pairwiseMatrix;
      newMatrix := newMatrix[i := newMatrix[i][j := value]];
      newMatrix := newMatrix[j := newMatrix[j][i := 1.0 / value]];
      SetPairKeepsReciprocal(pairwiseMatrix, i, j, value);
      if i != j && UnitDiagonal(pairwiseMatrix) {
        SetPairKeepsUnitDiagonal(pairwiseMatrix, i, j, value);
      }
      pairwiseMatrix := newMatrix;
    }
  }

  // ---------------------------------------------------------------------------
  // `calculateWeights` as written (lines 55-96)
  // ---------------------------------------------------------------------------

  /** Lines 57-60: every entry of row i divided by the sum of column i. */
  function ClientNormalize(m: Matrix): (nm: Matrix)
    requires IsPositive(m)
    ensures |nm| == |m| && IsSquare(nm)
    ensures forall j :: 0 <= j < |m| ==> ColSum(m, j) > 0.0
    ensures forall i, j :: 0 <= i < |m| && 0 <= j < |m| ==> nm[i][j] == m[i][j] / ColSum(m, i)
  {
    AllColSumsPositive(m);
    seq(|m|, i requires 0 <= i < |m| => seq(|m|, j requires 0 <= j < |m| => m[i][j] / ColSum(m, i)))
  }

  /** Lines 63-65: the average of each row of `ClientNormalize(m)`. */
  function ClientWeights(m: Matrix): (w: seq<real>)
    requires IsPositive(m)
    ensures |w| == |m|
    ensures forall i :: 0 <= i < |m| ==> w[i] == Sum(ClientNormalize(m)[i]) / |m| as real
  {
    var nm := ClientNormalize(m);
    seq(|m|, i requires 0 <= i < |m| => Sum(nm[i]) / |m| as real)
  }

  /** The entrywise products a[k]·b[k]. */
  function Products(a: seq<real>, b: seq<real>): (p: seq<real>)
    requires |a| == |b|
    ensures |p| == |a| && forall k :: 0 <= k < |a| ==> p[k] == a[k] * b[k]
  {
    seq(|a|, k requires 0 <= k < |a| => a[k] * b[k])
  }

  /** (M·w)[i] = Σⱼ M[i][j]·w[j], the inner `reduce` of lines 68-71. */
  function WeightedSums(m: Matrix, w: seq<real>): (ws: seq<real>)
    requires IsSquare(m) && |w| == |m|
    ensures |ws| == |m| && forall i :: 0 <= i < |m| ==> ws[i] == Sum(Products(m[i], w))
  {
    seq(|m|, i requires 0 <= i < |m| => Sum(Products(m[i], w)))
  }

  /**
   * Lines 68-71: λ = Σᵢ (M·w)[i]·w[i]. For a positive matrix and positive
   * weights it is positive.
   */
  function ClientLambda(m: Matrix, w: seq<real>): (eigen: real)
    requires IsSquare(m) && |w| == |m|
    ensures IsPositive(m) && |m| > 0 && AllPositive(w) ==> eigen > 0.0
  {
    ClientLambdaPositive(m, w);
    Sum(Products(WeightedSums(m, w), w))
  }

  predicate AllPositive(s: seq<real>)
  {
    forall k :: 0 <= k < |s| ==> s[k] > 0.0
  }

  /** A product of two positive numbers is positive. */
  lemma PositiveProduct(x: real, y: real, p: real)
    requires x > 0.0 && y > 0.0 && p == x * y
    ensures p > 0.0
  {
  }

  /** The entrywise products of two positive vectors add up to a positive number. */
  lemma ProductsSumPositive(a: seq<real>, b: seq<real>)
    requires |a| == |b| > 0 && AllPositive(a) && AllPositive(b)
    ensures Sum(Products(a, b)) > 0.0
  {
    var p := Products(a, b);
    forall k | 0 <= k < |p|
      ensures p[k] > 0.0
    {
      PositiveProduct(a[k], b[k], p[k]);
    }
    SumPositive(p);
  }

  lemma ClientLambdaPositive(m: Matrix, w: seq<real>)
    requires IsSquare(m) && |w| == |m|
    ensures IsPositive(m) && |m| > 0 && AllPositive(w) ==> Sum(Products(WeightedSums(m, w), w)) > 0.0
  {
    if IsPositive(m) && |m| > 0 && AllPositive(w) {
      var ws := WeightedSums(m, w);
      forall i | 0 <= i < |m|
        ensures ws[i] > 0.0
      {
        assert AllPositive(m[i]);
        ProductsSumPositive(m[i], w);
      }
      assert AllPositive(ws);
      ProductsSumPositive(ws, w);
    }
  }

  /**
   * Line 73: CI = (λ - n) / (n - 1). It is zero exactly when λ = n and
   * negative exactly when λ < n.
   */
  function ConsistencyIndex(eigen: real, n: nat): (ci: real)
    requires n >= 2
    ensures ci == 0.0 <==> eigen == n as real
    ensures ci < 0.0 <==> eigen < n as real
  {
    SignOfQuotient(eigen - n as real, n as real - 1.0);
    (eigen - n as real) / (n as real - 1.0)
  }

  /** Dividing by a positive number keeps the sign. */
  lemma SignOfQuotient(x: real, d: real)
    requires d > 0.0
    ensures x / d == 0.0 <==> x == 0.0
    ensures x / d < 0.0 <==> x < 0.0
  {
    assert (x / d) * d == x;
  }

  /**
   * Lines 55-96: the weights, CR = CI / RI, and the verdict "consistent"
   * exactly when CR <= 0.1. Below three criteria RI is 0 and CR would divide
   * by zero, so three to nine criteria are required.
   */
  function CalculateWeights(m: Matrix): (r: WeightReport)
    requires IsPositive(m) && 3 <= |m| <= 9
    ensures |r.weights| == |m| && r.weights == ClientWeights(m)
    ensures r.cr == ClientRatio(m)
    ensures r.consistent <==> r.cr <= 0.1
  {
    WeightReport(ClientWeights(m), ClientRatio(m), ClientRatio(m) <= 0.1)
  }

  /** Lines 73-75: CR = CI / RI, with CI taken from the client's λ. */
  function ClientRatio(m: Matrix): real
    requires IsPositive(m) && 3 <= |m| <= 9
  {
    ConsistencyIndex(ClientLambda(m, ClientWeights(m)), |m|) / RandomIndex(|m|)
  }

  /**
   * Row i of the normalised matrix sums to the sum of row i over the sum of
   * column i, and weight i is that divided by n.
   */
  lemma ClientWeightIsRowOverColumn(m: Matrix, i: nat)
    requires IsPositive(m) && i < |m|
    ensures ColSum(m, i) > 0.0 && Sum(ClientNormalize(m)[i]) == Sum(m[i]) / ColSum(m, i)
    ensures ClientWeights(m)[i] == Sum(ClientNormalize(m)[i]) / |m| as real
  {
    var nm := ClientNormalize(m);
    SumScaled(m[i], nm[i], ColSum(m, i));
  }

  /** For the initial all-ones matrix every weight is 1/n. */
  lemma ClientWeightsOfOnes(n: nat)
    requires n > 0
    ensures forall i :: 0 <= i < n ==> ClientWeights(Ones(n))[i] == 1.0 / n as real
  {
    forall i | 0 <= i < n
      ensures ClientWeights(Ones(n))[i] == 1.0 / n as real
    {
      ClientWeightOfOnes(n, i);
    }
  }

  lemma ClientWeightOfOnes(n: nat, i: nat)
    requires i < n
    ensures ClientWeights(Ones(n))[i] == 1.0 / n as real
  {
    var m := Ones(n);
    SumOfOnes(m[i]);
    SumOfOnes(Column(m, i));
    ClientWeightIsRowOverColumn(m, i);
    EqualRatio(Sum(m[i]), ColSum(m, i), Sum(ClientNormalize(m)[i]), n as real, ClientWeights(m)[i]);
  }

  lemma EqualRatio(row: real, col: real, s: real, n: real, w: real)
    requires row == n && col == n && n > 0.0 && s == row / col && w == s / n
    ensures w == 1.0 / n
  {
    assert row / col == 1.0;
  }

  /**
   * The client's λ for the all-ones matrix is 1 rather than n, so CI is -1
   * where a consistent matrix should give 0.
   */
  lemma ClientLambdaOfOnes(n: nat)
    requires n >= 2
    ensures ClientLambda(Ones(n), ClientWeights(Ones(n))) == 1.0
    ensures ConsistencyIndex(ClientLambda(Ones(n), ClientWeights(Ones(n))), n) == -1.0
  {
    ClientWeightsOfOnes(n);
    UniformLambda(Ones(n), ClientWeights(Ones(n)), n);
    MinusOneIndex(n);
  }

  /** λ of an all-ones matrix against the uniform weights 1/n is 1. */
  lemma UniformLambda(m: Matrix, w: seq<real>, n: nat)
    requires |m| == n > 0 && IsSquare(m) && |w| == n
    requires forall i, j :: 0 <= i < n && 0 <= j < n ==> m[i][j] == 1.0
    requires forall j :: 0 <= j < n ==> w[j] == 1.0 / n as real
    ensures ClientLambda(m, w) == 1.0
  {
    var ws := WeightedSums(m, w);
    forall i | 0 <= i < n
      ensures Products(ws, w)[i] == 1.0 / n as real
    {
      UniformRowSum(m[i], w, n);
      ProductWithOne(ws, w, i, 1.0 / n as real);
    }
    SumOfReciprocals(Products(ws, w), n);
  }

  /** A row of ones against the uniform weights 1/n sums to 1. */
  lemma UniformRowSum(row: seq<real>, w: seq<real>, n: nat)
    requires |row| == |w| == n > 0
    requires forall j :: 0 <= j < n ==> row[j] == 1.0
    requires forall j :: 0 <= j < n ==> w[j] == 1.0 / n as real
    ensures Sum(Products(row, w)) == 1.0
  {
    forall j | 0 <= j < n
      ensures Products(row, w)[j] == 1.0 / n as real
    {
      ProductWithOne(row, w, j, 1.0 / n as real);
    }
    SumOfReciprocals(Products(row, w), n);
  }

  lemma MinusOneIndex(n: nat)
    requires n >= 2
    ensures ConsistencyIndex(1.0, n) == -1.0
  {
    var d := n as real - 1.0;
    assert d > 0.0;
    assert 1.0 - n as real == -d;
    assert (-d) / d == -1.0;
  }

  /** When a[k] is 1, the product a[k]·b[k] is b[k]. */
  lemma ProductWithOne(a: seq<real>, b: seq<real>, k: nat, v: real)
    requires |a| == |b| && k < |a| && a[k] == 1.0 && b[k] == v
    ensures Products(a, b)[k] == v
  {
  }

  /** n copies of 1/n add up to 1. */
  lemma SumOfReciprocals(s: seq<real>, n: nat)
    requires |s| == n > 0 && forall k :: 0 <= k < n ==> s[k] == 1.0 / n as real
    ensures Sum(s) == 1.0
  {
    SumConst(s, 1.0 / n as real);
  }

  /** With the five criteria the all-ones matrix is reported with CR = -1/1.11, not 0. */
  lemma ClientReportOfOnes()
    ensures CalculateWeights(Ones(CriteriaCount)).cr == -1.0 / 1.11
    ensures CalculateWeights(Ones(CriteriaCount)).consistent
  {
    ClientLambdaOfOnes(CriteriaCount);
    assert RandomIndex(CriteriaCount) == 1.11;
  }

  /** The component's matrix after `updateMatrix(0, 1, 2)` on the initial matrix. */
  function ExampleMatrix(): (m: Matrix)
    ensures |m| == CriteriaCount && IsPositive(m)
  {
    OnesIsReciprocal(CriteriaCount);
    SetPairKeepsReciprocal(Ones(CriteriaCount), 0, 1, 2.0);
    SetPair(Ones(CriteriaCount), 0, 1, 2.0)
  }

  /**
   * Dividing row i by column i's sum does not give a priority vector: after a
   * single comparison "criterion 1 is twice as important as criterion 2" the
   * five weights are 4/15, 3/20, 1/5, 1/5, 1/5 and sum to 61/60.
   */
  lemma ClientWeightsNeedNotSumToOne()
    ensures ClientWeights(ExampleMatrix()) == [4.0 / 15.0, 3.0 / 20.0, 0.2, 0.2, 0.2]
    ensures Sum(ClientWeights(ExampleMatrix())) == 61.0 / 60.0
  {
    var w := ClientWeights(ExampleMatrix());
    ExampleWeights();
    assert w == [4.0 / 15.0, 3.0 / 20.0, 0.2, 0.2, 0.2];
    SumOfFive(w);
  }

  lemma ExampleWeights()
    ensures ClientWeights(ExampleMatrix())[0] == 4.0 / 15.0
    ensures ClientWeights(ExampleMatrix())[1] == 3.0 / 20.0
    ensures forall i :: 2 <= i < 5 ==> ClientWeights(ExampleMatrix())[i] == 0.2
  {
    ExampleComparedWeights();
    forall i | 2 <= i < 5
      ensures ClientWeights(ExampleMatrix())[i] == 0.2
    {
      ExampleUncomparedWeight(i);
    }
  }

  /** Row 0 sums to 6 over a column sum of 4.5; row 1 to 4.5 over 6. */
  lemma ExampleComparedWeights()
    ensures ClientWeights(ExampleMatrix())[0] == 4.0 / 15.0
    ensures ClientWeights(ExampleMatrix())[1] == 3.0 / 20.0
  {
    ExampleFirstWeight();
    ExampleSecondWeight();
  }

  lemma ExampleFirstWeight()
    ensures ClientWeights(ExampleMatrix())[0] == 4.0 / 15.0
  {
    ExampleEntries();
    ExampleWeight(ExampleMatrix(), 0, 6.0, 4.5, 4.0 / 15.0);
  }

  lemma ExampleSecondWeight()
    ensures ClientWeights(ExampleMatrix())[1] == 3.0 / 20.0
  {
    ExampleEntries();
    ExampleWeight(ExampleMatrix(), 1, 4.5, 6.0, 3.0 / 20.0);
  }

  /** Rows and columns 2..4 are all ones. */
  lemma ExampleUncomparedWeight(i: nat)
    requires 2 <= i < 5
    ensures ClientWeights(ExampleMatrix())[i] == 0.2
  {
    ExampleEntries();
    ExampleWeight(ExampleMatrix(), i, 5.0, 5.0, 0.2);
  }

  /** Entry (0, 1) is 2, entry (1, 0) is 1/2, every other entry is 1. */
  lemma ExampleEntries()
    ensures forall a, b :: 0 <= a < 5 && 0 <= b < 5 ==>
      ExampleMatrix()[a][b] == (if a == 0 && b == 1 then 2.0 else if a == 1 && b == 0 then 0.5 else 1.0)
  {
  }

  /** Weight i of a 5-by-5 positive matrix whose row i sums to row and column i to col. */
  lemma ExampleWeight(m: Matrix, i: nat, row: real, col: real, v: real)
    requires IsPositive(m) && |m| == 5 && i < 5
    requires m[i][0] + m[i][1] + m[i][2] + m[i][3] + m[i][4] == row
    requires m[0][i] + m[1][i] + m[2][i] + m[3][i] + m[4][i] == col
    requires col > 0.0 && row == col * 5.0 * v
    ensures ClientWeights(m)[i] == v
  {
    ClientWeightIsRowOverColumn(m, i);
    SumOfFive(m[i]);
    SumOfFive(Column(m, i));
    RatioOfKnown(Sum(m[i]), ColSum(m, i), Sum(ClientNormalize(m)[i]), ClientWeights(m)[i], row, col, v);
  }

  lemma RatioOfKnown(a: real, b: real, s: real, w: real, row: real, col: real, v: real)
    requires a == row && b == col && col > 0.0 && s == a / b && w == s / 5.0 && row == col * 5.0 * v
    ensures w == v
  {
  }

  // ---------------------------------------------------------------------------
  // The intended calculation
  // ---------------------------------------------------------------------------

  /** The entrywise quotients a[k]/b[k]. */
  function Quotients(a: seq<real>, b: seq<real>): (q: seq<real>)
    requires |a| == |b| && forall k :: 0 <= k < |b| ==> b[k] != 0.0
    ensures |q| == |a| && forall k :: 0 <= k < |a| ==> q[k] == a[k] / b[k]
  {
    seq(|a|, k requires 0 <= k < |a| => a[k] / b[k])
  }

  /**
   * λmax = (1/n)·Σᵢ (M·w)[i] / w[i], the average ratio of (M·w)[i] to w[i].
   * For a positive matrix it is positive.
   */
  function LambdaMax(m: Matrix, w: seq<real>): (eigen: real)
    requires IsSquare(m) && |w| == |m| && |m| > 0
    requires forall i :: 0 <= i < |w| ==> w[i] > 0.0
    ensures IsPositive(m) ==> eigen > 0.0
  {
    LambdaMaxPositive(m, w);
    Sum(Quotients(WeightedSums(m, w), w)) / |m| as real
  }

  lemma LambdaMaxPositive(m: Matrix, w: seq<real>)
    requires IsSquare(m) && |w| == |m| && |m| > 0
    requires forall i :: 0 <= i < |w| ==> w[i] > 0.0
    ensures IsPositive(m) ==> Sum(Quotients(WeightedSums(m, w), w)) / |m| as real > 0.0
  {
    if IsPositive(m) {
      var ws := WeightedSums(m, w);
      var q := Quotients(ws, w);
      forall i | 0 <= i < |m|
        ensures q[i] > 0.0
      {
        assert AllPositive(m[i]);
        ProductsSumPositive(m[i], w);
        RatioOfPositives(ws[i], w[i]);
      }
      SumPositive(q);
      RatioOfPositives(Sum(q), |m| as real);
    }
  }

  /**
   * The calculation with column normalisation and λmax: its weights are a
   * priority vector (they sum to 1) and its verdict is CR <= 0.1.
   */
  function CorrectedCalculateWeights(m: Matrix): (r: WeightReport)
    requires IsPositive(m) && 3 <= |m| <= 9
    ensures r.weights == Weights(m)
    ensures Sum(r.weights) == 1.0
    ensures forall i :: 0 <= i < |m| ==> 0.0 < r.weights[i] < 1.0
    ensures r.cr == StandardRatio(m)
    ensures r.consistent <==> r.cr <= 0.1
  {
    WeightsSumToOne(m);
    WeightsArePriorities(m);
    WeightReport(Weights(m), StandardRatio(m), StandardRatio(m) <= 0.1)
  }

  /** CR = CI / RI, with CI taken from λmax of the column-normalised weights. */
  function StandardRatio(m: Matrix): real
    requires IsPositive(m) && 3 <= |m| <= 9
  {
    WeightsArePriorities(m);
    ConsistencyIndex(LambdaMax(m, Weights(m)), |m|) / RandomIndex(|m|)
  }

  /**
   * A perfectly consistent matrix (entry (i, j) = p[i]/p[j]) gets CR = 0 and
   * the verdict "consistent" from the corrected calculation.
   */
  lemma CorrectedReportOfConsistentMatrix(p: seq<real>)
    requires 3 <= |p| <= 9 && forall i :: 0 <= i < |p| ==> p[i] > 0.0
    ensures CorrectedCalculateWeights(RatioMatrix(p)).cr == 0.0
    ensures CorrectedCalculateWeights(RatioMatrix(p)).consistent
  {
    var m := RatioMatrix(p);
    ConsistentLambdaMax(p);
    CorrectedRatio(m);
    ZeroConsistencyRatio(LambdaMax(m, Weights(m)), |p|, RandomIndex(|p|), CorrectedCalculateWeights(m).cr);
  }

  /** CR is CI over the random index, with CI taken from λmax. */
  lemma CorrectedRatio(m: Matrix)
    requires IsPositive(m) && 3 <= |m| <= 9
    ensures forall i :: 0 <= i < |m| ==> Weights(m)[i] > 0.0
    ensures RandomIndex(|m|) > 0.0
    ensures CorrectedCalculateWeights(m).cr == ConsistencyIndex(LambdaMax(m, Weights(m)), |m|) / RandomIndex(|m|)
  {
    WeightsArePriorities(m);
  }

  /** For a perfectly consistent matrix λmax is exactly n. */
  lemma ConsistentLambdaMax(p: seq<real>)
    requires |p| > 0 && forall i :: 0 <= i < |p| ==> p[i] > 0.0
    ensures forall i :: 0 <= i < |p| ==> Weights(RatioMatrix(p))[i] > 0.0
    ensures LambdaMax(RatioMatrix(p), Weights(RatioMatrix(p))) == |p| as real
  {
    ConsistentQuotients(p);
    LambdaMaxOfEqualQuotients(RatioMatrix(p), Weights(RatioMatrix(p)), |p| as real);
  }

  /** When every (M·w)[i] / w[i] equals c, λmax is c. */
  lemma LambdaMaxOfEqualQuotients(m: Matrix, w: seq<real>, c: real)
    requires IsSquare(m) && |w| == |m| && |m| > 0
    requires forall i :: 0 <= i < |w| ==> w[i] > 0.0
    requires forall i :: 0 <= i < |m| ==> Quotients(WeightedSums(m, w), w)[i] == c
    ensures LambdaMax(m, w) == c
  {
    AverageOfConstant(Quotients(WeightedSums(m, w), w), c, |m|, LambdaMax(m, w));
  }

  /** λ = n gives CI = 0 and so CR = 0. */
  lemma ZeroConsistencyRatio(eigen: real, n: nat, ri: real, cr: real)
    requires n >= 2 && ri > 0.0 && eigen == n as real
    requires cr == ConsistencyIndex(eigen, n) / ri
    ensures cr == 0.0
  {
  }

  /** Every quotient (M·w)[i] / w[i] of a consistent matrix is n. */
  lemma ConsistentQuotients(p: seq<real>)
    requires |p| > 0 && forall i :: 0 <= i < |p| ==> p[i] > 0.0
    ensures forall i :: 0 <= i < |p| ==> Weights(RatioMatrix(p))[i] > 0.0
    ensures forall i :: 0 <= i < |p| ==>
      Quotients(WeightedSums(RatioMatrix(p), Weights(RatioMatrix(p))), Weights(RatioMatrix(p)))[i] == |p| as real
  {
    var m := RatioMatrix(p);
    var w := Weights(m);
    forall i | 0 <= i < |p|
      ensures w[i] > 0.0
    {
      ConsistentRowQuotient(p, i);
    }
    var q := Quotients(WeightedSums(m, w), w);
    forall i | 0 <= i < |p|
      ensures q[i] == |p| as real
    {
      ConsistentRowQuotient(p, i);
    }
  }

  /** For a consistent matrix, (M·w)[i] / w[i] = n. */
  lemma ConsistentRowQuotient(p: seq<real>, i: nat)
    requires forall k :: 0 <= k < |p| ==> p[k] > 0.0
    requires i < |p|
    ensures Weights(RatioMatrix(p))[i] > 0.0
    ensures WeightedSums(RatioMatrix(p), Weights(RatioMatrix(p)))[i] / Weights(RatioMatrix(p))[i] == |p| as real
  {
    RatioRowTerms(p, i);
    RatioWeight(p, i);
    RatioOfPositives(p[i], Sum(p));
    UniformRowQuotient(RatioMatrix(p), Weights(RatioMatrix(p)), i, p[i] / Sum(p));
  }

  /** When every term M[i][j]·w[j] of row i equals c = w[i] > 0, (M·w)[i] / w[i] = n. */
  lemma UniformRowQuotient(m: Matrix, w: seq<real>, i: nat, c: real)
    requires IsSquare(m) && |w| == |m| && i < |m|
    requires c > 0.0 && w[i] == c
    requires forall j :: 0 <= j < |m| ==> Products(m[i], w)[j] == c
    ensures w[i] > 0.0 && WeightedSums(m, w)[i] / w[i] == |m| as real
  {
    QuotientOfEqualTerms(Products(m[i], w), c, WeightedSums(m, w)[i], w[i]);
  }

  /** A sum of n terms all equal to c > 0, divided by c, is n. */
  lemma QuotientOfEqualTerms(s: seq<real>, c: real, total: real, share: real)
    requires forall k :: 0 <= k < |s| ==> s[k] == c
    requires c > 0.0 && share == c && total == Sum(s)
    ensures share > 0.0 && total / share == |s| as real
  {
    SumConst(s, c);
    ScaledOverShare(total, |s| as real, c);
  }

  lemma RatioRowTerms(p: seq<real>, i: nat)
    requires forall k :: 0 <= k < |p| ==> p[k] > 0.0
    requires i < |p|
    ensures Sum(p) > 0.0
    ensures forall j :: 0 <= j < |p| ==> Products(RatioMatrix(p)[i], Weights(RatioMatrix(p)))[j] == p[i] / Sum(p)
  {
    SumPositive(p);
    forall j | 0 <= j < |p|
      ensures Products(RatioMatrix(p)[i], Weights(RatioMatrix(p)))[j] == p[i] / Sum(p)
    {
      RatioRowTerm(p, i, j);
    }
  }

  /** (p[i]/p[j]) · (p[j]/Σp) = p[i]/Σp. */
  lemma RatioRowTerm(p: seq<real>, i: nat, j: nat)
    requires forall k :: 0 <= k < |p| ==> p[k] > 0.0
    requires i < |p| && j < |p|
    ensures Sum(p) > 0.0
    ensures Products(RatioMatrix(p)[i], Weights(RatioMatrix(p)))[j] == p[i] / Sum(p)
  {
    var m := RatioMatrix(p);
    RatioWeight(p, j);
    RatioTimesShare(m[i], Weights(m), j, p[i], p[j], Sum(p));
  }

  /** When a[k] = x/y and b[k] = y/total, the product a[k]·b[k] is x/total. */
  lemma RatioTimesShare(a: seq<real>, b: seq<real>, k: nat, x: real, y: real, total: real)
    requires |a| == |b| && k < |a|
    requires x > 0.0 && y > 0.0 && total > 0.0
    requires a[k] == x / y && b[k] == y / total
    ensures Products(a, b)[k] == x / total
  {
  }

  lemma RatioOfPositives(a: real, b: real)
    requires a > 0.0 && b > 0.0
    ensures a / b > 0.0
  {
  }

  lemma ScaledOverShare(x: real, n: real, share: real)
    requires share > 0.0 && x == n * share
    ensures x / share == n
  {
  }
}
