/**
 * Real-valued sums and square matrices shared by the AHP weight calculations.
 *
 * `Sum` accumulates left to right, exactly as the source's `for` loops and
 * `reduce` calls do.  `Normalize` and `Weights` are the column-normalisation /
 * row-average priority vector of the server copy (calculate-ahp/index.ts);
 * the lemmas here are the arithmetic facts every copy of the weight engine
 * relies on.
 */
module Matrices {

  type Matrix = seq<seq<real>>

  // ---------------------------------------------------------------------------
  // Sums
  // ---------------------------------------------------------------------------

  /** Left-to-right sum of a sequence of reals. */
  function Sum(s: seq<real>): real
  {
    if |s| == 0 then 0.0 else Sum(s[..|s| - 1]) + s[|s| - 1]
  }

  /** A running total of s[..k] plus the next element is the total of s[..k + 1]. */
  lemma SumPrefixStep(s: seq<real>, k: nat, total: real, next: real)
    requires k < |s| && total == Sum(s[..k]) && next == s[k]
    ensures total + next == Sum(s[..k + 1])
  {
    assert s[..k + 1][..k] == s[..k];
  }

  /** Dividing every element by c divides the sum by c. */
  lemma {:induction false} SumScaled(s: seq<real>, t: seq<real>, c: real)
    requires c != 0.0
    requires |t| == |s|
    requires forall i :: 0 <= i < |s| ==> t[i] == s[i] / c
    ensures Sum(t) == Sum(s) / c
  {
    if |s| > 0 {
      var k := |s| - 1;
      SumScaled(s[..k], t[..k], c);
      calc {
        Sum(t);
        Sum(t[..k]) + t[k];
        Sum(s[..k]) / c + s[k] / c;
        (Sum(s[..k]) + s[k]) / c;
        Sum(s) / c;
      }
    }
  }

  /** A sequence of n copies of c sums to n * c. */
  lemma {:induction false} SumConst(s: seq<real>, c: real)
    requires forall i :: 0 <= i < |s| ==> s[i] == c
    ensures Sum(s) == |s| as real * c
  {
    if |s| > 0 {
      SumConst(s[..|s| - 1], c);
    }
  }

  /** n ones add up to n. */
  lemma SumOfOnes(s: seq<real>)
    requires forall k :: 0 <= k < |s| ==> s[k] == 1.0
    ensures Sum(s) == |s| as real
  {
    SumConst(s, 1.0);
  }

  /** A five-element sum written out. */
  lemma SumOfFive(s: seq<real>)
    requires |s| == 5
    ensures Sum(s) == s[0] + s[1] + s[2] + s[3] + s[4]
  {
    assert s[..4][..3] == s[..3];
    assert s[..3][..2] == s[..2];
    assert s[..2][..1] == s[..1];
    assert s[..1][..0] == [];
    assert Sum(s[..1]) == s[0];
    assert Sum(s[..2]) == s[0] + s[1];
    assert Sum(s[..3]) == s[0] + s[1] + s[2];
    assert Sum(s[..4]) == s[0] + s[1] + s[2] + s[3];
    assert s[..5] == s;
  }

  /** The sum of an elementwise sum is the sum of the sums. */
  lemma {:induction false} SumAdd(a: seq<real>, b: seq<real>, t: seq<real>)
    requires |a| == |b| == |t|
    requires forall i :: 0 <= i < |t| ==> t[i] == a[i] + b[i]
    ensures Sum(t) == Sum(a) + Sum(b)
  {
    if |t| > 0 {
      var k := |t| - 1;
      SumAdd(a[..k], b[..k], t[..k]);
    }
  }

  /** Elementwise smaller sequences have smaller sums. */
  lemma {:induction false} SumMonotone(s: seq<real>, t: seq<real>)
    requires |s| == |t|
    requires forall i :: 0 <= i < |s| ==> s[i] <= t[i]
    ensures Sum(s) <= Sum(t)
  {
    if |s| > 0 {
      var k := |s| - 1;
      SumMonotone(s[..k], t[..k]);
    }
  }

  /** Sums of non-negative elements are non-negative. */
  lemma {:induction false} SumNonNegative(s: seq<real>)
    requires forall i :: 0 <= i < |s| ==> s[i] >= 0.0
    ensures Sum(s) >= 0.0
  {
    if |s| > 0 {
      SumNonNegative(s[..|s| - 1]);
    }
  }

  /** A non-empty sum of positive elements is positive. */
  lemma {:induction false} SumPositive(s: seq<real>)
    requires |s| > 0
    requires forall i :: 0 <= i < |s| ==> s[i] > 0.0
    ensures Sum(s) > 0.0
  {
    if |s| > 1 {
      SumPositive(s[..|s| - 1]);
    }
  }

  /**
   * Among non-negative elements each one is at most the total, and strictly
   * less when some other element is positive.
   */
  lemma {:induction false} SumElementBound(s: seq<real>, k: nat, other: nat)
    requires k < |s| && other < |s|
    requires forall i :: 0 <= i < |s| ==> s[i] >= 0.0
    ensures s[k] <= Sum(s)
    ensures other != k && s[other] > 0.0 ==> s[k] < Sum(s)
  {
    var last := |s| - 1;
    if last == k {
      SumNonNegative(s[..last]);
      if other != k && s[other] > 0.0 {
        SumElementBound(s[..last], other, other);
      }
    } else {
      SumElementBound(s[..last], k, if other < last then other else k);
    }
  }

  // ---------------------------------------------------------------------------
  // Matrices
  // ---------------------------------------------------------------------------

  /** Every row is as long as the matrix is tall. */
  predicate IsSquare(m: Matrix)
  {
    forall i :: 0 <= i < |m| ==> |m[i]| == |m|
  }

  /** A square matrix whose entries are all positive. */
  predicate IsPositive(m: Matrix)
  {
    IsSquare(m) && forall i, j :: 0 <= i < |m| && 0 <= j < |m| ==> m[i][j] > 0.0
  }

  /** Every diagonal entry is 1. */
  predicate UnitDiagonal(m: Matrix)
    requires IsSquare(m)
  {
    forall i :: 0 <= i < |m| ==> m[i][i] == 1.0
  }

  /** Each off-diagonal entry is the reciprocal of its mirror image. */
  predicate ReciprocalOffDiagonal(m: Matrix)
    requires IsSquare(m)
  {
    forall i, j :: 0 <= i < |m| && 0 <= j < |m| && i != j ==> m[i][j] * m[j][i] == 1.0
  }

  /**
   * Writes v at (i, j) and then its reciprocal at (j, i). When i == j the
   * second write wins, leaving 1/v on the diagonal.
   */
  function SetPair(m: Matrix, i: nat, j: nat, v: real): (r: Matrix)
    requires IsSquare(m) && i < |m| && j < |m| && v != 0.0
    ensures |r| == |m| && IsSquare(r)
    ensures forall a, b :: 0 <= a < |m| && 0 <= b < |m| ==>
      r[a][b] == (if a == j && b == i then 1.0 / v else if a == i && b == j then v else m[a][b])
  {
    var m1 := m[i := m[i][j := v]];
    m1[j := m1[j][i := 1.0 / v]]
  }

  /** A positive update keeps a positive matrix positive and reciprocal off the diagonal. */
  lemma SetPairKeepsReciprocal(m: Matrix, i: nat, j: nat, v: real)
    requires IsPositive(m) && ReciprocalOffDiagonal(m) && i < |m| && j < |m| && v > 0.0
    ensures IsPositive(SetPair(m, i, j, v)) && ReciprocalOffDiagonal(SetPair(m, i, j, v))
  {
    forall a, b | 0 <= a < |m| && 0 <= b < |m|
      ensures SetPair(m, i, j, v)[a][b] > 0.0
    {
      SetPairEntry(m, i, j, v, a, b);
    }
    forall a, b | 0 <= a < |m| && 0 <= b < |m| && a != b
      ensures SetPair(m, i, j, v)[a][b] * SetPair(m, i, j, v)[b][a] == 1.0
    {
      SetPairEntry(m, i, j, v, a, b);
    }
  }

  /** Entry (a, b) after a positive update, and its product with the mirror entry. */
  lemma SetPairEntry(m: Matrix, i: nat, j: nat, v: real, a: nat, b: nat)
    requires IsPositive(m) && ReciprocalOffDiagonal(m) && i < |m| && j < |m| && v > 0.0
    requires a < |m| && b < |m|
    ensures SetPair(m, i, j, v)[a][b] > 0.0
    ensures a != b ==> SetPair(m, i, j, v)[a][b] * SetPair(m, i, j, v)[b][a] == 1.0
  {
    assert m[a][b] > 0.0 && m[b][a] > 0.0;
    assert a != b ==> m[a][b] * m[b][a] == 1.0;
    ReciprocalOfPositive(v);
  }

  lemma ReciprocalOfPositive(v: real)
    requires v > 0.0
    ensures 1.0 / v > 0.0 && v * (1.0 / v) == 1.0 && (1.0 / v) * v == 1.0
  {
  }

  /** An update off the diagonal keeps a unit diagonal. */
  lemma SetPairKeepsUnitDiagonal(m: Matrix, i: nat, j: nat, v: real)
    requires IsSquare(m) && UnitDiagonal(m) && i < |m| && j < |m| && i != j && v != 0.0
    ensures UnitDiagonal(SetPair(m, i, j, v))
  {
  }

  /** The n-by-n matrix of ones: every pair judged "equally important". */
  function Ones(n: nat): (m: Matrix)
    ensures |m| == n && IsPositive(m)
    ensures forall i, j :: 0 <= i < n && 0 <= j < n ==> m[i][j] == 1.0
  {
    seq(n, _ => seq(n, _ => 1.0))
  }

  /** The matrix of ones is a valid comparison matrix: unit diagonal, reciprocal. */
  lemma OnesIsReciprocal(n: nat)
    ensures UnitDiagonal(Ones(n)) && ReciprocalOffDiagonal(Ones(n))
  {
  }

  /** Column j, top to bottom. */
  function Column(m: Matrix, j: nat): (c: seq<real>)
    requires forall i :: 0 <= i < |m| ==> j < |m[i]|
    ensures |c| == |m| && forall i :: 0 <= i < |m| ==> c[i] == m[i][j]
  {
    seq(|m|, i requires 0 <= i < |m| => m[i][j])
  }

  /** The sum of column j. */
  function ColSum(m: Matrix, j: nat): real
    requires forall i :: 0 <= i < |m| ==> j < |m[i]|
  {
    Sum(Column(m, j))
  }

  /** Every column of a non-empty positive matrix has a positive sum. */
  lemma ColSumPositive(m: Matrix, j: nat)
    requires IsPositive(m) && j < |m|
    ensures ColSum(m, j) > 0.0
  {
    SumPositive(Column(m, j));
  }

  lemma AllColSumsPositive(m: Matrix)
    requires IsPositive(m)
    ensures forall j :: 0 <= j < |m| ==> ColSum(m, j) > 0.0
  {
    forall j | 0 <= j < |m| ensures ColSum(m, j) > 0.0 {
      ColSumPositive(m, j);
    }
  }

  /** Column normalisation: every entry divided by the sum of its own column. */
  function Normalize(m: Matrix): (nm: Matrix)
    requires IsPositive(m)
    ensures |nm| == |m| && IsSquare(nm)
    ensures forall j :: 0 <= j < |m| ==> ColSum(m, j) > 0.0
    ensures forall i, j :: 0 <= i < |m| && 0 <= j < |m| ==> nm[i][j] == m[i][j] / ColSum(m, j)
  {
    AllColSumsPositive(m);
    seq(|m|, i requires 0 <= i < |m| =>
      seq(|m|, j requires 0 <= j < |m| => m[i][j] / ColSum(m, j)))
  }

  /** The priority vector: the average of each row of the normalised matrix. */
  function Weights(m: Matrix): (w: seq<real>)
    requires IsPositive(m)
    ensures |w| == |m|
    ensures forall i :: 0 <= i < |m| ==> w[i] == Sum(Normalize(m)[i]) / |m| as real
  {
    var nm := Normalize(m);
    seq(|m|, i requires 0 <= i < |m| => Sum(nm[i]) / |m| as real)
  }

  /** The row sums of a matrix, as a vector. */
  function RowSums(m: Matrix): (r: seq<real>)
    ensures |r| == |m| && forall i :: 0 <= i < |m| ==> r[i] == Sum(m[i])
  {
    seq(|m|, i requires 0 <= i < |m| => Sum(m[i]))
  }

  /** The column sums of a matrix whose rows all have width n. */
  function ColSums(m: Matrix, n: nat): (r: seq<real>)
    requires forall i :: 0 <= i < |m| ==> |m[i]| == n
    ensures |r| == n && forall j :: 0 <= j < n ==> r[j] == Sum(Column(m, j))
  {
    seq(n, j requires 0 <= j < n => Sum(Column(m, j)))
  }

  /** Adding up a matrix row by row or column by column gives the same total. */
  lemma {:induction false} SumRowsIsSumColumns(m: Matrix, n: nat)
    requires forall i :: 0 <= i < |m| ==> |m[i]| == n
    ensures Sum(RowSums(m)) == Sum(ColSums(m, n))
  {
    if |m| == 0 {
      SumConst(ColSums(m, n), 0.0);
    } else {
      var k := |m| - 1;
      var top := m[..k];
      SumRowsIsSumColumns(top, n);
      assert RowSums(m)[..k] == RowSums(top);
      forall j | 0 <= j < n
        ensures ColSums(m, n)[j] == ColSums(top, n)[j] + m[k][j]
      {
        ColumnSumStep(m, j);
      }
      SumAdd(ColSums(top, n), m[k], ColSums(m, n));
    }
  }

  /** A column sum is the column sum of all rows but the last, plus the last entry. */
  lemma ColumnSumStep(m: Matrix, j: nat)
    requires |m| > 0 && forall i :: 0 <= i < |m| ==> j < |m[i]|
    ensures Sum(Column(m, j)) == Sum(Column(m[..|m| - 1], j)) + m[|m| - 1][j]
  {
    assert Column(m, j)[..|m| - 1] == Column(m[..|m| - 1], j);
  }

  /** The priority vector of any positive matrix sums to exactly 1. */
  lemma WeightsSumToOne(m: Matrix)
    requires IsPositive(m) && |m| > 0
    ensures Sum(Weights(m)) == 1.0
  {
    WeightsSumIsAverageTotal(m);
    NormalizedTotal(m);
    DivideBySelf(|m| as real);
  }

  lemma DivideBySelf(x: real)
    requires x != 0.0
    ensures x / x == 1.0
  {
  }

  lemma WeightsSumIsAverageTotal(m: Matrix)
    requires IsPositive(m) && |m| > 0
    ensures Sum(Weights(m)) == Sum(RowSums(Normalize(m))) / |m| as real
  {
    SumScaled(RowSums(Normalize(m)), Weights(m), |m| as real);
  }

  /** The entries of a column-normalised matrix add up to the number of columns. */
  lemma NormalizedTotal(m: Matrix)
    requires IsPositive(m)
    ensures Sum(RowSums(Normalize(m))) == |m| as real
  {
    var nm := Normalize(m);
    var cols := ColSums(nm, |m|);
    SumRowsIsSumColumns(nm, |m|);
    forall j | 0 <= j < |m|
      ensures cols[j] == 1.0
    {
      NormalizedColumnSum(m, j);
    }
    SumOfOnes(cols);
  }

  /** After column normalisation every column sums to 1. */
  lemma NormalizedColumnSum(m: Matrix, j: nat)
    requires IsPositive(m) && j < |m|
    ensures Sum(Column(Normalize(m), j)) == 1.0
  {
    var c := ColSum(m, j);
    var col, ncol := Column(m, j), Column(Normalize(m), j);
    ColSumPositive(m, j);
    assert forall i :: 0 <= i < |m| ==> ncol[i] == col[i] / c;
    SumScaled(col, ncol, c);
    SelfRatio(Sum(col), Sum(ncol), c);
  }

  lemma SelfRatio(x: real, y: real, c: real)
    requires c != 0.0 && x == c && y == x / c
    ensures y == 1.0
  {
  }

  /**
   * Every weight of a positive matrix is positive and at most 1, and strictly
   * below 1 as soon as there are two criteria.
   */
  lemma WeightsInUnitInterval(m: Matrix, i: nat)
    requires IsPositive(m) && i < |m|
    ensures 0.0 < Weights(m)[i] <= 1.0
    ensures |m| >= 2 ==> Weights(m)[i] < 1.0
  {
    var w := Weights(m);
    forall k | 0 <= k < |m|
      ensures w[k] > 0.0
    {
      WeightPositive(m, k);
    }
    SumElementBound(w, i, if i == 0 then |m| - 1 else 0);
    WeightsSumToOne(m);
  }

  lemma WeightPositive(m: Matrix, k: nat)
    requires IsPositive(m) && k < |m|
    ensures Weights(m)[k] > 0.0
  {
    var row := Normalize(m)[k];
    assert forall j :: 0 <= j < |row| ==> row[j] > 0.0 by {
      AllColSumsPositive(m);
      forall j | 0 <= j < |row|
        ensures row[j] > 0.0
      {
        PositiveRatio(m[k][j], ColSum(m, j), row[j]);
      }
    }
    SumPositive(row);
    PositiveRatio(Sum(row), |m| as real, Weights(m)[k]);
  }

  lemma PositiveRatio(x: real, y: real, q: real)
    requires x > 0.0 && y > 0.0 && q == x / y
    ensures q > 0.0
  {
  }

  /**
   * The weights of a positive matrix form a priority vector: each lies in
   * (0, 1] (in (0, 1) from two criteria on) and together they sum to 1.
   */
  lemma WeightsArePriorities(m: Matrix)
    requires IsPositive(m)
    ensures |m| > 0 ==> Sum(Weights(m)) == 1.0
    ensures forall i :: 0 <= i < |m| ==> 0.0 < Weights(m)[i] <= 1.0
    ensures |m| >= 2 ==> forall i :: 0 <= i < |m| ==> Weights(m)[i] < 1.0
  {
    if |m| > 0 {
      WeightsSumToOne(m);
    }
    forall i | 0 <= i < |m|
      ensures 0.0 < Weights(m)[i] <= 1.0 && (|m| >= 2 ==> Weights(m)[i] < 1.0)
    {
      WeightsInUnitInterval(m, i);
    }
  }

  /** The consistent matrix built from positive priorities p: entry (i, j) is p[i] / p[j]. */
  function RatioMatrix(p: seq<real>): (m: Matrix)
    requires forall i :: 0 <= i < |p| ==> p[i] > 0.0
    ensures |m| == |p| && IsPositive(m)
    ensures forall i, j :: 0 <= i < |p| && 0 <= j < |p| ==> m[i][j] == p[i] / p[j]
  {
    seq(|p|, i requires 0 <= i < |p| => seq(|p|, j requires 0 <= j < |p| => p[i] / p[j]))
  }

  /** A ratio matrix is a valid pairwise-comparison matrix: unit diagonal, reciprocal. */
  lemma RatioMatrixIsReciprocal(p: seq<real>)
    requires forall i :: 0 <= i < |p| ==> p[i] > 0.0
    ensures UnitDiagonal(RatioMatrix(p)) && ReciprocalOffDiagonal(RatioMatrix(p))
  {
    forall i | 0 <= i < |p|
      ensures RatioMatrix(p)[i][i] == 1.0
    {
      DivideBySelf(p[i]);
    }
    forall i, j | 0 <= i < |p| && 0 <= j < |p| && i != j
      ensures RatioMatrix(p)[i][j] * RatioMatrix(p)[j][i] == 1.0
    {
      RatioMatrixPair(p, i, j);
    }
  }

  lemma RatioMatrixPair(p: seq<real>, i: nat, j: nat)
    requires forall k :: 0 <= k < |p| ==> p[k] > 0.0
    requires i < |p| && j < |p|
    ensures RatioMatrix(p)[i][j] * RatioMatrix(p)[j][i] == 1.0
  {
    RatioProduct(RatioMatrix(p)[i][j], RatioMatrix(p)[j][i], p[i], p[j]);
  }

  lemma RatioProduct(x: real, y: real, a: real, b: real)
    requires a > 0.0 && b > 0.0 && x == a / b && y == b / a
    ensures x * y == 1.0
  {
  }

  lemma RatioOverSum(a: real, b: real, total: real)
    requires a > 0.0 && b > 0.0 && total > 0.0
    ensures (a / b) / (total / b) == a / total
  {
  }

  /**
   * For a perfectly consistent matrix the column-normalisation method recovers
   * the priorities exactly: weight i is p[i] divided by the total of p.
   */
  lemma WeightsOfRatioMatrix(p: seq<real>)
    requires |p| > 0 && forall i :: 0 <= i < |p| ==> p[i] > 0.0
    ensures Sum(p) > 0.0
    ensures forall i :: 0 <= i < |p| ==> Weights(RatioMatrix(p))[i] == p[i] / Sum(p)
  {
    SumPositive(p);
    forall i | 0 <= i < |p|
      ensures Weights(RatioMatrix(p))[i] == p[i] / Sum(p)
    {
      RatioWeight(p, i);
    }
  }

  lemma RatioColumnSum(p: seq<real>, j: nat)
    requires forall i :: 0 <= i < |p| ==> p[i] > 0.0
    requires j < |p|
    ensures ColSum(RatioMatrix(p), j) == Sum(p) / p[j]
  {
    SumScaled(p, Column(RatioMatrix(p), j), p[j]);
  }

  lemma RatioNormalizedEntry(p: seq<real>, i: nat, j: nat)
    requires forall k :: 0 <= k < |p| ==> p[k] > 0.0
    requires i < |p| && j < |p|
    ensures Sum(p) > 0.0
    ensures Normalize(RatioMatrix(p))[i][j] == p[i] / Sum(p)
  {
    SumPositive(p);
    RatioColumnSum(p, j);
    RatioOverSum(p[i], p[j], Sum(p));
  }

  lemma RatioWeight(p: seq<real>, i: nat)
    requires forall k :: 0 <= k < |p| ==> p[k] > 0.0
    requires i < |p|
    ensures Sum(p) > 0.0
    ensures Weights(RatioMatrix(p))[i] == p[i] / Sum(p)
  {
    SumPositive(p);
    var share := p[i] / Sum(p);
    forall j | 0 <= j < |p|
      ensures Normalize(RatioMatrix(p))[i][j] == share
    {
      RatioNormalizedEntry(p, i, j);
    }
    WeightOfConstantRow(RatioMatrix(p), i, share);
  }

  /** A normalised row whose entries all equal c averages to c. */
  lemma WeightOfConstantRow(m: Matrix, i: nat, c: real)
    requires IsPositive(m) && i < |m|
    requires forall j :: 0 <= j < |m| ==> Normalize(m)[i][j] == c
    ensures Weights(m)[i] == c
  {
    AverageOfConstant(Normalize(m)[i], c, |m|, Weights(m)[i]);
  }

  /** The average of values that all equal c is c. */
  lemma AverageOfConstant(s: seq<real>, c: real, n: nat, average: real)
    requires |s| == n > 0 && forall k :: 0 <= k < n ==> s[k] == c
    requires average == Sum(s) / n as real
    ensures average == c
  {
    SumConst(s, c);
    MultiplyThenDivide(|s| as real, c);
  }

  /** A score in 0..100, as a fraction of 100, times a non-negative weight lies in [0, weight]. */
  lemma ScaledScoreBounds(score: real, weight: real)
    requires 0.0 <= score <= 100.0 && weight >= 0.0
    ensures 0.0 <= score / 100.0 * weight <= weight
  {
    var f := score / 100.0;
    assert 0.0 <= f <= 1.0;
    assert f * weight <= 1.0 * weight;
  }

  lemma MultiplyThenDivide(n: real, x: real)
    requires n != 0.0
    ensures (n * x) / n == x
  {
  }
}
