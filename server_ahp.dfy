/**
 * The server copy of the AHP run (supabase/functions/calculate-ahp/index.ts):
 * build the pairwise matrix from stored comparisons, derive the weights by
 * column normalisation and row averages, score every student, sort the
 * results by final score and number them 1..N.
 *
 * The database reads become the input sequences and the two writes (criterion
 * weights, the ahp_results rows) become the returned `Outcome`.
 */
module ServerAhp {
  import opened Common
  import opened Matrices
  import opened Sorting

  type Id = string

  datatype Criterion = Criterion(id: Id)
  datatype Student = Student(id: Id)
  datatype Comparison = Comparison(criteria1Id: Id, criteria2Id: Id, comparisonValue: real)
  datatype StudentScore = StudentScore(studentId: Id, criteriaId: Id, score: real)

  /** One element of `results`: a student and the weighted score. */
  datatype Result = Result(studentId: Id, finalScore: real)

  /** One row of `insertData`, written to ahp_results. */
  datatype RankedResult = RankedResult(studentId: Id, finalScore: real, rank: int)

  /** What the handler produces: an error message, or the weights and the ranked rows. */
  datatype Outcome =
    | Failed(message: string)
    | Completed(weights: seq<real>, insertData: seq<RankedResult>)

  const MissingRequiredData: string := "Missing required data"

  // ---------------------------------------------------------------------------
  // Pairwise comparison matrix
  // ---------------------------------------------------------------------------

  /** `criteria.findIndex(c => c.id === id)`. */
  function FindIndex(criteria: seq<Criterion>, id: Id): (r: int)
    ensures -1 <= r < |criteria|
    ensures r == -1 <==> forall k :: 0 <= k < |criteria| ==> criteria[k].id != id
    ensures r >= 0 ==> criteria[r].id == id && forall k :: 0 <= k < r ==> criteria[k].id != id
  {
    FindFirst(criteria, (c: Criterion) => c.id == id)
  }

  /** Every stored comparison value is a positive number. */
  predicate PositiveComparisons(comparisons: seq<Comparison>)
  {
    forall k :: 0 <= k < |comparisons| ==> comparisons[k].comparisonValue > 0.0
  }

  /** The effect of one comparison on the matrix (one call of the `forEach` callback). */
  function ApplyComparison(m: Matrix, criteria: seq<Criterion>, comp: Comparison): (r: Matrix)
    requires IsSquare(m) && |m| == |criteria| && comp.comparisonValue > 0.0
    ensures IsSquare(r) && |r| == |m|
  {
    var i := FindIndex(criteria, comp.criteria1Id);
    var j := FindIndex(criteria, comp.criteria2Id);
    if i != -1 && j != -1 then SetPair(m, i, j, comp.comparisonValue) else m
  }

  /** The matrix after the first |comparisons| callbacks, starting from all ones. */
  function BuiltMatrix(criteria: seq<Criterion>, comparisons: seq<Comparison>): (m: Matrix)
    requires PositiveComparisons(comparisons)
    ensures IsSquare(m) && |m| == |criteria|
  {
    if |comparisons| == 0 then Ones(|criteria|)
    else
      var last := |comparisons| - 1;
      ApplyComparison(BuiltMatrix(criteria, comparisons[..last]), criteria, comparisons[last])
  }

  /** Lines 31-41: start from the n-by-n matrix of ones and apply every comparison in turn. */
  method BuildMatrix(criteria: seq<Criterion>, comparisons: seq<Comparison>) returns (matrix: Matrix)
    requires PositiveComparisons(comparisons)
    ensures matrix == BuiltMatrix(criteria, comparisons)
    ensures |comparisons| == 0 ==> matrix == Ones(|criteria|)
    ensures |matrix| == |criteria| && IsPositive(matrix) && ReciprocalOffDiagonal(matrix)
  {
    matrix := Ones(|criteria|);
    for k := 0 to |comparisons|
      invariant matrix == BuiltMatrix(criteria, comparisons[..k])
      invariant IsSquare(matrix) && |matrix| == |criteria|
    {
      assert comparisons[..k + 1][..k] == comparisons[..k];
      var comp := comparisons[k];
      var i := FindIndex(criteria, comp.criteria1Id);
      var j := FindIndex(criteria, comp.criteria2Id);
      if i != -1 && j != -1 {
        matrix := matrix[i := matrix[i][j := comp.comparisonValue]];
        matrix := matrix[j := matrix[j][i := 1.0 / comp.comparisonValue]];
      }
    }
    assert comparisons[..|comparisons|] == comparisons;
    BuiltMatrixIsReciprocal(criteria, comparisons);
  }

  /**
   * What one comparison does: with both ids found at i and j it writes v at
   * (i, j) and then 1/v at (j, i) (so a self-comparison leaves 1/v on the
   * diagonal); every other entry is unchanged; an unknown id changes nothing.
   */
  lemma ApplyComparisonEntries(m: Matrix, criteria: seq<Criterion>, comp: Comparison, r: nat, c: nat)
    requires IsSquare(m) && |m| == |criteria| && comp.comparisonValue > 0.0
    requires r < |m| && c < |m|
    ensures var i := FindIndex(criteria, comp.criteria1Id);
            var j := FindIndex(criteria, comp.criteria2Id);
            var v := comp.comparisonValue;
            var after := ApplyComparison(m, criteria, comp)[r][c];
            if i == -1 || j == -1 then after == m[r][c]
            else if r == j && c == i then after == 1.0 / v
            else if r == i && c == j then after == v
            else after == m[r][c]
  {
  }

  /** With positive values the built matrix is positive and reciprocal off the diagonal. */
  lemma {:induction false} BuiltMatrixIsReciprocal(criteria: seq<Criterion>, comparisons: seq<Comparison>)
    requires PositiveComparisons(comparisons)
    ensures IsPositive(BuiltMatrix(criteria, comparisons))
    ensures ReciprocalOffDiagonal(BuiltMatrix(criteria, comparisons))
  {
    if |comparisons| == 0 {
      OnesIsReciprocal(|criteria|);
    } else {
      var last := |comparisons| - 1;
      BuiltMatrixIsReciprocal(criteria, comparisons[..last]);
      ApplyComparisonKeepsReciprocal(BuiltMatrix(criteria, comparisons[..last]), criteria, comparisons[last]);
    }
  }

  /** One positive comparison keeps a positive reciprocal matrix positive and reciprocal. */
  lemma ApplyComparisonKeepsReciprocal(m: Matrix, criteria: seq<Criterion>, comp: Comparison)
    requires IsPositive(m) && ReciprocalOffDiagonal(m) && |m| == |criteria| && comp.comparisonValue > 0.0
    ensures IsPositive(ApplyComparison(m, criteria, comp))
    ensures ReciprocalOffDiagonal(ApplyComparison(m, criteria, comp))
  {
    var i := FindIndex(criteria, comp.criteria1Id);
    var j := FindIndex(criteria, comp.criteria2Id);
    if i != -1 && j != -1 {
      SetPairKeepsReciprocal(m, i, j, comp.comparisonValue);
    }
  }

  /** When no comparison relates a criterion to itself, the diagonal stays 1. */
  lemma {:induction false} BuiltMatrixUnitDiagonal(criteria: seq<Criterion>, comparisons: seq<Comparison>)
    requires PositiveComparisons(comparisons)
    requires forall k :: 0 <= k < |comparisons| ==> comparisons[k].criteria1Id != comparisons[k].criteria2Id
    ensures UnitDiagonal(BuiltMatrix(criteria, comparisons))
  {
    if |comparisons| > 0 {
      var last := |comparisons| - 1;
      var before := BuiltMatrix(criteria, comparisons[..last]);
      BuiltMatrixUnitDiagonal(criteria, comparisons[..last]);
      forall r | 0 <= r < |before|
        ensures BuiltMatrix(criteria, comparisons)[r][r] == 1.0
      {
        ApplyComparisonEntries(before, criteria, comparisons[last], r, r);
      }
    }
  }

  /** Whether a comparison resolves to the cell (i, j) or its mirror (j, i). */
  predicate Touches(criteria: seq<Criterion>, comp: Comparison, i: nat, j: nat)
  {
    var a := FindIndex(criteria, comp.criteria1Id);
    var b := FindIndex(criteria, comp.criteria2Id);
    a != -1 && b != -1 && ((a == i && b == j) || (a == j && b == i))
  }

  /**
   * Later comparisons overwrite earlier ones: when comparison k resolves to
   * (i, j) with i != j and no later comparison touches that pair, the built
   * matrix holds comparison k's value at (i, j) and its reciprocal at (j, i).
   */
  lemma {:induction false} BuiltMatrixLastWriteWins(criteria: seq<Criterion>, comparisons: seq<Comparison>, k: nat)
    requires PositiveComparisons(comparisons)
    requires k < |comparisons|
    requires var i := FindIndex(criteria, comparisons[k].criteria1Id);
             var j := FindIndex(criteria, comparisons[k].criteria2Id);
             i != -1 && j != -1 && i != j &&
             forall l :: k < l < |comparisons| ==> !Touches(criteria, comparisons[l], i, j)
    ensures var i := FindIndex(criteria, comparisons[k].criteria1Id);
            var j := FindIndex(criteria, comparisons[k].criteria2Id);
            var v := comparisons[k].comparisonValue;
            BuiltMatrix(criteria, comparisons)[i][j] == v &&
            BuiltMatrix(criteria, comparisons)[j][i] == 1.0 / v
  {
    var i := FindIndex(criteria, comparisons[k].criteria1Id);
    var j := FindIndex(criteria, comparisons[k].criteria2Id);
    var last := |comparisons| - 1;
    var prefix := comparisons[..last];
    var before := BuiltMatrix(criteria, prefix);
    var comp := comparisons[last];
    if k < last {
      assert prefix[k] == comparisons[k];
      assert forall l :: k < l < |prefix| ==> prefix[l] == comparisons[l];
      BuiltMatrixLastWriteWins(criteria, prefix, k);
      assert !Touches(criteria, comp, i, j);
      ApplyComparisonUntouched(before, criteria, comp, i, j);
      ApplyComparisonUntouched(before, criteria, comp, j, i);
    } else {
      ApplyComparisonHit(before, criteria, comp);
    }
  }

  /** A comparison that does not resolve to (i, j) or (j, i) leaves entry (i, j) alone. */
  lemma ApplyComparisonUntouched(m: Matrix, criteria: seq<Criterion>, comp: Comparison, i: nat, j: nat)
    requires IsSquare(m) && |m| == |criteria| && comp.comparisonValue > 0.0
    requires i < |m| && j < |m| && !Touches(criteria, comp, i, j)
    ensures ApplyComparison(m, criteria, comp)[i][j] == m[i][j]
  {
    ApplyComparisonEntries(m, criteria, comp, i, j);
  }

  /** A comparison between two different known criteria writes v and 1/v. */
  lemma ApplyComparisonHit(m: Matrix, criteria: seq<Criterion>, comp: Comparison)
    requires IsSquare(m) && |m| == |criteria| && comp.comparisonValue > 0.0
    requires var i := FindIndex(criteria, comp.criteria1Id);
             var j := FindIndex(criteria, comp.criteria2Id);
             i != -1 && j != -1 && i != j
    ensures var i := FindIndex(criteria, comp.criteria1Id);
            var j := FindIndex(criteria, comp.criteria2Id);
            ApplyComparison(m, criteria, comp)[i][j] == comp.comparisonValue &&
            ApplyComparison(m, criteria, comp)[j][i] == 1.0 / comp.comparisonValue
  {
  }

  // ---------------------------------------------------------------------------
  // Weights (lines 101-131)
  // ---------------------------------------------------------------------------

  /**
   * `calculateWeights`: column sums, the normalised matrix and the row
   * averages, each filled in place by nested loops.
   */
  method CalculateWeights(matrix: Matrix) returns (weights: seq<real>)
    requires IsPositive(matrix)
    ensures weights == Weights(matrix)
    ensures |matrix| > 0 ==> Sum(weights) == 1.0
    ensures forall i :: 0 <= i < |weights| ==> 0.0 < weights[i] <= 1.0
  {
    var columnSums := ColumnSums(matrix);
    var normalized := NormalizeColumns(matrix, columnSums);
    weights := RowAverages(normalized, Normalize(matrix));
    WeightsArePriorities(matrix);
  }

  /** Lines 104-109: `columnSums[j] += matrix[i][j]` over every row. */
  method ColumnSums(matrix: Matrix) returns (columnSums: array<real>)
    requires IsSquare(matrix)
    ensures fresh(columnSums) && columnSums.Length == |matrix|
    ensures forall c :: 0 <= c < |matrix| ==> columnSums[c] == ColSum(matrix, c)
  {
    var n := |matrix|;
    columnSums := new real[n](_ => 0.0);
    for j := 0 to n
      invariant forall c :: 0 <= c < j ==> columnSums[c] == ColSum(matrix, c)
    {
      ghost var column := Column(matrix, j);
      var sum := 0.0;
      for i := 0 to n
        invariant sum == Sum(column[..i])
        invariant forall c :: 0 <= c < j ==> columnSums[c] == ColSum(matrix, c)
      {
        SumPrefixStep(column, i, sum, matrix[i][j]);
        sum := sum + matrix[i][j];
      }
      assert column[..n] == column;
      assert sum == ColSum(matrix, j);
      columnSums[j] := sum;
    }
  }

  /** Lines 112-117: every entry divided by the sum of its column. */
  method NormalizeColumns(matrix: Matrix, columnSums: array<real>) returns (normalized: array2<real>)
    requires IsPositive(matrix) && columnSums.Length == |matrix|
    requires forall c :: 0 <= c < |matrix| ==> columnSums[c] == ColSum(matrix, c)
    ensures fresh(normalized) && normalized.Length0 == |matrix| && normalized.Length1 == |matrix|
    ensures forall r, c :: 0 <= r < |matrix| && 0 <= c < |matrix| ==> normalized[r, c] == Normalize(matrix)[r][c]
  {
    var n := |matrix|;
    ghost var nm := Normalize(matrix);
    normalized := new real[n, n]((_, _) => 0.0);
    for i := 0 to n
      invariant forall r, c :: 0 <= r < i && 0 <= c < n ==> normalized[r, c] == nm[r][c]
    {
      for j := 0 to n
        invariant forall r, c :: 0 <= r < i && 0 <= c < n ==> normalized[r, c] == nm[r][c]
        invariant forall c :: 0 <= c < j ==> normalized[i, c] == nm[i][c]
      {
        normalized[i, j] := matrix[i][j] / columnSums[j];
      }
    }
  }

  /** Lines 120-127: the average of each row of `normalized`, which holds the matrix `rows`. */
  method RowAverages(normalized: array2<real>, ghost rows: Matrix) returns (weights: seq<real>)
    requires normalized.Length0 == normalized.Length1 == |rows| && IsSquare(rows)
    requires forall r, c :: 0 <= r < |rows| && 0 <= c < |rows| ==> normalized[r, c] == rows[r][c]
    ensures |weights| == |rows|
    ensures forall i :: 0 <= i < |rows| ==> weights[i] == Sum(rows[i]) / |rows| as real
  {
    var n := normalized.Length0;
    var w := new real[n](_ => 0.0);
    for i := 0 to n
      invariant forall r :: 0 <= r < i ==> w[r] == Sum(rows[r]) / n as real
    {
      var sum := 0.0;
      for j := 0 to n
        invariant sum == Sum(rows[i][..j])
        invariant forall r :: 0 <= r < i ==> w[r] == Sum(rows[r]) / n as real
      {
        SumPrefixStep(rows[i], j, sum, normalized[i, j]);
        sum := sum + normalized[i, j];
      }
      assert rows[i][..n] == rows[i];
      w[i] := sum / n as real;
    }
    weights := w[..];
  }

  // ---------------------------------------------------------------------------
  // Final scores (lines 55-71)
  // ---------------------------------------------------------------------------

  /** `scores.find(s => s.student_id === student && s.criteria_id === criterion)`, as a position. */
  function ScoreIndex(scores: seq<StudentScore>, studentId: Id, criteriaId: Id): (r: int)
    ensures -1 <= r < |scores|
    ensures r == -1 <==> forall k :: 0 <= k < |scores| ==> !(scores[k].studentId == studentId && scores[k].criteriaId == criteriaId)
    ensures r >= 0 ==> scores[r].studentId == studentId && scores[r].criteriaId == criteriaId
    ensures r >= 0 ==> forall k :: 0 <= k < r ==> !(scores[k].studentId == studentId && scores[k].criteriaId == criteriaId)
  {
    FindFirst(scores, (s: StudentScore) => s.studentId == studentId && s.criteriaId == criteriaId)
  }

  /**
   * What criterion `index` adds to a student's score: nothing when the
   * student has no score row for the criterion, otherwise the first such
   * row's score/100 times the weight.
   */
  function Contribution(scores: seq<StudentScore>, studentId: Id, criteriaId: Id, weight: real): (c: real)
    ensures (forall k :: 0 <= k < |scores| ==> !(scores[k].studentId == studentId && scores[k].criteriaId == criteriaId)) ==> c == 0.0
    ensures forall k ::
      (0 <= k < |scores| && scores[k].studentId == studentId && scores[k].criteriaId == criteriaId &&
       forall l :: 0 <= l < k ==> !(scores[l].studentId == studentId && scores[l].criteriaId == criteriaId))
      ==> c == scores[k].score / 100.0 * weight
  {
    var k := ScoreIndex(scores, studentId, criteriaId);
    if k == -1 then 0.0 else scores[k].score / 100.0 * weight
  }

  /** The contributions of every criterion, in criterion order. */
  function Contributions(scores: seq<StudentScore>, studentId: Id, criteria: seq<Criterion>, weights: seq<real>): (c: seq<real>)
    requires |weights| == |criteria|
    ensures |c| == |criteria|
  {
    seq(|criteria|, i requires 0 <= i < |criteria| => Contribution(scores, studentId, criteria[i].id, weights[i]))
  }

  /** A student's final score: the sum of the contributions. */
  function FinalScore(scores: seq<StudentScore>, studentId: Id, criteria: seq<Criterion>, weights: seq<real>): real
    requires |weights| == |criteria|
  {
    Sum(Contributions(scores, studentId, criteria, weights))
  }

  /** The `results` array before sorting: one entry per student, in student order. */
  function Scored(students: seq<Student>, criteria: seq<Criterion>, scores: seq<StudentScore>, weights: seq<real>): (rs: seq<Result>)
    requires |weights| == |criteria|
    ensures |rs| == |students|
  {
    seq(|students|, k requires 0 <= k < |students| => Result(students[k].id, FinalScore(scores, students[k].id, criteria, weights)))
  }

  /** Every stored score lies in 0..100. */
  predicate ScoresInRange(scores: seq<StudentScore>)
  {
    forall k :: 0 <= k < |scores| ==> 0.0 <= scores[k].score <= 100.0
  }

  /**
   * With scores in 0..100 and non-negative weights, a final score lies
   * between 0 and the sum of the weights (so in 0..1 for the computed weights).
   */
  lemma FinalScoreBounds(scores: seq<StudentScore>, studentId: Id, criteria: seq<Criterion>, weights: seq<real>)
    requires |weights| == |criteria| && ScoresInRange(scores)
    requires forall i :: 0 <= i < |weights| ==> weights[i] >= 0.0
    ensures 0.0 <= FinalScore(scores, studentId, criteria, weights) <= Sum(weights)
  {
    var c := Contributions(scores, studentId, criteria, weights);
    forall i | 0 <= i < |c|
      ensures 0.0 <= c[i] <= weights[i]
    {
      ContributionBounds(scores, studentId, criteria[i].id, weights[i]);
    }
    SumNonNegative(c);
    SumMonotone(c, weights);
  }

  lemma ContributionBounds(scores: seq<StudentScore>, studentId: Id, criteriaId: Id, weight: real)
    requires ScoresInRange(scores) && weight >= 0.0
    ensures 0.0 <= Contribution(scores, studentId, criteriaId, weight) <= weight
  {
    var c := Contribution(scores, studentId, criteriaId, weight);
    var k := ScoreIndex(scores, studentId, criteriaId);
    if k != -1 {
      var score := scores[k].score;
      assert 0.0 <= score <= 100.0 && c == score / 100.0 * weight;
      ScaledBetween(score, weight, c);
    }
  }

  /** The contribution of one score, given as `c`, lies between 0 and the weight. */
  lemma ScaledBetween(score: real, weight: real, c: real)
    requires 0.0 <= score <= 100.0 && weight >= 0.0 && c == score / 100.0 * weight
    ensures 0.0 <= c <= weight
  {
    ScaledScoreBounds(score, weight);
  }

  /** A student with a score of 100 on every criterion gets the sum of the weights. */
  lemma FullMarksScoreSumOfWeights(scores: seq<StudentScore>, studentId: Id, criteria: seq<Criterion>, weights: seq<real>)
    requires |weights| == |criteria|
    requires forall i :: 0 <= i < |criteria| ==>
      var k := ScoreIndex(scores, studentId, criteria[i].id);
      k != -1 && scores[k].score == 100.0
    ensures FinalScore(scores, studentId, criteria, weights) == Sum(weights)
  {
    FullMarkContributions(scores, studentId, criteria, weights);
    assert Contributions(scores, studentId, criteria, weights) == weights;
  }

  lemma FullMarkContributions(scores: seq<StudentScore>, studentId: Id, criteria: seq<Criterion>, weights: seq<real>)
    requires |weights| == |criteria|
    requires forall i :: 0 <= i < |criteria| ==>
      var k := ScoreIndex(scores, studentId, criteria[i].id);
      k != -1 && scores[k].score == 100.0
    ensures forall i :: 0 <= i < |criteria| ==> Contributions(scores, studentId, criteria, weights)[i] == weights[i]
  {
    forall i | 0 <= i < |criteria|
      ensures Contributions(scores, studentId, criteria, weights)[i] == weights[i]
    {
      FullMarkContribution(scores, studentId, criteria[i].id, weights[i]);
    }
  }

  lemma FullMarkContribution(scores: seq<StudentScore>, studentId: Id, criteriaId: Id, weight: real)
    requires ScoreIndex(scores, studentId, criteriaId) != -1
    requires scores[ScoreIndex(scores, studentId, criteriaId)].score == 100.0
    ensures Contribution(scores, studentId, criteriaId, weight) == weight
  {
    FullMark(scores[ScoreIndex(scores, studentId, criteriaId)].score, weight);
  }

  lemma FullMark(score: real, weight: real)
    requires score == 100.0
    ensures score / 100.0 * weight == weight
  {
  }

  /** A student without any stored score gets 0. */
  lemma UnscoredStudentGetsZero(scores: seq<StudentScore>, studentId: Id, criteria: seq<Criterion>, weights: seq<real>)
    requires |weights| == |criteria|
    requires forall k :: 0 <= k < |scores| ==> scores[k].studentId != studentId
    ensures FinalScore(scores, studentId, criteria, weights) == 0.0
  {
    var c := Contributions(scores, studentId, criteria, weights);
    SumConst(c, 0.0);
  }

  /** Lines 55-71: `students.map`, one result per student in student order. */
  method ScoreStudents(students: seq<Student>, criteria: seq<Criterion>, scores: seq<StudentScore>, weights: seq<real>)
    returns (results: seq<Result>)
    requires |weights| == |criteria|
    ensures results == Scored(students, criteria, scores, weights)
  {
    results := [];
    for s := 0 to |students|
      invariant |results| == s
      invariant forall k :: 0 <= k < s ==> results[k] == Result(students[k].id, FinalScore(scores, students[k].id, criteria, weights))
    {
      var finalScore := ScoreStudent(scores, students[s].id, criteria, weights);
      results := results + [Result(students[s].id, finalScore)];
    }
  }

  /** Lines 58-65: `criteria.forEach` accumulating one student's final score. */
  method ScoreStudent(scores: seq<StudentScore>, studentId: Id, criteria: seq<Criterion>, weights: seq<real>)
    returns (finalScore: real)
    requires |weights| == |criteria|
    ensures finalScore == FinalScore(scores, studentId, criteria, weights)
  {
    ghost var c := Contributions(scores, studentId, criteria, weights);
    finalScore := 0.0;
    for index := 0 to |criteria|
      invariant finalScore == Sum(c[..index])
    {
      SumPrefixStep(c, index, finalScore, Contribution(scores, studentId, criteria[index].id, weights[index]));
      // `scores.find` and `if (studentScore)`, lines 59-64
      finalScore := finalScore + Contribution(scores, studentId, criteria[index].id, weights[index]);
    }
    assert c[..|criteria|] == c;
  }

  // ---------------------------------------------------------------------------
  // Ranking (lines 74-84)
  // ---------------------------------------------------------------------------

  /** `insertData`: each sorted result with its position plus one as rank. */
  function WithRanks(sorted: seq<Result>): (rows: seq<RankedResult>)
    ensures |rows| == |sorted|
  {
    seq(|sorted|, k requires 0 <= k < |sorted| => RankedResult(sorted[k].studentId, sorted[k].finalScore, k + 1))
  }

  function RankOf(row: RankedResult): int
  {
    row.rank
  }

  /** A ranked row without its rank. */
  function Unranked(row: RankedResult): Result
  {
    Result(row.studentId, row.finalScore)
  }

  /**
   * `rows` ranks `results`: the same results in an order of non-increasing
   * final score, ranked 1, 2, ... from the top.
   */
  predicate IsRanking(rows: seq<RankedResult>, results: seq<Result>)
  {
    |rows| == |results| &&
    (forall k :: 0 <= k < |rows| ==> rows[k].rank == k + 1) &&
    (forall k, l :: 0 <= k < l < |rows| ==> rows[k].finalScore >= rows[l].finalScore) &&
    multiset(seq(|rows|, k requires 0 <= k < |rows| => Unranked(rows[k]))) == multiset(results)
  }

  /** Lines 74 and 80-84: sort the results by final score, largest first, then number them. */
  method RankResults(results: seq<Result>) returns (insertData: seq<RankedResult>)
    ensures IsRanking(insertData, results)
  {
    var a := new Result[|results|](k requires 0 <= k < |results| => results[k]);
    assert a[..] == results;
    SortDescending(a, (r: Result) => r.finalScore);
    var sorted := a[..];
    insertData := WithRanks(sorted);
    assert seq(|insertData|, k requires 0 <= k < |insertData| => Unranked(insertData[k])) == sorted;
  }

  /** In a ranking, the ranks are distinct and are exactly 1..N, and rank 1 holds the highest score. */
  lemma RankingProperties(rows: seq<RankedResult>, results: seq<Result>)
    requires IsRanking(rows, results)
    ensures forall k, l :: 0 <= k < l < |rows| ==> rows[k].rank != rows[l].rank
    ensures forall r :: r in RankSet(rows, RankOf) <==> 1 <= r <= |results|
    ensures |rows| > 0 ==> forall k :: 0 <= k < |results| ==> results[k].finalScore <= rows[0].finalScore
  {
    RanksAreOneToN(rows, RankOf);
    var unranked := seq(|rows|, k requires 0 <= k < |rows| => Unranked(rows[k]));
    forall k | 0 <= k < |results|
      ensures results[k].finalScore <= rows[0].finalScore
    {
      assert results[k] in multiset(unranked);
      var l :| 0 <= l < |unranked| && unranked[l] == results[k];
      assert l == 0 || rows[0].finalScore >= rows[l].finalScore;
    }
  }

  // ---------------------------------------------------------------------------
  // The request handler (lines 20-91)
  // ---------------------------------------------------------------------------

  /**
   * The whole run: fail with "Missing required data" when there are no
   * students or no criteria; otherwise the weights come from the built matrix
   * and sum to 1, and the inserted rows rank every student's final score.
   */
  method CalculateAhp(students: seq<Student>, criteria: seq<Criterion>, comparisons: seq<Comparison>, scores: seq<StudentScore>)
    returns (outcome: Outcome)
    requires PositiveComparisons(comparisons)
    ensures outcome.Failed? <==> |students| == 0 || |criteria| == 0
    ensures outcome.Failed? ==> outcome.message == MissingRequiredData
    ensures outcome.Completed? ==>
      var matrix := BuiltMatrix(criteria, comparisons);
      IsPositive(matrix) &&
      outcome.weights == Weights(matrix) &&
      Sum(outcome.weights) == 1.0 &&
      IsRanking(outcome.insertData, Scored(students, criteria, scores, outcome.weights))
  {
    if |students| == 0 || |criteria| == 0 {
      return Failed(MissingRequiredData);
    }
    var matrix := BuildMatrix(criteria, comparisons);
    var weights := CalculateWeights(matrix);
    var results := ScoreStudents(students, criteria, scores, weights);
    var insertData := RankResults(results);
    outcome := Completed(weights, insertData);
  }
}
