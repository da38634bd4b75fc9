/**
 * The PHP ranking engine (backend/models/AHPCalculation.php, `calculateAHP`).
 * The four SQL reads become the `students`, `criteria` and `scores`
 * parameters; the `ahp_results` table becomes the field `ahpResults`, which
 * the calculation clears and then fills row by row.
 */
module PhpRanking {
  import opened Common
  import opened Matrices
  import opened Sorting

  type Id = string

  datatype Student = Student(id: Id)
  datatype Criterion = Criterion(id: Id, weight: real)
  datatype StudentScore = StudentScore(studentId: Id, criteriaId: Id, score: real)

  /** One element of `$results` before ranking. */
  datatype ResultRow = ResultRow(studentId: Id, finalScore: real)

  /** One row of the `ahp_results` table. */
  datatype AhpResult = AhpResult(studentId: Id, finalScore: real, rank: int)

  /** `SELECT * FROM criteria WHERE weight > 0`, keeping the table order. */
  function WeightedCriteria(criteria: seq<Criterion>): (r: seq<Criterion>)
    ensures |r| <= |criteria|
    ensures forall c :: c in r <==> c in criteria && c.weight > 0.0
  {
    if |criteria| == 0 then []
    else
      var rest := WeightedCriteria(criteria[1..]);
      assert forall c :: c in criteria <==> c == criteria[0] || c in criteria[1..];
      if criteria[0].weight > 0.0 then [criteria[0]] + rest else rest
  }

  /**
   * `$score_row ? $score_row['score'] : 0`: the first stored score of the
   * student for the criterion, or 0 when there is none.
   */
  function ScoreOf(scores: seq<StudentScore>, studentId: Id, criteriaId: Id): (s: real)
    ensures (forall k :: 0 <= k < |scores| ==> !(scores[k].studentId == studentId && scores[k].criteriaId == criteriaId)) ==> s == 0.0
    ensures (exists k :: 0 <= k < |scores| && scores[k].studentId == studentId && scores[k].criteriaId == criteriaId) ==>
      exists k :: 0 <= k < |scores| && scores[k].studentId == studentId && scores[k].criteriaId == criteriaId && s == scores[k].score
  {
    var k := FindFirst(scores, (row: StudentScore) => row.studentId == studentId && row.criteriaId == criteriaId);
    if k == -1 then 0.0 else scores[k].score
  }

  /** The weighted, normalised scores of one student, criterion by criterion. */
  function Terms(scores: seq<StudentScore>, studentId: Id, criteria: seq<Criterion>): (t: seq<real>)
    ensures |t| == |criteria|
  {
    seq(|criteria|, i requires 0 <= i < |criteria| => ScoreOf(scores, studentId, criteria[i].id) / 100.0 * criteria[i].weight)
  }

  /** `$final_score`. */
  function FinalScore(scores: seq<StudentScore>, studentId: Id, criteria: seq<Criterion>): real
  {
    Sum(Terms(scores, studentId, criteria))
  }

  /** `$results` after the student loop: one row per student, in student order. */
  function Computed(students: seq<Student>, criteria: seq<Criterion>, scores: seq<StudentScore>): (rows: seq<ResultRow>)
    ensures |rows| == |students|
    ensures forall k :: 0 <= k < |students| ==> rows[k].studentId == students[k].id
  {
    seq(|students|, k requires 0 <= k < |students| => ResultRow(students[k].id, FinalScore(scores, students[k].id, criteria)))
  }

  /** The weight of one criterion. */
  function CriterionWeight(c: Criterion): real
  {
    c.weight
  }

  predicate ScoresInRange(scores: seq<StudentScore>)
  {
    forall k :: 0 <= k < |scores| ==> 0.0 <= scores[k].score <= 100.0
  }

  /** With scores in 0..100 and positive weights, a final score lies in [0, sum of the weights]. */
  lemma FinalScoreBounds(scores: seq<StudentScore>, studentId: Id, criteria: seq<Criterion>)
    requires ScoresInRange(scores)
    requires forall i :: 0 <= i < |criteria| ==> criteria[i].weight > 0.0
    ensures 0.0 <= FinalScore(scores, studentId, criteria) <= Sum(WeightsOf(criteria, CriterionWeight))
  {
    var t := Terms(scores, studentId, criteria);
    var w := WeightsOf(criteria, CriterionWeight);
    forall i | 0 <= i < |t|
      ensures 0.0 <= t[i] <= w[i]
    {
      TermBounds(scores, studentId, criteria, i);
    }
    SumNonNegative(t);
    SumMonotone(t, w);
  }

  lemma TermBounds(scores: seq<StudentScore>, studentId: Id, criteria: seq<Criterion>, i: nat)
    requires ScoresInRange(scores) && i < |criteria| && criteria[i].weight > 0.0
    ensures 0.0 <= Terms(scores, studentId, criteria)[i] <= criteria[i].weight
  {
    ScaledScoreBounds(ScoreOf(scores, studentId, criteria[i].id), criteria[i].weight);
  }

  /** A student without stored scores ends with 0. */
  lemma UnscoredStudentGetsZero(scores: seq<StudentScore>, studentId: Id, criteria: seq<Criterion>)
    requires forall k :: 0 <= k < |scores| ==> scores[k].studentId != studentId
    ensures FinalScore(scores, studentId, criteria) == 0.0
  {
    SumConst(Terms(scores, studentId, criteria), 0.0);
  }

  /**
   * `rows` is a ranking of `results`: the same rows in non-increasing order of
   * final score, ranked 1, 2, ... from the top.
   */
  predicate IsRanking(rows: seq<AhpResult>, results: seq<ResultRow>)
  {
    |rows| == |results| &&
    (forall k :: 0 <= k < |rows| ==> rows[k].rank == k + 1) &&
    (forall k, l :: 0 <= k < l < |rows| ==> rows[k].finalScore >= rows[l].finalScore) &&
    multiset(Unranked(rows)) == multiset(results)
  }

  /** The rows without their ranks. */
  function Unranked(rows: seq<AhpResult>): (r: seq<ResultRow>)
    ensures |r| == |rows|
    ensures forall k :: 0 <= k < |rows| ==> r[k] == ResultRow(rows[k].studentId, rows[k].finalScore)
  {
    seq(|rows|, k requires 0 <= k < |rows| => ResultRow(rows[k].studentId, rows[k].finalScore))
  }

  function RankOf(row: AhpResult): int
  {
    row.rank
  }

  /** In a ranking the ranks are distinct and are exactly 1..N. */
  lemma RanksDistinctOneToN(rows: seq<AhpResult>, results: seq<ResultRow>)
    requires IsRanking(rows, results)
    ensures forall k, l :: 0 <= k < l < |rows| ==> rows[k].rank != rows[l].rank
    ensures forall r :: r in RankSet(rows, RankOf) <==> 1 <= r <= |results|
  {
    RanksAreOneToN(rows, RankOf);
  }

  /** In a ranking of the computed rows every student has a row. */
  lemma RankingCoversStudents(rows: seq<AhpResult>, students: seq<Student>, criteria: seq<Criterion>, scores: seq<StudentScore>)
    requires IsRanking(rows, Computed(students, criteria, scores))
    ensures forall k :: 0 <= k < |students| ==> exists l :: 0 <= l < |rows| && rows[l].studentId == students[k].id
  {
    var computed := Computed(students, criteria, scores);
    var unranked := Unranked(rows);
    forall k | 0 <= k < |students|
      ensures exists l :: 0 <= l < |rows| && rows[l].studentId == students[k].id
    {
      assert computed[k] in multiset(unranked);
      var l :| 0 <= l < |unranked| && unranked[l] == computed[k];
      assert rows[l].studentId == students[k].id;
      assert exists l' :: 0 <= l' < |rows| && rows[l'].studentId == students[k].id;
    }
    assert forall k :: 0 <= k < |students| ==> exists l :: 0 <= l < |rows| && rows[l].studentId == students[k].id;
  }

  /** In a ranking of the computed rows every row belongs to a student. */
  lemma RankingOnlyStudents(rows: seq<AhpResult>, students: seq<Student>, criteria: seq<Criterion>, scores: seq<StudentScore>)
    requires IsRanking(rows, Computed(students, criteria, scores))
    ensures forall l :: 0 <= l < |rows| ==> exists k :: 0 <= k < |students| && rows[l].studentId == students[k].id
  {
    var computed := Computed(students, criteria, scores);
    var unranked := Unranked(rows);
    forall l | 0 <= l < |rows|
      ensures exists k :: 0 <= k < |students| && rows[l].studentId == students[k].id
    {
      assert unranked[l] in multiset(computed);
      var k :| 0 <= k < |computed| && computed[k] == unranked[l];
      assert rows[l].studentId == students[k].id;
      assert exists k' :: 0 <= k' < |students| && rows[l].studentId == students[k'].id;
    }
    assert forall l :: 0 <= l < |rows| ==> exists k :: 0 <= k < |students| && rows[l].studentId == students[k].id;
  }

  function ScoreKey(row: ResultRow): real
  {
    row.finalScore
  }

  /** Numbering a descending permutation of the results 1, 2, ... gives a ranking. */
  lemma RankedRowsAreRanking(rows: seq<AhpResult>, sorted: seq<ResultRow>, results: seq<ResultRow>)
    requires |rows| == |sorted|
    requires forall k :: 0 <= k < |rows| ==> rows[k] == AhpResult(sorted[k].studentId, sorted[k].finalScore, k + 1)
    requires SortedDescending(sorted, ScoreKey)
    requires multiset(sorted) == multiset(results)
    ensures IsRanking(rows, results)
  {
    assert |sorted| == |multiset(sorted)| == |multiset(results)| == |results|;
    assert Unranked(rows) == sorted;
  }

  /** The model of `AHPCalculation`: the results table it owns. */
  class AhpCalculation {
    /** The rows of `ahp_results`. */
    var ahpResults: seq<AhpResult>

    constructor(table: seq<AhpResult>)
      ensures ahpResults == table
    {
      ahpResults := table;
    }

    /**
     * Lines 10-80. Returns false, leaving the table as it was, when no
     * criterion has a positive weight; otherwise the table is replaced by
     * the ranking of every student's weighted score over those criteria.
     */
    method CalculateAhp(students: seq<Student>, criteria: seq<Criterion>, scores: seq<StudentScore>) returns (ok: bool)
      modifies this
      ensures ok <==> WeightedCriteria(criteria) != []
      ensures !ok ==> ahpResults == old(ahpResults)
      ensures ok ==> IsRanking(ahpResults, Computed(students, WeightedCriteria(criteria), scores))
    {
      var weighted := WeightedCriteria(criteria);
      if weighted == [] {
        return false;
      }
      ahpResults := [];

      var results := ScoreStudents(students, weighted, scores);

      var a := new ResultRow[|results|](k requires 0 <= k < |results| => results[k]);
      assert a[..] == results;
      SortDescending(a, ScoreKey);
      var sorted := a[..];

      for index := 0 to |sorted|
        invariant |ahpResults| == index
        invariant forall k :: 0 <= k < index ==> ahpResults[k] == AhpResult(sorted[k].studentId, sorted[k].finalScore, k + 1)
      {
        var result := sorted[index];
        ahpResults := ahpResults + [AhpResult(result.studentId, result.finalScore, index + 1)];
      }
      RankedRowsAreRanking(ahpResults, sorted, results);
      return true;
    }
  }

  /** Lines 34-57: the student loop, one result row per student in student order. */
  method ScoreStudents(students: seq<Student>, criteria: seq<Criterion>, scores: seq<StudentScore>) returns (results: seq<ResultRow>)
    ensures results == Computed(students, criteria, scores)
  {
    results := [];
    for s := 0 to |students|
      invariant |results| == s
      invariant forall k :: 0 <= k < s ==> results[k] == ResultRow(students[k].id, FinalScore(scores, students[k].id, criteria))
    {
      var finalScore := ScoreStudent(scores, students[s].id, criteria);
      results := results + [ResultRow(students[s].id, finalScore)];
    }
  }

  /** Lines 38-53: the criterion loop accumulating `$final_score` for one student. */
  method ScoreStudent(scores: seq<StudentScore>, studentId: Id, criteria: seq<Criterion>) returns (finalScore: real)
    ensures finalScore == FinalScore(scores, studentId, criteria)
  {
    ghost var terms := Terms(scores, studentId, criteria);
    finalScore := 0.0;
    for c := 0 to |criteria|
      invariant finalScore == Sum(terms[..c])
    {
      var score := ScoreOf(scores, studentId, criteria[c].id);
      var normalizedScore := score / 100.0;
      SumPrefixStep(terms, c, finalScore, normalizedScore * criteria[c].weight);
      finalScore := finalScore + normalizedScore * criteria[c].weight;
    }
    assert terms[..|criteria|] == terms;
  }
}
