/**
 * The client's demonstration run (src/components/AHPCalculation.tsx): five
 * fixed criterion weights, three students with pre-normalised scores, a
 * weighted sum per student, a descending sort, and the three-step progress
 * indicator. The one-second pauses and the toast are not modelled.
 */
module DemoCalculation {
  import opened Common
  import opened Matrices
  import opened Sorting

  datatype DemoCriterion = DemoCriterion(name: string, weight: real)

  datatype DemoStudent = DemoStudent(name: string, scores: seq<int>, normalizedScores: seq<real>)

  /** `{ ...student, ahpScore, percentage }`, with the percentage before `toFixed(2)`. */
  datatype ScoredStudent = ScoredStudent(student: DemoStudent, ahpScore: real, percentage: real)

  /** Lines 14-20. */
  const Criteria: seq<DemoCriterion> := [
    DemoCriterion("Akademik", 0.35),
    DemoCriterion("Perilaku", 0.25),
    DemoCriterion("Prestasi", 0.20),
    DemoCriterion("Kepemimpinan", 0.12),
    DemoCriterion("Kehadiran", 0.08)
  ]

  /** Lines 22-38. */
  const Students: seq<DemoStudent> := [
    DemoStudent("Ahmad Rizki", [85, 90, 75, 80, 95], [0.89, 0.94, 0.79, 0.84, 1.0]),
    DemoStudent("Siti Nurhaliza", [92, 88, 85, 90, 96], [0.97, 0.92, 0.89, 0.95, 1.0]),
    DemoStudent("Budi Santoso", [88, 85, 70, 85, 92], [0.92, 0.89, 0.74, 0.89, 0.96])
  ]

  /** The weight of one criterion. */
  function CriterionWeight(c: DemoCriterion): real
  {
    c.weight
  }

  /** The terms normalizedScores[i]·criteria[i].weight of the `reduce`. */
  function WeightedScores(normalized: seq<real>, criteria: seq<DemoCriterion>): (t: seq<real>)
    requires |normalized| <= |criteria|
    ensures |t| == |normalized|
    ensures forall i :: 0 <= i < |normalized| ==> t[i] == normalized[i] * criteria[i].weight
  {
    seq(|normalized|, i requires 0 <= i < |normalized| => normalized[i] * criteria[i].weight)
  }

  /**
   * Lines 50-52: the `reduce` from 0 adding score·criteria[index].weight.
   * `criteria[index]` must exist, so there are at most as many scores as criteria.
   */
  function AhpScore(normalized: seq<real>, criteria: seq<DemoCriterion>): real
    requires |normalized| <= |criteria|
  {
    Sum(WeightedScores(normalized, criteria))
  }

  /** Lines 49-59: the student record extended with its score and percentage. */
  function Score(student: DemoStudent, criteria: seq<DemoCriterion>): (r: ScoredStudent)
    requires |student.normalizedScores| <= |criteria|
    ensures r.student == student
    ensures r.ahpScore == AhpScore(student.normalizedScores, criteria)
    ensures r.percentage == r.ahpScore * 100.0
  {
    var ahpScore := AhpScore(student.normalizedScores, criteria);
    ScoredStudent(student, ahpScore, ahpScore * 100.0)
  }

  predicate ScoresFit(students: seq<DemoStudent>, criteria: seq<DemoCriterion>)
  {
    forall k :: 0 <= k < |students| ==> |students[k].normalizedScores| <= |criteria|
  }

  /** `students.map(...)`, lines 49-59: one scored record per student, in student order. */
  function ScoreAll(students: seq<DemoStudent>, criteria: seq<DemoCriterion>): (rs: seq<ScoredStudent>)
    requires ScoresFit(students, criteria)
    ensures |rs| == |students|
    ensures forall k :: 0 <= k < |students| ==> rs[k] == Score(students[k], criteria)
  {
    seq(|students|, k requires 0 <= k < |students| => Score(students[k], criteria))
  }

  function AhpScoreKey(r: ScoredStudent): real
  {
    r.ahpScore
  }

  /** The fixed weights sum to 1. */
  lemma DemoWeightsSumToOne()
    ensures Sum(WeightsOf(Criteria, CriterionWeight)) == 1.0
  {
    SumOfFive(WeightsOf(Criteria, CriterionWeight));
  }

  /**
   * With normalised scores in [0, 1] and non-negative weights, a score lies
   * between 0 and the sum of the weights it uses.
   */
  lemma AhpScoreBounds(normalized: seq<real>, criteria: seq<DemoCriterion>)
    requires |normalized| <= |criteria|
    requires forall i :: 0 <= i < |normalized| ==> 0.0 <= normalized[i] <= 1.0
    requires forall i :: 0 <= i < |criteria| ==> criteria[i].weight >= 0.0
    ensures 0.0 <= AhpScore(normalized, criteria) <= Sum(WeightsOf(criteria[..|normalized|], CriterionWeight))
  {
    var t := WeightedScores(normalized, criteria);
    var w := WeightsOf(criteria[..|normalized|], CriterionWeight);
    forall i | 0 <= i < |t|
      ensures 0.0 <= t[i] <= w[i]
    {
      FractionOfWeight(normalized[i], w[i], t[i]);
    }
    SumNonNegative(t);
    SumMonotone(t, w);
  }

  /** A fraction in [0, 1] of a non-negative weight lies between 0 and the weight. */
  lemma FractionOfWeight(f: real, weight: real, product: real)
    requires 0.0 <= f <= 1.0 && weight >= 0.0 && product == f * weight
    ensures 0.0 <= product <= weight
  {
    assert f * weight <= 1.0 * weight;
  }

  /** Every demo student's score lies in [0, 1], so its percentage lies in [0, 100]. */
  lemma DemoScoresInUnitInterval()
    ensures ScoresFit(Students, Criteria)
    ensures forall k :: 0 <= k < |Students| ==>
      0.0 <= ScoreAll(Students, Criteria)[k].ahpScore <= 1.0 &&
      0.0 <= ScoreAll(Students, Criteria)[k].percentage <= 100.0
  {
    forall k | 0 <= k < |Students|
      ensures 0.0 <= ScoreAll(Students, Criteria)[k].ahpScore <= 1.0
    {
      AhpScoreBounds(Students[k].normalizedScores, Criteria);
      assert Criteria[..5] == Criteria;
      DemoWeightsSumToOne();
    }
  }

  /** Lines 49-62: `students.map(...)` into an array, then `ahpResults.sort` by score, highest first. */
  method ScoreAndSort(students: seq<DemoStudent>, criteria: seq<DemoCriterion>) returns (sorted: seq<ScoredStudent>)
    requires ScoresFit(students, criteria)
    ensures SortedDescending(sorted, AhpScoreKey)
    ensures multiset(sorted) == multiset(ScoreAll(students, criteria))
  {
    var ahpResults := ScoreAll(students, criteria);
    var a := new ScoredStudent[|ahpResults|](k requires 0 <= k < |ahpResults| => ahpResults[k]);
    assert a[..] == ahpResults;
    SortDescending(a, AhpScoreKey);
    sorted := a[..];
  }

  /** The model of the component's state: the progress step and the results. */
  class DemoCalculator {
    /** `calculationStep`: 0 before a run, 1 to 3 while it runs. */
    var calculationStep: int
    /** `results`: null until a run finishes. */
    var results: Option<seq<ScoredStudent>>
    /**
     * Each value `calculationStep` has been given, in order, paired with what
     * `results` held at that moment.
     */
    ghost var stepHistory: seq<(int, Option<seq<ScoredStudent>>)>

    /** Lines 11-12. */
    constructor()
      ensures calculationStep == 0 && results == None && stepHistory == [(0, None)]
    {
      calculationStep := 0;
      results := None;
      stepHistory := [(0, None)];
    }

    /**
     * Lines 40-72: the step goes 1, 2, 3 while the results keep their old
     * value, and only then are the results set; they are the scored students,
     * sorted by score from the highest down.
     */
    method CalculateAhp()
      modifies this
      ensures stepHistory == old(stepHistory) + [(1, old(results)), (2, old(results)), (3, old(results))]
      ensures calculationStep == 3
      ensures results.Some?
      ensures SortedDescending(results.value, AhpScoreKey)
      ensures multiset(results.value) == multiset(ScoreAll(Students, Criteria))
    {
      calculationStep := 1;
      stepHistory := stepHistory + [(1, results)];
      calculationStep := 2;
      stepHistory := stepHistory + [(2, results)];
      assert ScoresFit(Students, Criteria);
      var ahpResults := ScoreAndSort(Students, Criteria);
      calculationStep := 3;
      stepHistory := stepHistory + [(3, results)];
      results := Some(ahpResults);
    }

    /** Lines 74-77: the step returns to 0, and then the results are cleared. */
    method ResetCalculation()
      modifies this
      ensures calculationStep == 0 && results == None
      ensures stepHistory == old(stepHistory) + [(0, old(results))]
    {
      calculationStep := 0;
      stepHistory := stepHistory + [(0, results)];
      results := None;
    }
  }

  /**
   * Any descending permutation of the demo's scored students is Siti
   * Nurhaliza (0.9415), Ahmad Rizki (0.8853), Budi Santoso (0.8761).
   */
  lemma DemoRanking(r: seq<ScoredStudent>)
    requires ScoresFit(Students, Criteria)
    requires multiset(r) == multiset(ScoreAll(Students, Criteria))
    requires SortedDescending(r, AhpScoreKey)
    ensures |r| == 3
    ensures r[0].student.name == "Siti Nurhaliza" && r[0].ahpScore == 0.9415
    ensures r[1].student.name == "Ahmad Rizki" && r[1].ahpScore == 0.8853
    ensures r[2].student.name == "Budi Santoso" && r[2].ahpScore == 0.8761
  {
    var all := ScoreAll(Students, Criteria);
    DemoScores();
    assert all == [all[0], all[1], all[2]];
    assert |r| == |multiset(r)| == |multiset(all)| == 3;
    OrderOfThree(r, all[1], all[0], all[2]);
  }

  /** The three demo scores, worked out. */
  lemma DemoScores()
    ensures ScoresFit(Students, Criteria)
    ensures ScoreAll(Students, Criteria)[0].ahpScore == 0.8853
    ensures ScoreAll(Students, Criteria)[1].ahpScore == 0.9415
    ensures ScoreAll(Students, Criteria)[2].ahpScore == 0.8761
  {
    SumOfFive(WeightedScores(Students[0].normalizedScores, Criteria));
    SumOfFive(WeightedScores(Students[1].normalizedScores, Criteria));
    SumOfFive(WeightedScores(Students[2].normalizedScores, Criteria));
  }

  /**
   * A descending arrangement of three items drawn from {x, y, z} that contains
   * each once, with x above y above z, is [x, y, z].
   */
  lemma OrderOfThree(r: seq<ScoredStudent>, x: ScoredStudent, y: ScoredStudent, z: ScoredStudent)
    requires |r| == 3 && x.ahpScore > y.ahpScore > z.ahpScore
    requires SortedDescending(r, AhpScoreKey)
    requires multiset(r) == multiset{x, y, z}
    ensures r == [x, y, z]
  {
  }
}
