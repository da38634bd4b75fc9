# AHP student ranking: a Dafny model

This project models the arithmetic core of an AHP (Analytic Hierarchy
Process) student-ranking application. It also models the list and string
logic around that core. All numbers are Dafny `real`, which is exact
rational arithmetic.

The application computes the ranking in three places, and their formulas
differ. Each copy is modelled as written:

- **Server function** (`supabase/functions/calculate-ahp/index.ts`, module `ServerAhp`). It builds the pairwise matrix from stored comparisons. It derives the weights by column normalisation and row averages, in nested loops. It scores every student as Σ (score/100)·weight, sorts the results and ranks them 1..N.
- **PHP engine** (`backend/models/AHPCalculation.php`, module `PhpRanking`). It keeps only the criteria with a positive weight and treats a missing score as 0. It sorts with `usort` and replaces the `ahp_results` table, which is modelled as a class field.
- **Criteria editor** (`src/components/CriteriaManagement.tsx`, module `CriteriaManagement`). It keeps a reciprocal 5-by-5 matrix. Its weight check has its own normalisation and its own λ, followed by CI, the random index, CR and a verdict.

Three smaller pieces complete the model:

- The client's demonstration run (`src/components/AHPCalculation.tsx`, module `DemoCalculation`).
- The client's student table (`src/components/StudentManagement.tsx`, module `StudentManagement`).
- Bearer-token extraction and token claims (`backend/config/jwt.php`, module `BearerToken`).

Three modules are shared by the others:

- `Matrices`: sums over reals, the matrix of ones, the reciprocal update, column normalisation and the priority vector.
- `Sorting`: an in-place descending insertion sort on an array, proved sorted and a permutation.
- `Common`: `Option`, a first-match search, the weights of a list of weighted items, and the ranks 1..N.

Where code works by updating state step by step, the model is imperative. That covers the server's loops and arrays, the PHP loops and results table, the component state of the three React components, and the in-place sort. Each method is proved against a specification function, and the properties the application relies on are lemmas about those functions.

Standard AHP normalises every column by its sum and takes λmax = (1/n)·Σᵢ (M·w)[i]/w[i]. The server copy normalises the same way (`index.ts` lines 104-131). The client copy (`CriteriaManagement.tsx` lines 57-73) divides row i by the sum of column i and computes λ as Σᵢ (M·w)[i]·w[i]. The model follows each copy's code, records the client's two formulas under Findings, and models the standard calculation beside them.

The component fixes its criteria at five (`CriteriaManagement.tsx` lines 16-26). The model's client calculation takes any 3 ≤ n ≤ 9, which covers n = 5 and keeps the random index non-zero.

## Model

| member | source | states |
|---|---|---|
| Common.WeightsOf | backend/models/AHPCalculation.php:48-50 | entry i is the weight of item i, one entry per item |
| Common.FindFirst | supabase/functions/calculate-ahp/index.ts:35-36 | `findIndex`: -1 exactly when no element matches, otherwise the first matching index |
| Common.RanksAreOneToN | supabase/functions/calculate-ahp/index.ts:80-84 | ranks equal to position + 1 are pairwise distinct and form exactly {1..N} |
| Sorting.SortDescending | supabase/functions/calculate-ahp/index.ts:74 | after the in-place sort the array is non-increasing by key and a permutation of its old contents |
| Sorting.SwapDown | backend/models/AHPCalculation.php:60-62 | one exchange of neighbours changes only those two cells and keeps the multiset |
| Matrices.Ones | supabase/functions/calculate-ahp/index.ts:31-32 | the initial n-by-n matrix is positive, with every entry 1 |
| Matrices.OnesIsReciprocal | supabase/functions/calculate-ahp/index.ts:31-32 | the all-ones matrix has a unit diagonal and is reciprocal |
| Matrices.SetPair | src/components/CriteriaManagement.tsx:48-53 | after writing v at (i,j) and 1/v at (j,i), (j,i) holds 1/v, (i,j) holds v unless i = j, and every other entry is unchanged |
| Matrices.SetPairKeepsReciprocal | src/components/CriteriaManagement.tsx:48-53 | a positive update keeps the matrix positive with M[a][b]·M[b][a] = 1 for all a ≠ b |
| Matrices.SetPairKeepsUnitDiagonal | src/components/CriteriaManagement.tsx:48-53 | an update with i ≠ j keeps every diagonal entry 1 |
| Matrices.Normalize | supabase/functions/calculate-ahp/index.ts:112-118 | every entry is divided by the (positive) sum of its own column |
| Matrices.Weights | supabase/functions/calculate-ahp/index.ts:120-128 | weight i is the average of row i of the normalised matrix |
| Matrices.NormalizedColumnSum | supabase/functions/calculate-ahp/index.ts:104-118 | every column of the normalised matrix sums to exactly 1 |
| Matrices.SumRowsIsSumColumns | supabase/functions/calculate-ahp/index.ts:104-128 | adding a matrix up by rows or by columns gives the same total |
| Matrices.WeightsSumToOne | supabase/functions/calculate-ahp/index.ts:101-131 | for any non-empty positive matrix the weights sum to exactly 1 |
| Matrices.WeightsInUnitInterval | supabase/functions/calculate-ahp/index.ts:120-130 | every weight is in (0, 1], and below 1 once there are two or more criteria |
| Matrices.WeightsArePriorities | supabase/functions/calculate-ahp/index.ts:120-130 | sum 1, every weight in (0, 1], and every weight below 1 for n ≥ 2 |
| Matrices.RatioMatrix | supabase/functions/calculate-ahp/index.ts:101-131 | the perfectly consistent matrix p[i]/p[j] is positive |
| Matrices.RatioMatrixIsReciprocal | supabase/functions/calculate-ahp/index.ts:101-131 | a consistent matrix has a unit diagonal and is reciprocal |
| Matrices.WeightsOfRatioMatrix | supabase/functions/calculate-ahp/index.ts:101-131 | for a consistent matrix the normalised-column-average weights recover the priorities exactly: w[i] = p[i]/Σp |
| Matrices.ScaledScoreBounds | supabase/functions/calculate-ahp/index.ts:63 | a score in 0..100 divided by 100, times a non-negative weight, lies in [0, weight] |
| ServerAhp.FindIndex | supabase/functions/calculate-ahp/index.ts:35-36 | the first criterion with the id, or -1 exactly when there is none |
| ServerAhp.ApplyComparison | supabase/functions/calculate-ahp/index.ts:34-41 | one callback keeps the matrix square and n-by-n |
| ServerAhp.ApplyComparisonEntries | supabase/functions/calculate-ahp/index.ts:37-40 | with both ids found, (j,i) becomes 1/v, (i,j) becomes v unless i = j, and the rest is unchanged; an unknown id changes nothing |
| ServerAhp.BuiltMatrix | supabase/functions/calculate-ahp/index.ts:31-41 | the matrix after every comparison, starting from ones, is n-by-n |
| ServerAhp.BuildMatrix | supabase/functions/calculate-ahp/index.ts:31-41 | the loop yields the built matrix, which is all ones without comparisons and is positive and reciprocal |
| ServerAhp.BuiltMatrixIsReciprocal | supabase/functions/calculate-ahp/index.ts:38-39 | with positive values, M[i][j]·M[j][i] = 1 for every i ≠ j |
| ServerAhp.BuiltMatrixUnitDiagonal | supabase/functions/calculate-ahp/index.ts:31-41 | without self-comparisons the diagonal stays 1 |
| ServerAhp.BuiltMatrixLastWriteWins | supabase/functions/calculate-ahp/index.ts:34-41 | when no later comparison touches the pair, comparison k's value v and 1/v are what the matrix holds |
| ServerAhp.ApplyComparisonUntouched | supabase/functions/calculate-ahp/index.ts:37-40 | a comparison that resolves to neither (i,j) nor (j,i) leaves (i,j) unchanged |
| ServerAhp.ColumnSums | supabase/functions/calculate-ahp/index.ts:104-110 | the nested loop fills `columnSums[j]` with the sum of column j |
| ServerAhp.NormalizeColumns | supabase/functions/calculate-ahp/index.ts:112-118 | the 2-D array holds the column-normalised matrix |
| ServerAhp.RowAverages | supabase/functions/calculate-ahp/index.ts:120-128 | weight i is the sum of row i over n |
| ServerAhp.CalculateWeights | supabase/functions/calculate-ahp/index.ts:101-131 | the three loops compute `Weights(m)`, which sums to 1, with every weight in (0, 1] |
| ServerAhp.ScoreIndex | supabase/functions/calculate-ahp/index.ts:59-61 | `scores.find` gives a row for the (student, criterion) pair with no matching row before it, or -1 exactly when there is none |
| ServerAhp.Contribution | supabase/functions/calculate-ahp/index.ts:59-64 | 0 when the student has no row for the criterion, otherwise the first such row's score/100 times the weight |
| ServerAhp.Contributions | supabase/functions/calculate-ahp/index.ts:58-65 | one contribution per criterion |
| ServerAhp.FinalScore | supabase/functions/calculate-ahp/index.ts:55-65 | the sum of the contributions; its bounds are stated by FinalScoreBounds, its full-marks value by FullMarksScoreSumOfWeights, and its value without scores by UnscoredStudentGetsZero |
| ServerAhp.FinalScoreBounds | supabase/functions/calculate-ahp/index.ts:55-71 | with scores in 0..100 and non-negative weights, 0 ≤ finalScore ≤ Σ weights |
| ServerAhp.ContributionBounds | supabase/functions/calculate-ahp/index.ts:62-64 | one criterion adds between 0 and its weight |
| ServerAhp.FullMarksScoreSumOfWeights | supabase/functions/calculate-ahp/index.ts:58-65 | a student scored 100 on every criterion gets exactly Σ weights |
| ServerAhp.UnscoredStudentGetsZero | supabase/functions/calculate-ahp/index.ts:59-64 | a student without score rows gets 0 |
| ServerAhp.Scored | supabase/functions/calculate-ahp/index.ts:55-71 | one result per student |
| ServerAhp.ScoreStudent | supabase/functions/calculate-ahp/index.ts:56-65 | the `forEach` accumulation equals the sum of the contributions |
| ServerAhp.ScoreStudents | supabase/functions/calculate-ahp/index.ts:55-71 | `students.map` gives one result per student, in student order, with that student's final score |
| ServerAhp.WithRanks | supabase/functions/calculate-ahp/index.ts:80-84 | one ranked row per sorted result |
| ServerAhp.RankResults | supabase/functions/calculate-ahp/index.ts:74-84 | the rows are the results reordered (a permutation), non-increasing by final score, ranked position + 1 |
| ServerAhp.RankingProperties | supabase/functions/calculate-ahp/index.ts:80-84 | ranks are distinct and exactly 1..N, and rank 1 holds the highest final score |
| ServerAhp.CalculateAhp | supabase/functions/calculate-ahp/index.ts:20-91 | fails with "Missing required data" exactly when there are no students or no criteria; otherwise the weights are those of the built matrix, they sum to 1, and the rows rank every student |
| PhpRanking.WeightedCriteria | backend/models/AHPCalculation.php:19-22 | exactly the criteria with weight > 0 take part |
| PhpRanking.ScoreOf | backend/models/AHPCalculation.php:45-46 | a missing (student, criterion) score reads as 0; otherwise it is one of that pair's stored scores |
| PhpRanking.Terms | backend/models/AHPCalculation.php:48-50 | one weighted term per criterion |
| PhpRanking.FinalScore | backend/models/AHPCalculation.php:38-51 | the sum of the terms; its bounds are stated by FinalScoreBounds and its value without scores by UnscoredStudentGetsZero |
| PhpRanking.TermBounds | backend/models/AHPCalculation.php:48-50 | each term lies between 0 and the criterion's weight |
| PhpRanking.FinalScoreBounds | backend/models/AHPCalculation.php:35-51 | with scores in 0..100 and positive weights, 0 ≤ final_score ≤ Σ weights |
| PhpRanking.UnscoredStudentGetsZero | backend/models/AHPCalculation.php:45-50 | a student without any stored score ends with 0 |
| PhpRanking.Computed | backend/models/AHPCalculation.php:34-57 | one result per student, in student order, carrying that student's id |
| PhpRanking.ScoreStudent | backend/models/AHPCalculation.php:38-51 | the inner `foreach` accumulates the student's final score |
| PhpRanking.ScoreStudents | backend/models/AHPCalculation.php:34-57 | the outer `foreach` builds exactly the computed results |
| PhpRanking.RankedRowsAreRanking | backend/models/AHPCalculation.php:59-73 | numbering a descending permutation of the results 1, 2, ... gives a ranking of them |
| PhpRanking.RanksDistinctOneToN | backend/models/AHPCalculation.php:65-66 | in a ranking, ranks are distinct and exactly 1..N |
| PhpRanking.RankingCoversStudents | backend/models/AHPCalculation.php:34-57 | every student has a row in the ranking |
| PhpRanking.RankingOnlyStudents | backend/models/AHPCalculation.php:34-57 | every row of the ranking belongs to a student |
| PhpRanking.AhpCalculation.CalculateAhp | backend/models/AHPCalculation.php:10-80 | returns false and leaves the table untouched exactly when no criterion has a positive weight; otherwise the table holds only the new ranking of every student |
| CriteriaManagement.RandomIndex | src/components/CriteriaManagement.tsx:74 | RI is zero exactly for n ≤ 2 and never negative |
| CriteriaManagement.CriteriaManager.constructor | src/components/CriteriaManagement.tsx:24-26 | the matrix starts as the 5-by-5 matrix of ones, valid and with a unit diagonal |
| CriteriaManagement.CriteriaManager.UpdateMatrix | src/components/CriteriaManagement.tsx:48-53 | the matrix becomes SetPair(old, i, j, v), stays positive and reciprocal, and keeps a unit diagonal when i ≠ j |
| CriteriaManagement.ClientNormalize | src/components/CriteriaManagement.tsx:57-60 | entry (i, j) is divided by the sum of column i (not column j) |
| CriteriaManagement.ClientWeights | src/components/CriteriaManagement.tsx:62-65 | weight i is the average of normalised row i |
| CriteriaManagement.ClientWeightIsRowOverColumn | src/components/CriteriaManagement.tsx:57-65 | normalised row i sums to (row i sum)/(column i sum) |
| CriteriaManagement.ClientWeightsOfOnes | src/components/CriteriaManagement.tsx:24-26 | for the all-ones matrix every weight is 1/n |
| CriteriaManagement.Products | src/components/CriteriaManagement.tsx:69-70 | entry k is a[k]·b[k], one per pair of entries |
| CriteriaManagement.WeightedSums | src/components/CriteriaManagement.tsx:69 | (M·w)[i] = Σⱼ M[i][j]·w[j] |
| CriteriaManagement.ClientLambda | src/components/CriteriaManagement.tsx:68-71 | Σᵢ (M·w)[i]·w[i] is positive for a positive matrix and positive weights; its value for the initial matrix is stated by UniformLambda and ClientLambdaOfOnes |
| CriteriaManagement.ConsistencyIndex | src/components/CriteriaManagement.tsx:73 | CI is 0 exactly when λ = n and negative exactly when λ < n |
| CriteriaManagement.UniformLambda | src/components/CriteriaManagement.tsx:68-71 | the client's λ of an all-ones matrix with weights 1/n is 1 |
| CriteriaManagement.ClientLambdaOfOnes | src/components/CriteriaManagement.tsx:68-73 | for the initial matrix λ = 1 and CI = -1, not 0 |
| CriteriaManagement.CalculateWeights | src/components/CriteriaManagement.tsx:55-96 | the weights are the client's weights, CR is the client's ratio, and the verdict is "consistent" exactly when CR ≤ 0.1 |
| CriteriaManagement.ClientRatio | src/components/CriteriaManagement.tsx:73-75 | CR = CI / RI, with CI from the client's λ and weights; its value for the initial matrix is stated by ClientReportOfOnes |
| CriteriaManagement.ClientReportOfOnes | src/components/CriteriaManagement.tsx:67-82 | the initial matrix is reported with CR = -1/1.11 and "consistent" |
| CriteriaManagement.ExampleMatrix | src/components/CriteriaManagement.tsx:48-53 | one update (0, 1, 2) of the initial matrix gives a 5-by-5 positive matrix |
| CriteriaManagement.ClientWeightsNeedNotSumToOne | src/components/CriteriaManagement.tsx:57-65 | after that single update the weights are 4/15, 3/20, 1/5, 1/5, 1/5, which sum to 61/60 |
| CriteriaManagement.CorrectedCalculateWeights | src/components/CriteriaManagement.tsx:55-96 | with column normalisation, the weights sum to 1 and each lies in (0, 1); CR is the standard ratio, and the verdict is CR ≤ 0.1 |
| CriteriaManagement.Quotients | src/components/CriteriaManagement.tsx:68-71 | entry k is a[k]/b[k], one per pair of entries |
| CriteriaManagement.LambdaMax | src/components/CriteriaManagement.tsx:68-71 | λmax, the average of (M·w)[i]/w[i], is positive for a positive matrix; ConsistentLambdaMax shows it is n for a consistent matrix |
| CriteriaManagement.StandardRatio | src/components/CriteriaManagement.tsx:73-75 | CR = CI / RI from λmax and the column-normalised weights; CorrectedReportOfConsistentMatrix shows it is 0 for a consistent matrix |
| CriteriaManagement.ConsistentLambdaMax | src/components/CriteriaManagement.tsx:68-71 | for a consistent matrix λmax is exactly n |
| CriteriaManagement.CorrectedReportOfConsistentMatrix | src/components/CriteriaManagement.tsx:67-82 | a consistent matrix gets CR = 0 and "consistent" |
| DemoCalculation.WeightedScores | src/components/AHPCalculation.tsx:50-52 | term i is normalizedScores[i]·criteria[i].weight |
| DemoCalculation.AhpScore | src/components/AHPCalculation.tsx:49-52 | the sum of the weighted scores; its bounds are stated by AhpScoreBounds and the demo values by DemoScores |
| DemoCalculation.Score | src/components/AHPCalculation.tsx:49-59 | the record keeps the student's name and scores, carries the ahpScore, and its percentage is ahpScore·100 |
| DemoCalculation.ScoreAll | src/components/AHPCalculation.tsx:49-59 | one scored record per student, in order |
| DemoCalculation.DemoWeightsSumToOne | src/components/AHPCalculation.tsx:14-20 | the fixed weights sum to 1 |
| DemoCalculation.AhpScoreBounds | src/components/AHPCalculation.tsx:49-52 | with normalised scores in [0, 1] and non-negative weights, the score lies in [0, Σ of the weights used] |
| DemoCalculation.DemoScoresInUnitInterval | src/components/AHPCalculation.tsx:14-59 | every demo score is in [0, 1], and every percentage is in [0, 100] |
| DemoCalculation.DemoScores | src/components/AHPCalculation.tsx:22-52 | the three demo scores are 0.8853, 0.9415 and 0.8761 |
| DemoCalculation.ScoreAndSort | src/components/AHPCalculation.tsx:49-62 | the sorted results are non-increasing by ahpScore and a permutation of the scored students |
| DemoCalculation.DemoRanking | src/components/AHPCalculation.tsx:62 | any descending permutation of the demo results is Siti Nurhaliza, Ahmad Rizki, Budi Santoso |
| DemoCalculation.DemoCalculator.constructor | src/components/AHPCalculation.tsx:11-12 | step 0 and no results, recorded as the first history entry |
| DemoCalculation.DemoCalculator.CalculateAhp | src/components/AHPCalculation.tsx:40-72 | the step moves through 1, 2 and 3 while the results keep their old value, and only then are the results set: sorted descending and a permutation of the scored students |
| DemoCalculation.DemoCalculator.ResetCalculation | src/components/AHPCalculation.tsx:74-77 | the step returns to 0 while the old results are still there, and then the results are cleared |
| StudentManagement.ToNumber | src/components/StudentManagement.tsx:82-86 | `Number('')` is 0, and a number reads back as itself |
| StudentManagement.FromForm | src/components/StudentManagement.tsx:78-87 | the record carries the form's three text fields, its five scores read with `Number`, and the given id |
| StudentManagement.ToForm | src/components/StudentManagement.tsx:127-137 | loading a record into the form and reading it back with the same id gives the record |
| StudentManagement.MaxId | src/components/StudentManagement.tsx:100 | `Math.max(...ids, 0)` is ≥ 0 and ≥ every id, and is either 0 or one of the ids |
| StudentManagement.Add | src/components/StudentManagement.tsx:98-102 | the old records stay in place, and the form's record is appended with a positive id above every old id |
| StudentManagement.AddKeepsIds | src/components/StudentManagement.tsx:98-102 | adding keeps ids pairwise distinct and positive |
| StudentManagement.Edit | src/components/StudentManagement.tsx:90-92 | the length is kept |
| StudentManagement.EditKeepsPlaces | src/components/StudentManagement.tsx:89-92 | same length and ids in place; records with another id are unchanged; records with the id become the form's record with that id |
| StudentManagement.EditKeepsIds | src/components/StudentManagement.tsx:89-92 | editing keeps ids pairwise distinct and positive |
| StudentManagement.Delete | src/components/StudentManagement.tsx:143 | the result is no longer than the input |
| StudentManagement.DeleteMembers | src/components/StudentManagement.tsx:143 | a record survives exactly when it was present and its id differs |
| StudentManagement.DeleteConcat | src/components/StudentManagement.tsx:143 | filtering distributes over concatenation, so the kept records stay in order |
| StudentManagement.DeleteAbsent | src/components/StudentManagement.tsx:143 | deleting an id nobody has changes nothing |
| StudentManagement.DeleteKeepsIds | src/components/StudentManagement.tsx:142-143 | deleting keeps ids pairwise distinct and positive |
| StudentManagement.StudentManager.constructor | src/components/StudentManagement.tsx:25-73 | the three initial students, an empty form, no editing id, the dialog closed; ids distinct and positive |
| StudentManagement.StudentManager.HandleSubmit | src/components/StudentManagement.tsx:75-111 | a truthy editing id edits and a null or 0 id adds; then the form is empty, the editing id is null and the dialog is closed; ids stay distinct and positive |
| StudentManagement.StudentManager.ResetForm | src/components/StudentManagement.tsx:113-125 | the form is empty and the editing id is null; the list is unchanged |
| StudentManagement.StudentManager.HandleEdit | src/components/StudentManagement.tsx:127-140 | the form holds the student's fields, the editing id is the student's id, and the dialog is open |
| StudentManagement.StudentManager.HandleDelete | src/components/StudentManagement.tsx:142-148 | the list loses exactly that id's records, and ids stay distinct and positive |
| StudentManagement.EditWithLoadedFormIsIdentity | src/components/StudentManagement.tsx:127-137 | submitting an unchanged, freshly loaded record leaves a list with distinct ids as it was |
| BearerToken.IsSpace | backend/config/jwt.php:36 | the characters `\s` matches: space, tab, line feed, vertical tab, form feed, carriage return; used by FindMatch and RunEnd |
| BearerToken.MatchesAt | backend/config/jwt.php:36 | "Bearer", one whitespace character and a non-whitespace character start at the position; FindMatch and ExtractBearer are stated in its terms |
| BearerToken.RunEnd | backend/config/jwt.php:36 | the greedy `\S+` stops at the first whitespace or at the end |
| BearerToken.FindMatch | backend/config/jwt.php:36 | the leftmost position where "Bearer", one whitespace character and a non-whitespace character start; none exactly when no position matches |
| BearerToken.ExtractBearer | backend/config/jwt.php:36-37 | no token exactly when the pattern matches nowhere; a token is non-empty and has no whitespace |
| BearerToken.ExtractedTokenIsLeftmostMaximalRun | backend/config/jwt.php:36-37 | the token is the maximal whitespace-free run after the leftmost match |
| BearerToken.GetTokenFromHeader | backend/config/jwt.php:32-41 | null without an `Authorization` entry; otherwise the extraction from that header |
| BearerToken.PlainHeader | backend/config/jwt.php:36-37 | "Bearer abc" gives "abc" |
| BearerToken.PrefixedHeader | backend/config/jwt.php:36-37 | the match is unanchored, and the token stops at whitespace: "xBearer\tab cd" gives "ab" |
| BearerToken.RejectedHeaders | backend/config/jwt.php:36-40 | two spaces after "Bearer", or lower-case "bearer", give null |
| BearerToken.GeneratePayload | backend/config/jwt.php:11-18 | iss "spk-system", aud "spk-users", iat is the first clock reading, exp is the second reading + 86400, so exp − iat ≥ 86400 |

## Left out

- Database and network I/O are left out: the SQL statements, the Supabase client, `getallheaders()` and the HTTP responses. Their inputs are parameters and their writes are results or fields.
- The server's weight updates on the criteria table and its delete and insert on `ahp_results` are not modelled as writes. The handler returns the weights and the rows instead.
- PhpRanking.AhpCalculation.CalculateAhp does not model a database error after the table was cleared. The source would return false with the table already emptied. Only the "no weighted criteria" path to false is modelled.
- The row order of an SQL `SELECT` without `ORDER BY` is not modelled. The table order is used, and "the first matching score row" means the first in that order.
- `getResults` and `resetResults` of the PHP class are not modelled, because they are plain reads and deletes.
- CORS, routing, status codes, `toast`, `console.log`, `error_log` and the `setTimeout` pauses are left out, because they are side effects with no bearing on the results.
- Floating point is not modelled: IEEE rounding, NaN/Infinity and `toFixed(2)`. All arithmetic is exact. A comparison value of 0, which would give Infinity, is excluded by requiring positive values.
- CriteriaManagement.CalculateWeights takes 3 ≤ n ≤ 9 criteria. The component always has five, so this range covers it while keeping the random index non-zero. Sizes the component never reaches are not modelled.
- The display rank `index + 1` in the demo's results table (`AHPCalculation.tsx` line 186) is rendering only. `Common.RanksAreOneToN` states the property for rank-numbered lists.
- Sorting.SortDescending is stable by construction, but stability is not stated as a postcondition. Only "non-increasing and a permutation" is proved.
- CriteriaManagement.CriteriaManager.UpdateMatrix does not model the aliasing of rows by the shallow copy `[...pairwiseMatrix]`. The old state's rows are mutated in place, and that is not observable in the model's value semantics.
- Parsing typed text with `Number(...)` is not modelled. A score field is either empty, which reads as 0, or a number.
- The generated Supabase types (`criteria_comparison`/`value` against `criteria_comparisons`/`comparison_value`) are not modelled. Comparisons are abstract (criterion 1, criterion 2, value) records.
- JWT signing and verification (`JWT::encode`/`decode`, `validateToken`) are not part of this model, because they are library calls.
- The `ahpScale` labels and the demo's raw `scores` arrays are carried as data only.

## Findings

| source | as written | input that shows it | evidently intended | confidence | as-written member | corrected member |
|---|---|---|---|---|---|---|
| src/components/CriteriaManagement.tsx:57-60 | row i is divided by the sum of column i, so the weights need not sum to 1 | the initial matrix after `updateMatrix(0, 1, 2)`: weights 4/15, 3/20, 1/5, 1/5, 1/5, summing to 61/60 | column normalisation (entry (i, j) over the sum of column j), whose weights always sum to 1 | not executed | CriteriaManagement.ClientWeightsNeedNotSumToOne | CriteriaManagement.CorrectedCalculateWeights |
| src/components/CriteriaManagement.tsx:68-73 | λ = Σᵢ (M·w)[i]·w[i], which is about 1 rather than n for a consistent matrix, so CI is about -1 | the initial all-ones matrix: λ = 1, CI = -1 and CR = -1/1.11 | λmax = (1/n)·Σᵢ (M·w)[i]/w[i], which is exactly n for a consistent matrix, giving CI = CR = 0 | not executed | CriteriaManagement.ClientLambdaOfOnes | CriteriaManagement.CorrectedReportOfConsistentMatrix |
