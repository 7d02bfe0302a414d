# Admissions simulator, modelled in Dafny

The program reads a CSV file of applicants. It scores every applicant twice:

- The **blind** model is a weighted sum of five merit features (GPA, test score, extracurriculars, essay, recommendation). Each feature is normalised to [0,1].
- The **aware** model adds equity bonuses to the blind score: low income, first generation, disability, legacy and local.

Each score is clamped to [0,1]. A score at or above the cutoff (0.82 by default) admits.

After scoring, the program does the following:

- It sorts a copy of the rows by each model's score, highest first, with a stable sort.
- It builds a name-to-rank map for each model.
- It prints one line per applicant with both ranks and their difference.
- It counts the decisions that flip between the models.
- It reports the admit rate of each model inside and outside five groups.

The model covers:

- The scoring functions of `Admissions.java`.
- The CSV line splitter of `Main.java`.
- The body of `main` after the applicant list is read.

Modules, one per file:

- `Admissions` (admissions.dfy): the configuration as an immutable datatype, `clamp01`, `nz`, both scores, and their properties.
- `Csv` (csv.dfy): `parseCSVLine`.
  - An imperative loop proved equal to a left fold, `Scan`.
  - The fold is characterised by quote parity.
- `Rows` (rows.dfy): the `Row` record, the decision rule and the scoring loop.
- `Ranking` (ranking.dfy): the two stable sorts, the rank maps and the results table.
  - The sort is an in-place insertion sort over an array of row positions.
  - Its sorted order is proved unique, so it is exactly what any stable sort yields.
- `Fairness` (fairness.dfy): the flip counters, `rate`, `summarizeGroup` and the five group reports.
- `Pipeline` (pipeline.dfy): the whole run, stage by stage, with its end-to-end properties and its determinism.
- `Collections` (collections.dfy): filtering, counting, sums and reindexing of sequences, shared by the other modules.
- `Scenarios` (scenarios.dfy): three worked runs with the built-in parameters.

## Model

| member | source | states |
|---|---|---|
| Admissions.DefaultConfig | Admissions.java:7-23 | the built-in parameters take the two property values as given; they are valid exactly when the test maximum is non-zero; the five weights are non-negative and sum to 1; the five bonuses are non-negative and sum to 0.18 |
| Admissions.DefaultsValid | Admissions.java:7-18 | with the properties unset, both maxima are positive and the low-income threshold is 40000 |
| Admissions.Clamp01 | Admissions.java:25-29 | the result lies in [0,1]; it is 0 below 0, 1 above 1 and the input itself inside |
| Admissions.Nz | Admissions.java:31-35 | a finite value passes through unchanged; NaN and both infinities become 0 |
| Admissions.BlindScore | Admissions.java:38-54 | the blind score always lies in [0,1] |
| Admissions.GpaSaturates | Admissions.java:40 | a GPA at or above the maximum normalises to 1; a negative, NaN or infinite GPA to 0; anything in between to GPA / maximum |
| Admissions.TestSaturates | Admissions.java:41 | the same for the test score against its maximum |
| Admissions.BlindMonotone | Admissions.java:38-54 | with non-negative weights and positive maxima, an applicant at least as strong on every feature has at least the blind score |
| Admissions.AwareScore | Admissions.java:57-67 | the aware score always lies in [0,1] |
| Admissions.BumpIsSum | Admissions.java:60-64 | one conditional increment adds the bonus to a running sum exactly when its condition holds |
| Admissions.AddBonusesIsSum | Admissions.java:60-64 | the five conditional increments add exactly the sum of the bonuses whose conditions hold, whatever the starting score |
| Admissions.AwareIsClampedTotal | Admissions.java:57-67 | the aware score is the clamp of the blind score plus the sum of the applicable bonuses; the bonuses stack and only the total is clamped |
| Admissions.BonusesSaturate | Admissions.java:66 | when blind score plus bonuses reach 1, the aware score is exactly 1 |
| Admissions.AwareAtLeastBlind | Admissions.java:58-66 | with no negative bonus, the aware score is never below the blind score |
| Admissions.NoContextNoChange | Admissions.java:58-66 | with no bonus condition true, the aware score equals the blind score |
| Admissions.ThresholdIncomeIsNotLow | Admissions.java:60 | an income equal to the threshold is not low income, because the comparison is strict |
| Csv.Trim | Main.java:19 | the result has no leading or trailing character up to U+0020; it is a contiguous slice of the input; only such characters were removed on either side |
| Csv.StepKeeps | Main.java:17-23 | one character flips the quote flag exactly when it is a quote; it loses no character except a quote or a separator outside quotes; it never changes a piece already split off and adds at most one |
| Csv.Scan | Main.java:16-24 | after a string, the quote flag is the parity of its quotes, and the pieces and the current field joined are every character except quotes and splitting separators |
| Csv.ScanSegments | Main.java:16-24 | after a string, the pieces are exactly the segments between successive splitting separators (a separator preceded by an even number of quotes), quotes dropped, and the current field is the segment after the last one |
| Csv.ScanInvariant | Main.java:16-24 | after any prefix of the line, the quote flag is the parity of the quotes read; one piece has been split off per separator outside quotes; the pieces and the current field joined are every character except quotes and splitting separators; no quote is ever collected |
| Csv.SplitLineShape | Main.java:11-27 | the line gives one field more than it has separators outside quotes; every field is trimmed and contains no quote |
| Csv.SplitLineContents | Main.java:16-25 | field k is the k-th segment of the line between splitting separators (from the line start, or just after the k-th such separator, to the next one or the line end), quotes dropped and trimmed; the untrimmed pieces joined are exactly the characters kept |
| Csv.ParseCsvLine | Main.java:11-27 | the loop returns the segments of the line between splitting separators, quotes dropped and trimmed, one more than there are splitting separators; it agrees with the fold `SplitLine` |
| Rows.Decide | Main.java:100-101 | Admitted holds exactly when the score is at or above the cutoff |
| Rows.DecisionBoundary | Main.java:100-101 | a score equal to the cutoff admits; any score below it rejects |
| Rows.ScoreRows | Main.java:96-103 | one row per applicant in input order, holding that applicant, both scores (in [0,1]) and the decision of each against the cutoff |
| Rows.ScoringUnique | Main.java:96-103 | the rows are determined by the applicant list, the configuration and the cutoff |
| Rows.NoDownshift | Main.java:100-101 | with no negative bonus, a row admitted by the blind model is admitted by the aware model |
| Ranking.Insert | Main.java:107 | one insertion-sort pass keeps the array a permutation of the positions, rearranges only the first i + 1 entries (their multiset is unchanged, the rest is untouched) and extends the sorted prefix by one |
| Ranking.StableSortDesc | Main.java:106-109 | the result is a permutation of the positions, ordered by key descending, with equal keys in input order |
| Ranking.OrderedUnique | Main.java:106-109 | two orders of the same positions that are both sorted by (key descending, position ascending) are equal |
| Ranking.SortedCopy | Main.java:106-109 | the copy is a permutation of the rows; scores do not increase along it; rows with equal scores keep their input order |
| Ranking.StableSortUnique | Main.java:106-109 | the stable sorted copy of the rows by a model's score, and its order, are unique |
| Ranking.BuildRankMap | Main.java:112-115 | the keys are exactly the names of the sorted copy; each name maps to one more than its last position, as successive `put`s leave it |
| Ranking.RankMapUnique | Main.java:114-115 | the rank map of a sorted copy is determined by it |
| Ranking.RankOfPosition | Main.java:114-115 | with distinct names, the row at position k of the sorted copy has rank k + 1 |
| Ranking.AllNamesRanked | Main.java:121-122 | every row's name is a key of both rank maps, so the lookups in the table loop always succeed |
| Ranking.RanksArePermutation | Main.java:112-115 | with distinct names, the ranks of the rows are 1 .. N, each exactly once |
| Ranking.ReportLines | Main.java:120-126 | one table line per row in input order: name, scores, decisions, both ranks looked up by name, and blind rank minus aware rank |
| Ranking.ReportUnique | Main.java:120-126 | the table is determined by the rows and the two rank maps |
| Ranking.DeltasCancel | Main.java:123 | when both rank columns are permutations of 1 .. N, the rank differences sum to zero |
| Ranking.DeltasSumToZero | Main.java:112-126 | with distinct names, both rank columns are permutations of 1 .. N and the reported rank deltas sum to zero |
| Fairness.FlipsUp | Main.java:130 | the count is the number of rows rejected by the blind model and admitted by the aware one |
| Fairness.FlipsDown | Main.java:131 | the count is the number of rows admitted by the blind model and rejected by the aware one |
| Fairness.FlipsBounded | Main.java:130-131 | the counts of upward and downward flips together never exceed the number of rows |
| Fairness.NoDownshifts | Main.java:131 | with no negative bonus, the downward flip count is zero |
| Fairness.Rate | Main.java:159-163 | zero for no rows; otherwise the rate times the row count is the number of rows satisfying the predicate; always in [0,1] |
| Fairness.RateMonotone | Main.java:159-163 | a predicate implied by another on every row has at least its rate |
| Fairness.SummarizeGroup | Main.java:145-157 | the summary carries the group's label and four rates in [0,1]; an empty side of the split has both rates 0 |
| Fairness.GroupPartition | Main.java:146-147 | the in-group and the out-group together hold every row exactly once; each holds only rows on its side of the predicate |
| Fairness.AwareRatesDominate | Main.java:146-152 | with no negative bonus, on both sides of any split, the aware admit rate is at least the blind one |
| Fairness.FairnessReport | Main.java:136-140 | five summaries in report order, one per group, with its label and membership predicate |
| Fairness.ReportDominates | Main.java:136-152 | with no negative bonus, every one of the five reported groups shows an aware admit rate at least the blind one, inside and outside the group |
| Pipeline.Evaluate | Main.java:90-140 | an empty applicant list stops the run; otherwise every stage's result meets its specification above, the flips are bounded; with no negative bonus no downshift happens and every reported group has aware admit rates at least the blind ones; and with distinct names the ranks are 1 .. N in each model and the deltas cancel |
| Pipeline.EvaluationProperties | Main.java:120-152 | every evaluation meeting the specification has the bounded flips, the absent downshifts, the dominating aware rates and, with distinct names, the rank-permutation and zero-sum properties |
| Pipeline.EvaluationUnique | Main.java:96-140 | two evaluations of the same input agree in every component, sort orders and rank maps included |
| Collections.Filter | Main.java:146-147 | the result keeps, with its multiplicity, every element satisfying the predicate and nothing else, and is no longer than the input |
| Collections.CountIsFilterLength | Main.java:130-131 | counting the elements that satisfy a predicate gives the length of the filtered sequence |
| Scenarios.TopScores | Admissions.java:38-67 | top marks score 1.0 blind; the low-income, first-generation bonuses lift the total to 1.1, which the aware model clamps to 1.0 |
| Scenarios.TieScenario | Main.java:106-126 | two applicants tied at 1.0 in both models are both admitted, keep their input order in both sorted copies, and are ranked 1 and 2 with delta 0 |
| Scenarios.UpshiftScenario | Main.java:96-131 | a blind 0.80 is rejected at cutoff 0.82; the low-income bonus makes it 0.85, which is admitted; that is one upward flip and no downward flip |
| Scenarios.QuotedFieldScenario | Main.java:11-27 | in `a ,"b,c"` the quoted comma does not split, the quotes are dropped and the fields are trimmed, giving `a` and `b,c` |

## Left out

- Reading the file (`readApplicants`, Main.java:30-71): I/O, the header skip, the blank-line skip, the 14-field check and number parsing are not modelled. `Evaluate` takes the parsed applicant list as its parameter. The applicant record follows the constructor call at Main.java:58-59. Applicant.java is not part of this model.
- Printing: the table and report formatting, percentages and rounding for display. The model returns the values that would be printed (`ReportLine`, `GroupSummary`, the two flip counts).
- The command-line cutoff and the two system properties are parameters. `DefaultConfig(maxTest, lowIncome)` takes the property values, and `Defaults` uses the values the program falls back to when they are unset. The fallback to 0.82 on a malformed cutoff argument is not modelled.
- Floating point: doubles are modelled as exact reals, so IEEE rounding is not modelled. A raw feature or income may still be NaN or infinite: `Num` models that, together with `nz` and Java's `<` on such values.
- Admissions.GpaN, Admissions.TestN, Admissions.BlindScore, Admissions.AwareScore: these require a non-zero `maxGpa` and `maxTest`. A zero maximum, possible through `-DmaxTest=0`, makes the source divide by zero and compute NaN or Infinity. The model does not follow that case. `Config` holds finite reals, so a parameter that parses to a non-finite double, such as `-DmaxTest=Infinity` or `-DlowIncome=NaN`, is not modelled either; in the source it reaches the scoring.
- The sort is an insertion sort, not Java's TimSort. `Double.compare(r2.key, r1.key)` is modelled as the descending order on reals. Its special handling of NaN and -0.0 is not modelled. With finite maxima and finite parameters, every feature is finite after `nz`, so the scores are finite, and `clamp01` returns a literal 0 below zero while the sum starts at +0.0, so no score is -0.0. A stable sort's result is unique (`Ranking.OrderedUnique`), so any stable sort gives the same copy.
- `HashMap<String,Integer>` is a Dafny `map`. The lookups `rankBlind.get(...)` require the name to be present; `Ranking.AllNamesRanked` proves it always is.
- Decisions are the datatype `Admitted | Rejected`, not the strings "Admitted" and "Rejected".
- The group predicates and `rate`'s predicate are Dafny function values. Java streams and collectors are modelled as sequence filtering and counting.
- Duplicate names: the code lets a later `put` overwrite an earlier one, and the model does the same. The rank-permutation and zero-sum properties therefore assume distinct names. A stricter design would reject duplicate names; this model follows the code.
- Ties: the code keeps input order for equal scores, and the model does the same. A stricter design would break ties by name; `List.sort` is stable, and the model follows that.
- Fairness.Rate: `(double) cnt / size` is modelled as exact real division.
