/** The body of `main` in Main.java once the applicant list is read: score
    and decide every applicant, sort two copies of the rows, build both rank
    maps, produce the results table, count the decision flips and summarise
    the reported groups. Printing is replaced by returning the numbers. */
module Pipeline {
  import opened Collections
  import opened Admissions
  import opened Rows
  import opened Ranking
  import opened Fairness

  /** Everything the run reports, plus the two sort orders that produced the
      sorted copies. */
  datatype Evaluation = Evaluation(
    rows: seq<Row>,
    orderBlind: seq<nat>, byBlind: seq<Row>,
    orderAware: seq<nat>, byAware: seq<Row>,
    rankBlind: map<string, int>, rankAware: map<string, int>,
    lines: seq<ReportLine>,
    flipsUp: nat, flipsDown: nat,
    groups: seq<GroupSummary>)

  /** An empty applicant list stops the run before any ranking. */
  datatype Outcome = NoApplicants | Evaluated(e: Evaluation)

  predicate DistinctNames(apps: seq<Applicant>)
  {
    forall i, j :: 0 <= i < j < |apps| ==> apps[i].name != apps[j].name
  }

  /** `e` is what the run computes for `apps` under `c` and `cutoff`. */
  predicate IsEvaluationOf(e: Evaluation, apps: seq<Applicant>, c: Config, cutoff: real)
    requires ValidConfig(c)
  {
    AllScoredFrom(e.rows, apps, c, cutoff) &&
    IsStableSort(e.rows, Blind, e.orderBlind, e.byBlind) &&
    IsStableSort(e.rows, Aware, e.orderAware, e.byAware) &&
    IsRankMap(e.rankBlind, e.byBlind) && IsRankMap(e.rankAware, e.byAware) &&
    HasAllNames(e.rows, e.rankBlind) && HasAllNames(e.rows, e.rankAware) &&
    IsReport(e.lines, e.rows, e.rankBlind, e.rankAware) &&
    e.flipsUp == FlipsUp(e.rows) && e.flipsDown == FlipsDown(e.rows) &&
    e.groups == FairnessReport(e.rows, c, cutoff)
  }

  /** The run, stage by stage, in the order of the source. */
  method Evaluate(apps: seq<Applicant>, c: Config, cutoff: real) returns (out: Outcome)
    requires ValidConfig(c)
    ensures out.NoApplicants? <==> apps == []
    ensures out.Evaluated? ==> IsEvaluationOf(out.e, apps, c, cutoff)
    ensures out.Evaluated? ==> out.e.flipsUp + out.e.flipsDown <= |apps|
    ensures out.Evaluated? && NonNegativeBonuses(c) ==> out.e.flipsDown == 0
    ensures out.Evaluated? && NonNegativeBonuses(c) ==> AwareDominates(out.e.groups)
    ensures out.Evaluated? && DistinctNames(apps) ==>
      Sum(Deltas(out.e.lines)) == 0 &&
      multiset(RankColumn(out.e.rows, out.e.rankBlind)) == multiset(Ranks(|apps|)) &&
      multiset(RankColumn(out.e.rows, out.e.rankAware)) == multiset(Ranks(|apps|))
  {
    if |apps| == 0 {
      return NoApplicants;
    }
    var rows := ScoreRows(apps, c, cutoff);
    var byBlind, orderBlind := SortedCopy(rows, Blind);
    var byAware, orderAware := SortedCopy(rows, Aware);
    var rankBlind := BuildRankMap(byBlind);
    var rankAware := BuildRankMap(byAware);
    AllNamesRanked(rows, orderBlind, byBlind, rankBlind);
    AllNamesRanked(rows, orderAware, byAware, rankAware);
    var lines := ReportLines(rows, rankBlind, rankAware);
    var flipsUp := FlipsUp(rows);
    var flipsDown := FlipsDown(rows);
    var groups := FairnessReport(rows, c, cutoff);
    var e := Evaluation(rows, orderBlind, byBlind, orderAware, byAware,
                        rankBlind, rankAware, lines, flipsUp, flipsDown, groups);
    EvaluationProperties(e, apps, c, cutoff);
    out := Evaluated(e);
  }

  /** The properties every evaluation has: the flip counters are bounded; with
      no negative bonus there is no downshift and every reported group shows
      aware admit rates at least the blind ones; and with distinct names the
      ranks are 1 .. N in each model and the deltas cancel. */
  lemma EvaluationProperties(e: Evaluation, apps: seq<Applicant>, c: Config, cutoff: real)
    requires ValidConfig(c) && IsEvaluationOf(e, apps, c, cutoff)
    ensures e.flipsUp + e.flipsDown <= |apps|
    ensures NonNegativeBonuses(c) ==> e.flipsDown == 0
    ensures NonNegativeBonuses(c) ==> AwareDominates(e.groups)
    ensures DistinctNames(apps) ==>
      Sum(Deltas(e.lines)) == 0 &&
      multiset(RankColumn(e.rows, e.rankBlind)) == multiset(Ranks(|apps|)) &&
      multiset(RankColumn(e.rows, e.rankAware)) == multiset(Ranks(|apps|))
  {
    FlipsBounded(e.rows);
    if NonNegativeBonuses(c) {
      NoDownshifts(e.rows, apps, c, cutoff);
      ReportDominates(e.rows, apps, c, cutoff);
    }
    if DistinctNames(apps) {
      assert NamesDistinct(e.rows) by {
        forall i, j | 0 <= i < j < |e.rows| ensures e.rows[i].a.name != e.rows[j].a.name {
          assert e.rows[i].a == apps[i] && e.rows[j].a == apps[j];
        }
      }
      DeltasSumToZero(e.rows, e.orderBlind, e.byBlind, e.rankBlind,
                      e.orderAware, e.byAware, e.rankAware, e.lines);
    }
  }

  /** The run is deterministic: two evaluations of the same input agree in
      every component, the sort orders and rank maps included. */
  lemma EvaluationUnique(e1: Evaluation, e2: Evaluation, apps: seq<Applicant>, c: Config, cutoff: real)
    requires ValidConfig(c)
    requires IsEvaluationOf(e1, apps, c, cutoff) && IsEvaluationOf(e2, apps, c, cutoff)
    ensures e1 == e2
  {
    ScoringUnique(e1.rows, e2.rows, apps, c, cutoff);
    StableSortUnique(e1.rows, Blind, e1.orderBlind, e1.byBlind, e2.orderBlind, e2.byBlind);
    StableSortUnique(e1.rows, Aware, e1.orderAware, e1.byAware, e2.orderAware, e2.byAware);
    RankMapUnique(e1.rankBlind, e2.rankBlind, e1.byBlind);
    RankMapUnique(e1.rankAware, e2.rankAware, e1.byAware);
    ReportUnique(e1.lines, e2.lines, e1.rows, e1.rankBlind, e1.rankAware);
  }
}
