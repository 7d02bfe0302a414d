/** The comparison between the models in Main.java: the decision flips, and
    per group predicate the admit rate of each model inside and outside the
    group. */
module Fairness {
  import opened Collections
  import opened Admissions
  import opened Rows

  predicate IsUpshift(r: Row)
  {
    r.blindDecision == Rejected && r.awareDecision == Admitted
  }

  predicate IsDownshift(r: Row)
  {
    r.blindDecision == Admitted && r.awareDecision == Rejected
  }

  /** Rejected by the blind model, admitted by the aware one. */
  function FlipsUp(rows: seq<Row>): (n: nat)
    ensures n == |Filter(rows, IsUpshift)| && n <= |rows|
  {
    CountIsFilterLength(rows, IsUpshift);
    Count(rows, IsUpshift)
  }

  /** Admitted by the blind model, rejected by the aware one. */
  function FlipsDown(rows: seq<Row>): (n: nat)
    ensures n == |Filter(rows, IsDownshift)| && n <= |rows|
  {
    CountIsFilterLength(rows, IsDownshift);
    Count(rows, IsDownshift)
  }

  /** The two counters count disjoint sets of rows. */
  lemma FlipsBounded(rows: seq<Row>)
    ensures FlipsUp(rows) + FlipsDown(rows) <= |rows|
  {
    CountIsFilterLength(rows, IsUpshift);
    CountIsFilterLength(rows, IsDownshift);
    FilterDisjoint(rows, IsUpshift, IsDownshift);
  }

  /** With no negative bonus there is no downshift. */
  lemma NoDownshifts(rows: seq<Row>, apps: seq<Applicant>, c: Config, cutoff: real)
    requires ValidConfig(c) && NonNegativeBonuses(c) && AllScoredFrom(rows, apps, c, cutoff)
    ensures FlipsDown(rows) == 0
  {
    forall r | r in rows ensures !IsDownshift(r) {
      var k :| 0 <= k < |rows| && rows[k] == r;
      NoDownshift(r, apps[k], c, cutoff);
    }
    FilterNone(rows, IsDownshift);
    CountIsFilterLength(rows, IsDownshift);
  }

  /** The share of `rows` satisfying `p`; zero for no rows. */
  function Rate(rows: seq<Row>, p: Row -> bool): (r: real)
    ensures |rows| == 0 ==> r == 0.0
    ensures |rows| > 0 ==> r * (|rows| as real) == Count(rows, p) as real
    ensures 0.0 <= r <= 1.0
  {
    if |rows| == 0 then 0.0 else Ratio(Count(rows, p), |rows|)
  }

  /** `(double) cnt / size`. */
  function Ratio(cnt: nat, size: nat): (q: real)
    requires 0 < size && cnt <= size
    ensures 0.0 <= q <= 1.0
    ensures q * (size as real) == cnt as real
  {
    (cnt as real) / (size as real)
  }

  /** A predicate implied by another has at least its rate. */
  lemma RateMonotone(rows: seq<Row>, p: Row -> bool, q: Row -> bool)
    requires forall r :: r in rows && p(r) ==> q(r)
    ensures Rate(rows, p) <= Rate(rows, q)
  {
    CountMonotone(rows, p, q);
    if |rows| > 0 {
      var n := |rows| as real;
      var cp, cq := Count(rows, p) as real, Count(rows, q) as real;
      assert Rate(rows, p) == cp / n;
      assert Rate(rows, q) == cq / n;
      DivisionMonotone(cq, cp, n);
    }
  }

  function AdmitsBlind(cutoff: real): Row -> bool
  {
    (r: Row) => r.blind >= cutoff
  }

  function AdmitsAware(cutoff: real): Row -> bool
  {
    (r: Row) => r.aware >= cutoff
  }

  /** The four admit rates reported for one group. */
  datatype GroupSummary = GroupSummary(title: string, blindIn: real, blindOut: real, awareIn: real, awareOut: real)

  function InGroup(rows: seq<Row>, pred: Row -> bool): seq<Row>
  {
    Filter(rows, pred)
  }

  function OutGroup(rows: seq<Row>, pred: Row -> bool): seq<Row>
  {
    Filter(rows, r => !pred(r))
  }

  /** `summarizeGroup`: split the rows by the predicate and compute each
      model's admit rate on both sides. */
  function SummarizeGroup(rows: seq<Row>, cutoff: real, title: string, pred: Row -> bool): (g: GroupSummary)
    ensures g.title == title
    ensures 0.0 <= g.blindIn <= 1.0 && 0.0 <= g.blindOut <= 1.0
    ensures 0.0 <= g.awareIn <= 1.0 && 0.0 <= g.awareOut <= 1.0
    ensures InGroup(rows, pred) == [] ==> g.blindIn == 0.0 && g.awareIn == 0.0
    ensures OutGroup(rows, pred) == [] ==> g.blindOut == 0.0 && g.awareOut == 0.0
  {
    var inside := InGroup(rows, pred);
    var outside := OutGroup(rows, pred);
    GroupSummary(title,
                 Rate(inside, AdmitsBlind(cutoff)), Rate(outside, AdmitsBlind(cutoff)),
                 Rate(inside, AdmitsAware(cutoff)), Rate(outside, AdmitsAware(cutoff)))
  }

  /** Every row lands on exactly one side of the split. */
  lemma GroupPartition(rows: seq<Row>, pred: Row -> bool)
    ensures multiset(InGroup(rows, pred)) + multiset(OutGroup(rows, pred)) == multiset(rows)
    ensures |InGroup(rows, pred)| + |OutGroup(rows, pred)| == |rows|
    ensures forall r :: r in InGroup(rows, pred) ==> r in rows && pred(r)
    ensures forall r :: r in OutGroup(rows, pred) ==> r in rows && !pred(r)
  {
    FilterPartition(rows, pred);
  }

  /** With no negative bonus, the aware model admits at least the blind
      model's share on each side of every split. */
  lemma AwareRatesDominate(rows: seq<Row>, apps: seq<Applicant>, c: Config, cutoff: real,
                           title: string, pred: Row -> bool)
    requires ValidConfig(c) && NonNegativeBonuses(c) && AllScoredFrom(rows, apps, c, cutoff)
    ensures SummarizeGroup(rows, cutoff, title, pred).blindIn <= SummarizeGroup(rows, cutoff, title, pred).awareIn
    ensures SummarizeGroup(rows, cutoff, title, pred).blindOut <= SummarizeGroup(rows, cutoff, title, pred).awareOut
  {
    forall r | r in rows ensures r.blind <= r.aware {
      var k :| 0 <= k < |rows| && rows[k] == r;
      NoDownshift(r, apps[k], c, cutoff);
    }
    RateMonotone(InGroup(rows, pred), AdmitsBlind(cutoff), AdmitsAware(cutoff));
    RateMonotone(OutGroup(rows, pred), AdmitsBlind(cutoff), AdmitsAware(cutoff));
  }

  /** The five groups the run reports on. */
  datatype Group = LowIncome | FirstGen | Disability | Legacy | Local

  function Label(g: Group): string
  {
    match g
    case LowIncome => "Low income"
    case FirstGen => "First-gen"
    case Disability => "Disability"
    case Legacy => "Legacy"
    case Local => "Local"
  }

  function Member(g: Group, c: Config): Row -> bool
  {
    match g
    case LowIncome => (r: Row) => IsLowIncome(r.a, c)
    case FirstGen => (r: Row) => r.a.firstGen
    case Disability => (r: Row) => r.a.disability
    case Legacy => (r: Row) => r.a.legacy
    case Local => (r: Row) => r.a.local
  }

  const ReportedGroups: seq<Group> := [LowIncome, FirstGen, Disability, Legacy, Local]

  /** One summary per reported group, in report order. */
  function FairnessReport(rows: seq<Row>, c: Config, cutoff: real): (gs: seq<GroupSummary>)
    ensures |gs| == |ReportedGroups|
    ensures forall k :: 0 <= k < |gs| ==>
      gs[k] == SummarizeGroup(rows, cutoff, Label(ReportedGroups[k]), Member(ReportedGroups[k], c))
  {
    seq(|ReportedGroups|, k requires 0 <= k < |ReportedGroups| =>
      var g := ReportedGroups[k];
      SummarizeGroup(rows, cutoff, Label(g), Member(g, c)))
  }

  /** In every summary, the aware admit rates are at least the blind ones, both
      inside and outside the group. */
  predicate AwareDominates(gs: seq<GroupSummary>)
  {
    forall k :: 0 <= k < |gs| ==> gs[k].blindIn <= gs[k].awareIn && gs[k].blindOut <= gs[k].awareOut
  }

  /** With no negative bonus, every group of the report shows the aware model
      admitting at least the blind model's share, inside and outside the group. */
  lemma ReportDominates(rows: seq<Row>, apps: seq<Applicant>, c: Config, cutoff: real)
    requires ValidConfig(c) && NonNegativeBonuses(c) && AllScoredFrom(rows, apps, c, cutoff)
    ensures AwareDominates(FairnessReport(rows, c, cutoff))
  {
    var gs := FairnessReport(rows, c, cutoff);
    forall k | 0 <= k < |gs|
      ensures gs[k].blindIn <= gs[k].awareIn && gs[k].blindOut <= gs[k].awareOut
    {
      var g := ReportedGroups[k];
      AwareRatesDominate(rows, apps, c, cutoff, Label(g), Member(g, c));
    }
  }
}
