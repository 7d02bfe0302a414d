/** The per-applicant stage of Main.java: both scores and both decisions,
    computed once per applicant into a row. */
module Rows {
  import opened Admissions

  datatype Decision = Admitted | Rejected

  /** The decision rule, the same for both models: a score at or above the
      cutoff admits. */
  function Decide(score: real, cutoff: real): (d: Decision)
    ensures d == Admitted <==> score >= cutoff
  {
    if score >= cutoff then Admitted else Rejected
  }

  /** Inclusive at the boundary, exclusive below it. */
  lemma DecisionBoundary(cutoff: real, eps: real)
    requires eps > 0.0
    ensures Decide(cutoff, cutoff) == Admitted
    ensures Decide(cutoff - eps, cutoff) == Rejected
  {
  }

  /** One applicant with both scores and both decisions. */
  datatype Row = Row(a: Applicant, blind: real, aware: real,
                     blindDecision: Decision, awareDecision: Decision)

  /** `r` is the row built for `app` under configuration `c` and `cutoff`. */
  predicate ScoredFrom(r: Row, app: Applicant, c: Config, cutoff: real)
    requires ValidConfig(c)
  {
    r.a == app &&
    r.blind == BlindScore(app, c) && r.aware == AwareScore(app, c) &&
    r.blindDecision == Decide(r.blind, cutoff) && r.awareDecision == Decide(r.aware, cutoff)
  }

  predicate AllScoredFrom(rows: seq<Row>, apps: seq<Applicant>, c: Config, cutoff: real)
    requires ValidConfig(c)
  {
    |rows| == |apps| && forall k :: 0 <= k < |rows| ==> ScoredFrom(rows[k], apps[k], c, cutoff)
  }

  /** The rows of an applicant list are determined by it. */
  lemma ScoringUnique(r1: seq<Row>, r2: seq<Row>, apps: seq<Applicant>, c: Config, cutoff: real)
    requires ValidConfig(c) && AllScoredFrom(r1, apps, c, cutoff) && AllScoredFrom(r2, apps, c, cutoff)
    ensures r1 == r2
  {
    forall k | 0 <= k < |r1| ensures r1[k] == r2[k] {
      assert ScoredFrom(r1[k], apps[k], c, cutoff) && ScoredFrom(r2[k], apps[k], c, cutoff);
    }
  }

  /** The scoring loop: one row per applicant, in input order. */
  method ScoreRows(apps: seq<Applicant>, c: Config, cutoff: real) returns (rows: seq<Row>)
    requires ValidConfig(c)
    ensures AllScoredFrom(rows, apps, c, cutoff)
    ensures forall k :: 0 <= k < |rows| ==>
      0.0 <= rows[k].blind <= 1.0 && 0.0 <= rows[k].aware <= 1.0 &&
      (rows[k].blindDecision == Admitted <==> rows[k].blind >= cutoff) &&
      (rows[k].awareDecision == Admitted <==> rows[k].aware >= cutoff)
  {
    rows := [];
    for i := 0 to |apps|
      invariant AllScoredFrom(rows, apps[..i], c, cutoff)
    {
      var app := apps[i];
      var blind := BlindScore(app, c);
      var aware := AwareScore(app, c);
      var blindDecision := Decide(blind, cutoff);
      var awareDecision := Decide(aware, cutoff);
      rows := rows + [Row(app, blind, aware, blindDecision, awareDecision)];
    }
  }

  /** With no negative bonus, no applicant admitted by the blind model is
      rejected by the aware one. */
  lemma NoDownshift(r: Row, app: Applicant, c: Config, cutoff: real)
    requires ValidConfig(c) && NonNegativeBonuses(c) && ScoredFrom(r, app, c, cutoff)
    ensures r.blind <= r.aware
    ensures r.blindDecision == Admitted ==> r.awareDecision == Admitted
  {
    AwareAtLeastBlind(app, c);
  }
}
