/** Worked runs with the built-in parameters and the default cutoff 0.82. */
module Scenarios {
  import opened Collections
  import opened Admissions
  import opened Rows
  import opened Ranking
  import opened Fairness
  import opened Pipeline
  import opened Csv

  const Cutoff: real := 0.82

  /** Top marks everywhere, low income and first generation. */
  const TopLowIncome: Applicant := Applicant(
    "A", 18, "", "", Finite(20000.0), false, false,
    Finite(4.0), Finite(1600.0), Finite(1.0), Finite(1.0), Finite(1.0), true, false)

  /** The same marks, high income, no bonus condition. */
  const TopHighIncome: Applicant := Applicant(
    "B", 18, "", "", Finite(100000.0), false, false,
    Finite(4.0), Finite(1600.0), Finite(1.0), Finite(1.0), Finite(1.0), false, false)

  /** Top GPA and test, an average essay and nothing else, low income. */
  const NearMiss: Applicant := Applicant(
    "C", 18, "", "", Finite(20000.0), false, false,
    Finite(4.0), Finite(1600.0), Finite(0.0), Finite(0.5), Finite(0.0), false, false)

  lemma TopScores()
    ensures BlindScore(TopLowIncome, Defaults) == 1.0 && BlindScore(TopHighIncome, Defaults) == 1.0
    ensures AddBonuses(1.0, TopLowIncome, Defaults) == 1.1 && AwareScore(TopLowIncome, Defaults) == 1.0
    ensures AwareScore(TopHighIncome, Defaults) == 1.0
  {
  }

  /** Two applicants tied at 1.0 in both models: both admitted by both, each
      keeps its input position in both sorted copies, and no rank moves. */
  lemma TieScenario(e: Evaluation)
    requires IsEvaluationOf(e, [TopLowIncome, TopHighIncome], Defaults, Cutoff)
    ensures |e.lines| == 2
    ensures e.lines[0] == ReportLine("A", 1.0, 1.0, Admitted, Admitted, 1, 1, 0)
    ensures e.lines[1] == ReportLine("B", 1.0, 1.0, Admitted, Admitted, 2, 2, 0)
  {
    TieRows(e.rows);
    TieReport(e.rows, e.orderBlind, e.byBlind, e.rankBlind, e.orderAware, e.byAware, e.rankAware, e.lines);
  }

  lemma TieReport(rows: seq<Row>,
                  orderBlind: seq<nat>, byBlind: seq<Row>, rankBlind: map<string, int>,
                  orderAware: seq<nat>, byAware: seq<Row>, rankAware: map<string, int>,
                  lines: seq<ReportLine>)
    requires |rows| == 2 && rows[0].a.name == "A" && rows[1].a.name == "B"
    requires rows[0].blind == 1.0 && rows[0].aware == 1.0
    requires rows[1].blind == 1.0 && rows[1].aware == 1.0
    requires rows[0].blindDecision == Admitted && rows[0].awareDecision == Admitted
    requires rows[1].blindDecision == Admitted && rows[1].awareDecision == Admitted
    requires IsStableSort(rows, Blind, orderBlind, byBlind) && IsRankMap(rankBlind, byBlind)
    requires IsStableSort(rows, Aware, orderAware, byAware) && IsRankMap(rankAware, byAware)
    requires HasAllNames(rows, rankBlind) && HasAllNames(rows, rankAware)
    requires IsReport(lines, rows, rankBlind, rankAware)
    ensures |lines| == 2
    ensures lines[0] == ReportLine("A", 1.0, 1.0, Admitted, Admitted, 1, 1, 0)
    ensures lines[1] == ReportLine("B", 1.0, 1.0, Admitted, Admitted, 2, 2, 0)
  {
    TieOrder(rows, Blind, orderBlind, byBlind);
    TieOrder(rows, Aware, orderAware, byAware);
    TieRanks(rows, rankBlind);
    TieRanks(rows, rankAware);
    assert LineOf(lines[0], rows[0], rankBlind, rankAware);
    LineIs(lines[0], rows[0], rankBlind, rankAware);
    assert LineOf(lines[1], rows[1], rankBlind, rankAware);
    LineIs(lines[1], rows[1], rankBlind, rankAware);
  }

  lemma LineIs(line: ReportLine, r: Row, rankBlind: map<string, int>, rankAware: map<string, int>)
    requires r.a.name in rankBlind && r.a.name in rankAware
    requires LineOf(line, r, rankBlind, rankAware)
    ensures line == ReportLine(r.a.name, r.blind, r.aware, r.blindDecision, r.awareDecision,
                               rankBlind[r.a.name], rankAware[r.a.name],
                               rankBlind[r.a.name] - rankAware[r.a.name])
  {
  }

  lemma TieRows(rows: seq<Row>)
    requires AllScoredFrom(rows, [TopLowIncome, TopHighIncome], Defaults, Cutoff)
    ensures |rows| == 2 && rows[0].a.name == "A" && rows[1].a.name == "B"
    ensures rows[0].blind == 1.0 && rows[0].aware == 1.0
    ensures rows[1].blind == 1.0 && rows[1].aware == 1.0
    ensures rows[0].blindDecision == Admitted && rows[0].awareDecision == Admitted
    ensures rows[1].blindDecision == Admitted && rows[1].awareDecision == Admitted
  {
    TopScores();
    assert ScoredFrom(rows[0], TopLowIncome, Defaults, Cutoff);
    assert ScoredFrom(rows[1], TopHighIncome, Defaults, Cutoff);
  }

  /** With equal keys the stable order is the input order. */
  lemma TieOrder(rows: seq<Row>, m: Model, order: seq<nat>, sorted: seq<Row>)
    requires |rows| == 2 && Score(rows[0], m) == Score(rows[1], m)
    requires IsStableSort(rows, m, order, sorted)
    ensures order == [0, 1] && sorted == rows
  {
    assert Range(2) == [0, 1];
    var keys := Keys(rows, m);
    assert Ordered(keys, [0, 1]);
    OrderedUnique(keys, order, [0, 1]);
  }

  lemma TieRanks(rows: seq<Row>, rank: map<string, int>)
    requires |rows| == 2 && rows[0].a.name == "A" && rows[1].a.name == "B"
    requires IsRankMap(rank, rows)
    ensures "A" in rank && rank["A"] == 1 && "B" in rank && rank["B"] == 2
  {
    RankOfPosition(rank, rows, 0);
    RankOfPosition(rank, rows, 1);
  }

  /** 0.80 blind is rejected at 0.82; the low-income bonus lifts it to 0.85,
      which the aware model admits: one upshift, no downshift. */
  lemma UpshiftScenario(e: Evaluation)
    requires IsEvaluationOf(e, [NearMiss], Defaults, Cutoff)
    ensures e.rows[0].blind == 0.80 && e.rows[0].aware == 0.85
    ensures e.rows[0].blindDecision == Rejected && e.rows[0].awareDecision == Admitted
    ensures e.flipsUp == 1 && e.flipsDown == 0
  {
    assert ScoredFrom(e.rows[0], NearMiss, Defaults, Cutoff);
    NearMissScores();
    assert e.rows == [e.rows[0]];
    SingleRowFlips(e.rows[0]);
  }

  lemma NearMissScores()
    ensures BlindScore(NearMiss, Defaults) == 0.80 && AwareScore(NearMiss, Defaults) == 0.85
  {
  }

  lemma SingleRowFlips(r: Row)
    ensures FlipsUp([r]) == (if IsUpshift(r) then 1 else 0)
    ensures FlipsDown([r]) == (if IsDownshift(r) then 1 else 0)
  {
    assert [r][1..] == [];
  }

  /** A quoted separator does not split, the quotes themselves are dropped,
      and every field is trimmed. */
  lemma QuotedFieldScenario()
    ensures SplitLine("a ,\"b,c\"") == ["a", "b,c"]
  {
    var line := "a ,\"b,c\"";
    ExampleScan();
    assert Pieces(line) == ["a ", "b,c"];
    TrimPair("a ", "b,c");
    ExampleTrims();
  }

  lemma TrimPair(x: string, y: string)
    ensures TrimAll([x, y]) == [Trim(x), Trim(y)]
  {
    var xs := [x, y];
    var r := TrimAll(xs);
    assert |r| == 2 && r[0] == Trim(xs[0]) && r[1] == Trim(xs[1]);
  }

  lemma ExampleTrims()
    ensures Trim("a ") == "a" && Trim("b,c") == "b,c"
  {
    assert TrimStart("a ") == "a ";
    assert "a "[..1] == "a";
    assert TrimEnd("a ") == "a";
    assert TrimStart("b,c") == "b,c";
    assert TrimEnd("b,c") == "b,c";
  }

  /** The scanner run forward from a state, from position `i` of `s` on. */
  function RunFrom(st: ScanState, s: string, i: nat): ScanState
    requires i <= |s|
    decreases |s| - i
  {
    if i == |s| then st else RunFrom(Step(st, s[i]), s, i + 1)
  }

  /** Running forward from the state after `s[..i]` gives the state after `s`. */
  lemma {:induction false} RunFromIsScan(s: string, i: nat)
    requires i <= |s|
    ensures RunFrom(Scan(s[..i]), s, i) == Scan(s)
    decreases |s| - i
  {
    if i == |s| {
      assert s[..i] == s;
    } else {
      ScanStep(s, i);
      RunFromIsScan(s, i + 1);
    }
  }

  lemma ExampleScan()
    ensures Scan("a ,\"b,c\"") == ScanState(["a "], "b,c", false)
  {
    var line := "a ,\"b,c\"";
    RunFromIsScan(line, 0);
    assert line[..0] == [];
    ExampleRun();
  }

  lemma ExampleRun()
    ensures RunFrom(ScanState([], [], false), "a ,\"b,c\"", 0) == ScanState(["a "], "b,c", false)
  {
    var line := "a ,\"b,c\"";
    assert Step(ScanState([], [], false), 'a') == ScanState([], "a", false);
    assert Step(ScanState([], "a", false), ' ') == ScanState([], "a ", false);
    assert RunFrom(ScanState([], [], false), line, 0) == RunFrom(ScanState([], "a", false), line, 1);
    assert RunFrom(ScanState([], "a", false), line, 1) == RunFrom(ScanState([], "a ", false), line, 2);
    assert RunFrom(ScanState([], "a ", false), line, 2) == RunFrom(ScanState(["a "], "", false), line, 3);
    assert RunFrom(ScanState(["a "], "", false), line, 3) == RunFrom(ScanState(["a "], "", true), line, 4);
    assert RunFrom(ScanState(["a "], "", true), line, 4) == RunFrom(ScanState(["a "], "b", true), line, 5);
    assert RunFrom(ScanState(["a "], "b", true), line, 5) == RunFrom(ScanState(["a "], "b,", true), line, 6);
    assert RunFrom(ScanState(["a "], "b,", true), line, 6) == RunFrom(ScanState(["a "], "b,c", true), line, 7);
    assert RunFrom(ScanState(["a "], "b,c", true), line, 7) == RunFrom(ScanState(["a "], "b,c", false), line, 8);
    assert RunFrom(ScanState(["a "], "b,c", false), line, 8) == ScanState(["a "], "b,c", false);
  }
}
