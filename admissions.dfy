/** The two scoring models of Admissions.java: a blind, merit-only weighted sum
    and an aware score that adds equity bonuses to it. Java doubles are
    modelled as mathematical reals; a raw feature that may be NaN or infinite
    is a `Num`. */
module Admissions {

  /** A raw double as it arrives from the parsed row. */
  datatype Num = Finite(value: real) | NaN | PosInf | NegInf

  /** Java's `x < t` for a double `x` and a finite `t`: false for NaN. */
  predicate Below(x: Num, t: real)
  {
    match x
    case Finite(v) => v < t
    case NegInf => true
    case PosInf => false
    case NaN => false
  }

  /** One applicant, in the argument order of the record constructor. Age,
      geography and ethnicity are carried but never scored. */
  datatype Applicant = Applicant(
    name: string, age: int, geography: string, ethnicity: string,
    income: Num, legacy: bool, local: bool,
    gpa: Num, test: Num, extra: Num, essay: Num, rec: Num,
    firstGen: bool, disability: bool)

  /** The configurable parameters of the scoring models, fixed for a run. */
  datatype Config = Config(
    maxGpa: real, maxTest: real,
    wGpa: real, wTest: real, wExtra: real, wEssay: real, wRec: real,
    lowIncomeThreshold: real,
    bonusLowIncome: real, bonusFirstGen: real, bonusDisability: real,
    bonusLegacy: real, bonusLocal: real)

  /** The built-in parameters; `maxTest` and `lowIncome` are the values of
      the `maxTest` and `lowIncome` system properties (1600 and 40000 when
      unset). */
  function DefaultConfig(maxTest: real, lowIncome: real): (c: Config)
    ensures c.maxTest == maxTest && c.lowIncomeThreshold == lowIncome && c.maxGpa == 4.0
    ensures ValidConfig(c) <==> maxTest != 0.0
    ensures NonNegativeWeights(c) && c.wGpa + c.wTest + c.wExtra + c.wEssay + c.wRec == 1.0
    ensures NonNegativeBonuses(c) &&
      c.bonusLowIncome + c.bonusFirstGen + c.bonusDisability + c.bonusLegacy + c.bonusLocal == 0.18
  {
    Config(4.0, maxTest,
           0.45, 0.30, 0.10, 0.10, 0.05,
           lowIncome,
           0.05, 0.05, 0.03, 0.02, 0.03)
  }

  const Defaults: Config := DefaultConfig(1600.0, 40000.0)

  /** The built-in parameters are valid: both maxima are positive. */
  lemma DefaultsValid()
    ensures ValidConfig(Defaults) && Defaults.maxGpa > 0.0 && Defaults.maxTest > 0.0
    ensures Defaults.lowIncomeThreshold == 40000.0
  {
  }

  /** The two maxima are divisors; a zero would make IEEE infinities. */
  predicate ValidConfig(c: Config)
  {
    c.maxGpa != 0.0 && c.maxTest != 0.0
  }

  /** Restricts a value to the unit interval. */
  function Clamp01(x: real): (r: real)
    ensures 0.0 <= r <= 1.0
    ensures 0.0 <= x <= 1.0 ==> r == x
    ensures x < 0.0 ==> r == 0.0
    ensures x > 1.0 ==> r == 1.0
  {
    if x < 0.0 then 0.0
    else if x > 1.0 then 1.0
    else x
  }

  /** Replaces NaN and the infinities by zero. */
  function Nz(x: Num): (r: real)
    ensures x.Finite? ==> r == x.value
    ensures !x.Finite? ==> r == 0.0
  {
    match x
    case Finite(v) => v
    case _ => 0.0
  }

  /** The normalised features, each in [0,1]. */
  function GpaN(a: Applicant, c: Config): real
    requires ValidConfig(c)
  {
    Clamp01(Nz(a.gpa) / c.maxGpa)
  }

  function TestN(a: Applicant, c: Config): real
    requires ValidConfig(c)
  {
    Clamp01(Nz(a.test) / c.maxTest)
  }

  function ExtraN(a: Applicant): real { Clamp01(Nz(a.extra)) }
  function EssayN(a: Applicant): real { Clamp01(Nz(a.essay)) }
  function RecN(a: Applicant): real { Clamp01(Nz(a.rec)) }

  /** The blind, performance-only score: the weighted sum of the normalised
      features, accumulated term by term and clamped once. */
  function BlindScore(a: Applicant, c: Config): (r: real)
    requires ValidConfig(c)
    ensures 0.0 <= r <= 1.0
  {
    var score := 0.0;
    var score := score + GpaN(a, c) * c.wGpa;
    var score := score + TestN(a, c) * c.wTest;
    var score := score + ExtraN(a) * c.wExtra;
    var score := score + EssayN(a) * c.wEssay;
    var score := score + RecN(a) * c.wRec;
    Clamp01(score)
  }

  /** The low-income test: a strict comparison against the threshold. */
  predicate IsLowIncome(a: Applicant, c: Config)
  {
    Below(a.income, c.lowIncomeThreshold)
  }

  /** The aware score: the blind score plus each bonus whose condition holds,
      clamped once at the end. */
  function AwareScore(a: Applicant, c: Config): (r: real)
    requires ValidConfig(c)
    ensures 0.0 <= r <= 1.0
  {
    Clamp01(AddBonuses(BlindScore(a, c), a, c))
  }

  /** The five conditional increments of the aware model, in source order. */
  function AddBonuses(score: real, a: Applicant, c: Config): real
  {
    var score := Bump(score, IsLowIncome(a, c), c.bonusLowIncome);
    var score := Bump(score, a.firstGen, c.bonusFirstGen);
    var score := Bump(score, a.disability, c.bonusDisability);
    var score := Bump(score, a.legacy, c.bonusLegacy);
    var score := Bump(score, a.local, c.bonusLocal);
    score
  }

  /** `if (cond) score += bonus;` */
  function Bump(score: real, cond: bool, bonus: real): real
  {
    if cond then score + bonus else score
  }

  // ---------------------------------------------------------------------
  // Reference definitions and properties of the models

  /** The bonus `x` when its condition `b` holds, nothing otherwise. */
  function Optional(b: bool, x: real): seq<real>
  {
    if b then [x] else []
  }

  /** The bonuses an applicant qualifies for, one entry per condition that
      holds, in source order. */
  function ApplicableBonuses(a: Applicant, c: Config): (bs: seq<real>)
    ensures |bs| <= 5
  {
    Optional(IsLowIncome(a, c), c.bonusLowIncome) +
    Optional(a.firstGen, c.bonusFirstGen) +
    Optional(a.disability, c.bonusDisability) +
    Optional(a.legacy, c.bonusLegacy) +
    Optional(a.local, c.bonusLocal)
  }

  function RealSum(xs: seq<real>): real
  {
    if xs == [] then 0.0 else RealSum(xs[..|xs| - 1]) + xs[|xs| - 1]
  }

  /** One conditional increment adds the sum of its optional bonus. */
  lemma BumpIsSum(base: real, xs: seq<real>, score: real, b: bool, x: real)
    requires score == base + RealSum(xs)
    ensures Bump(score, b, x) == base + RealSum(xs + Optional(b, x))
  {
    if b {
      assert (xs + [x])[..|xs|] == xs;
    } else {
      assert xs + [] == xs;
    }
  }

  /** The increments add up to the sum of the applicable bonuses, whatever
      the starting score. */
  lemma AddBonusesIsSum(score: real, a: Applicant, c: Config)
    ensures AddBonuses(score, a, c) == score + RealSum(ApplicableBonuses(a, c))
  {
    var l := Optional(IsLowIncome(a, c), c.bonusLowIncome);
    var f := Optional(a.firstGen, c.bonusFirstGen);
    var d := Optional(a.disability, c.bonusDisability);
    var g := Optional(a.legacy, c.bonusLegacy);
    var s1 := Bump(score, IsLowIncome(a, c), c.bonusLowIncome);
    var s2 := Bump(s1, a.firstGen, c.bonusFirstGen);
    var s3 := Bump(s2, a.disability, c.bonusDisability);
    var s4 := Bump(s3, a.legacy, c.bonusLegacy);
    BumpIsSum(score, [], score, IsLowIncome(a, c), c.bonusLowIncome);
    assert [] + l == l;
    BumpIsSum(score, l, s1, a.firstGen, c.bonusFirstGen);
    BumpIsSum(score, l + f, s2, a.disability, c.bonusDisability);
    BumpIsSum(score, l + f + d, s3, a.legacy, c.bonusLegacy);
    BumpIsSum(score, l + f + d + g, s4, a.local, c.bonusLocal);
  }

  /** The aware score is the clamp of the blind score plus the sum of every
      applicable bonus: the bonuses are independent and additive, and only the
      total is clamped. */
  lemma AwareIsClampedTotal(a: Applicant, c: Config)
    requires ValidConfig(c)
    ensures AwareScore(a, c) == Clamp01(BlindScore(a, c) + RealSum(ApplicableBonuses(a, c)))
  {
    AddBonusesIsSum(BlindScore(a, c), a, c);
  }

  /** Stacked bonuses saturate at 1 instead of exceeding it. */
  lemma BonusesSaturate(a: Applicant, c: Config)
    requires ValidConfig(c)
    requires BlindScore(a, c) + RealSum(ApplicableBonuses(a, c)) >= 1.0
    ensures AwareScore(a, c) == 1.0
  {
    AwareIsClampedTotal(a, c);
  }

  predicate NonNegativeBonuses(c: Config)
  {
    c.bonusLowIncome >= 0.0 && c.bonusFirstGen >= 0.0 && c.bonusDisability >= 0.0 &&
    c.bonusLegacy >= 0.0 && c.bonusLocal >= 0.0
  }

  /** With no negative bonus the aware model never scores below the blind one. */
  lemma AwareAtLeastBlind(a: Applicant, c: Config)
    requires ValidConfig(c) && NonNegativeBonuses(c)
    ensures AwareScore(a, c) >= BlindScore(a, c)
  {
  }

  /** An applicant who meets no bonus condition scores the same in both models;
      an income equal to the threshold is not low. */
  lemma NoContextNoChange(a: Applicant, c: Config)
    requires ValidConfig(c)
    requires !IsLowIncome(a, c) && !a.firstGen && !a.disability && !a.legacy && !a.local
    ensures AwareScore(a, c) == BlindScore(a, c)
  {
  }

  lemma ThresholdIncomeIsNotLow(a: Applicant, c: Config)
    requires a.income == Finite(c.lowIncomeThreshold)
    ensures !IsLowIncome(a, c)
  {
  }

  /** With a positive maximum, a GPA at or above it normalises to exactly 1, a
      negative or non-finite GPA to 0. */
  lemma GpaSaturates(a: Applicant, c: Config)
    requires ValidConfig(c) && c.maxGpa > 0.0
    ensures a.gpa.Finite? && a.gpa.value >= c.maxGpa ==> GpaN(a, c) == 1.0
    ensures a.gpa.Finite? && a.gpa.value < 0.0 ==> GpaN(a, c) == 0.0
    ensures !a.gpa.Finite? ==> GpaN(a, c) == 0.0
    ensures a.gpa.Finite? && 0.0 <= a.gpa.value <= c.maxGpa ==> GpaN(a, c) == a.gpa.value / c.maxGpa
  {
    if a.gpa.Finite? {
      DivisionBounds(a.gpa.value, c.maxGpa);
    }
  }

  /** The same for the test score against its maximum. */
  lemma TestSaturates(a: Applicant, c: Config)
    requires ValidConfig(c) && c.maxTest > 0.0
    ensures a.test.Finite? && a.test.value >= c.maxTest ==> TestN(a, c) == 1.0
    ensures a.test.Finite? && a.test.value < 0.0 ==> TestN(a, c) == 0.0
    ensures !a.test.Finite? ==> TestN(a, c) == 0.0
    ensures a.test.Finite? && 0.0 <= a.test.value <= c.maxTest ==> TestN(a, c) == a.test.value / c.maxTest
  {
    if a.test.Finite? {
      DivisionBounds(a.test.value, c.maxTest);
    }
  }

  lemma DivisionBounds(x: real, m: real)
    requires m > 0.0
    ensures x >= m ==> x / m >= 1.0
    ensures x < 0.0 ==> x / m < 0.0
    ensures 0.0 <= x <= m ==> 0.0 <= x / m <= 1.0
  {
    assert x == (x / m) * m;
  }

  predicate NonNegativeWeights(c: Config)
  {
    c.wGpa >= 0.0 && c.wTest >= 0.0 && c.wExtra >= 0.0 && c.wEssay >= 0.0 && c.wRec >= 0.0
  }

  /** A feature value after the non-finite substitution. */
  predicate AtLeast(x: Num, y: Num)
  {
    Nz(x) >= Nz(y)
  }

  /** With non-negative weights and positive maxima, an applicant who is at
      least as strong on every merit feature has at least the blind score. */
  lemma BlindMonotone(a: Applicant, b: Applicant, c: Config)
    requires ValidConfig(c) && c.maxGpa > 0.0 && c.maxTest > 0.0 && NonNegativeWeights(c)
    requires AtLeast(a.gpa, b.gpa) && AtLeast(a.test, b.test) && AtLeast(a.extra, b.extra)
    requires AtLeast(a.essay, b.essay) && AtLeast(a.rec, b.rec)
    ensures BlindScore(a, c) >= BlindScore(b, c)
  {
    var sa, sb := WeightedSum(a, c), WeightedSum(b, c);
    DivisionMonotone(Nz(a.gpa), Nz(b.gpa), c.maxGpa);
    DivisionMonotone(Nz(a.test), Nz(b.test), c.maxTest);
    WeightedMonotone(GpaN(a, c), TestN(a, c), ExtraN(a), EssayN(a), RecN(a),
                     GpaN(b, c), TestN(b, c), ExtraN(b), EssayN(b), RecN(b), c);
    BlindIsClampedSum(a, c);
    BlindIsClampedSum(b, c);
    Clamp01Monotone(sa, sb);
  }

  lemma BlindIsClampedSum(a: Applicant, c: Config)
    requires ValidConfig(c)
    ensures BlindScore(a, c) == Clamp01(WeightedSum(a, c))
  {
  }

  lemma Clamp01Monotone(x: real, y: real)
    requires x >= y
    ensures Clamp01(x) >= Clamp01(y)
  {
  }

  /** The unclamped weighted sum of the blind model. */
  function WeightedSum(a: Applicant, c: Config): real
    requires ValidConfig(c)
  {
    Weighted(GpaN(a, c), TestN(a, c), ExtraN(a), EssayN(a), RecN(a), c)
  }

  function Weighted(x1: real, x2: real, x3: real, x4: real, x5: real, c: Config): real
  {
    x1 * c.wGpa + x2 * c.wTest + x3 * c.wExtra + x4 * c.wEssay + x5 * c.wRec
  }

  lemma WeightedMonotone(x1: real, x2: real, x3: real, x4: real, x5: real,
                         y1: real, y2: real, y3: real, y4: real, y5: real, c: Config)
    requires NonNegativeWeights(c)
    requires x1 >= y1 && x2 >= y2 && x3 >= y3 && x4 >= y4 && x5 >= y5
    ensures Weighted(x1, x2, x3, x4, x5, c) >= Weighted(y1, y2, y3, y4, y5, c)
  {
    ScaleMonotone(x1, y1, c.wGpa);
    ScaleMonotone(x2, y2, c.wTest);
    ScaleMonotone(x3, y3, c.wExtra);
    ScaleMonotone(x4, y4, c.wEssay);
    ScaleMonotone(x5, y5, c.wRec);
    SumMonotone(x1 * c.wGpa, x2 * c.wTest, x3 * c.wExtra, x4 * c.wEssay, x5 * c.wRec,
                y1 * c.wGpa, y2 * c.wTest, y3 * c.wExtra, y4 * c.wEssay, y5 * c.wRec);
  }

  lemma SumMonotone(a1: real, a2: real, a3: real, a4: real, a5: real,
                    b1: real, b2: real, b3: real, b4: real, b5: real)
    requires a1 >= b1 && a2 >= b2 && a3 >= b3 && a4 >= b4 && a5 >= b5
    ensures a1 + a2 + a3 + a4 + a5 >= b1 + b2 + b3 + b4 + b5
  {
  }

  lemma DivisionMonotone(x: real, y: real, m: real)
    requires m > 0.0 && x >= y
    ensures x / m >= y / m
  {
    assert x / m - y / m == (x - y) / m;
  }

  lemma ScaleMonotone(x: real, y: real, w: real)
    requires w >= 0.0 && x >= y
    ensures x * w >= y * w
  {
    assert x * w - y * w == (x - y) * w;
  }
}
