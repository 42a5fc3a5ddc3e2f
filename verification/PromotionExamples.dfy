/** Inputs that show which branches of the gate are reached (ai/retraining/promotion.py:184-244). */
module PromotionExamples {
  import opened Wrappers
  import opened Collections
  import opened Binomial
  import opened Promotion

  // ---------------------------------------------------------------- scores from counts

  /** The labels that occur are `a` and `b`. */
  ghost predicate TwoLabels(y: seq<Label>, pred: seq<Label>, a: Label, b: Label) {
    a != b && Classes(y, pred) == {a, b}
  }

  lemma SumOfTwo(y: seq<Label>, pred: seq<Label>, a: Label, b: Label)
    requires a != b
    ensures SumF1({a, b}, y, pred) == F1(y, pred, a) + F1(y, pred, b)
  {
    SumF1Pick({a, b}, y, pred, a);
    assert {a, b} - {a} == {b};
    SumF1Pick({b}, y, pred, b);
    assert {b} - {b} == {};
    assert SumF1({}, y, pred) == 0.0;
  }

  lemma TwoLabelMacroF1(y: seq<Label>, pred: seq<Label>, a: Label, b: Label)
    requires TwoLabels(y, pred, a, b)
    ensures MacroF1(y, pred) == (F1(y, pred, a) + F1(y, pred, b)) / 2.0
  {
    hide F1, SumF1, Classes;
    SumOfTwo(y, pred, a, b);
    assert |{a, b}| == 2;
  }

  lemma F1Is(y: seq<Label>, pred: seq<Label>, c: Label, truth: set<nat>, predicted: set<nat>, hits: set<nat>)
    requires RowsOf(y, c) == truth && RowsOf(pred, c) == predicted && truth * predicted == hits
    ensures F1(y, pred, c) == Ratio(2 * |hits|, |truth| + |predicted|)
    ensures truth != {} ==> Recall(y, pred, c) == Some(Ratio(|hits|, |truth|))
  {
    F1Counts(y, pred, c);
    hide F1, Ratio, RowsOf;
  }

  // ---------------------------------------------------------------- a significant regression above the floors

  /** `a` on the first `n` rows out of `total`, then `b`. */
  function FirstThen(a: Label, n: nat, b: Label, total: nat): (r: seq<Label>)
    requires n <= total
    ensures |r| == total && forall i :: 0 <= i < total ==> r[i] == if i < n then a else b
  {
    Repeat(a, n) + Repeat(b, total - n)
  }

  lemma RowsOfFirst(a: Label, n: nat, b: Label, total: nat)
    requires n <= total && a != b
    ensures RowsOf(FirstThen(a, n, b, total), a) == Range(0, n)
    ensures RowsOf(FirstThen(a, n, b, total), b) == Range(n, total)
  {
    hide FirstThen;
  }

  lemma ClassesOfFirst(a: Label, n: nat, m: nat, b: Label, total: nat)
    requires 0 < n < total && m <= total && a != b
    ensures TwoLabels(FirstThen(a, n, b, total), FirstThen(a, m, b, total), a, b)
  {
    hide FirstThen;
    var y := FirstThen(a, n, b, total);
    assert y[0] in y && y[n] in y;
  }

  lemma RangesMeet(a: nat, b: nat, c: nat, d: nat)
    requires a <= c <= b <= d
    ensures Range(a, b) * Range(c, d) == Range(c, b)
  {}

  /** One Scam among 31 rows. */
  function Truth(scam: Label, ham: Label): seq<Label> { FirstThen(scam, 1, ham, 31) }

  /** Never says Scam. */
  function Incumbent(scam: Label, ham: Label): seq<Label> { FirstThen(scam, 0, ham, 31) }

  /** Finds it, and takes eight other messages for Scam as well. */
  function Candidate(scam: Label, ham: Label): seq<Label> { FirstThen(scam, 9, ham, 31) }

  /** The scores of a model that says Scam on the first `n` rows, with `truth` the Scam rows. */
  lemma ScoresOfFirst(scam: Label, ham: Label, n: nat, found: nat, kept: nat)
    requires scam != ham && n <= 31
    requires found == (if n == 0 then 0 else 1) && kept == (if n == 0 then 30 else 31 - n)
    ensures var y, pred := Truth(scam, ham), FirstThen(scam, n, ham, 31);
            && F1(y, pred, scam) == Ratio(2 * found, 1 + n)
            && F1(y, pred, ham) == Ratio(2 * kept, 30 + (31 - n))
            && MacroF1(y, pred) == (F1(y, pred, scam) + F1(y, pred, ham)) / 2.0
            && Recall(y, pred, scam) == Some(Ratio(found, 1))
  {
    hide *;
    var y, pred := FirstThen(scam, 1, ham, 31), FirstThen(scam, n, ham, 31);
    TruthIs(scam, ham);
    RowsOfFirst(scam, 1, ham, 31);
    RowsOfFirst(scam, n, ham, 31);
    ClassesOfFirst(scam, 1, n, ham, 31);
    TwoLabelMacroF1(y, pred, scam, ham);
    assert 0 in Range(0, 1);
    if n == 0 {
      RangesMeet(0, 0, 0, 1);
      RangesMeet(0, 31, 1, 31);
      F1Is(y, pred, scam, Range(0, 1), Range(0, 0), Range(0, 0));
      F1Is(y, pred, ham, Range(1, 31), Range(0, 31), Range(1, 31));
    } else {
      RangesMeet(0, 1, 0, n);
      RangesMeet(1, 31, n, 31);
      F1Is(y, pred, scam, Range(0, 1), Range(0, n), Range(0, 1));
      F1Is(y, pred, ham, Range(1, 31), Range(n, 31), Range(n, 31));
    }
  }

  lemma IncumbentScores(scam: Label, ham: Label)
    requires scam != ham
    ensures MacroF1(Truth(scam, ham), Incumbent(scam, ham)) == 30.0 / 61.0
    ensures Recall(Truth(scam, ham), Incumbent(scam, ham), scam) == Some(0.0)
  {
    hide *;
    ScoresOfFirst(scam, ham, 0, 0, 30);
    IncumbentIs(scam, ham);
    Ratios();
  }

  lemma CandidateScores(scam: Label, ham: Label)
    requires scam != ham
    ensures MacroF1(Truth(scam, ham), Candidate(scam, ham)) == (1.0 / 5.0 + 11.0 / 13.0) / 2.0
    ensures Recall(Truth(scam, ham), Candidate(scam, ham), scam) == Some(1.0)
  {
    hide *;
    ScoresOfFirst(scam, ham, 9, 1, 22);
    CandidateIs(scam, ham);
    Ratios();
  }

  lemma Ratios()
    ensures Ratio(0, 1) == 0.0 && Ratio(60, 61) == 60.0 / 61.0
    ensures Ratio(2, 10) == 1.0 / 5.0 && Ratio(44, 52) == 11.0 / 13.0 && Ratio(1, 1) == 1.0
  {}

  lemma TruthIs(scam: Label, ham: Label)
    ensures Truth(scam, ham) == FirstThen(scam, 1, ham, 31)
  {}

  lemma IncumbentIs(scam: Label, ham: Label)
    ensures Incumbent(scam, ham) == FirstThen(scam, 0, ham, 31)
  {}

  lemma CandidateIs(scam: Label, ham: Label)
    ensures Candidate(scam, ham) == FirstThen(scam, 9, ham, 31)
  {}

  lemma OneFixEightRegressions(scam: Label, ham: Label)
    requires scam != ham
    ensures |Truth(scam, ham)| == |Incumbent(scam, ham)| == |Candidate(scam, ham)|
    ensures FixSet(Truth(scam, ham), Incumbent(scam, ham), Candidate(scam, ham)) == Range(0, 1)
    ensures RegressionSet(Truth(scam, ham), Incumbent(scam, ham), Candidate(scam, ham)) == Range(1, 9)
  {
    hide FirstThen;
  }

  lemma {:induction false} ChooseOne(n: nat)
    requires n > 0
    ensures Choose(n, 1) == n && Choose(n, 0) == 1
  {
    if n > 1 {
      ChooseOne(n - 1);
    }
  }

  lemma OneOfNine()
    ensures PValue(9, 1) == 20.0 / 512.0
  {
    hide *;
    ChooseOne(9);
    PValueSymmetric(9, 1, 9);
    TwoSidedClosedForm(9, 8);
    LowerOfOne(9);
    PowersOfTwo();
    PValueFrom(9, 1, 20, 512);
  }

  lemma PValueFrom(n: nat, f: nat, weight: nat, all: nat)
    requires weight == NoLikelier(n, f, n) && all == Pow2(n)
    ensures PValue(n, f) == weight as real / all as real
  {}

  lemma LowerOfOne(n: nat)
    ensures Lower(n, 1) == Choose(n, 0) + Choose(n, 1)
  {
    hide Choose;
    assert Lower(n, 0) == Lower(n, -1) + Choose(n, 0);
  }

  lemma PowersOfTwo()
    ensures Pow2(9) == 512
  {
    assert Pow2(3) == 8 && Pow2(6) == 64;
  }

  /** The F1 floor does not stop every significant regression: here macro-F1 and Scam recall rise,
      and the default gate has only its direction check left. */
  lemma RegressionPassesTheFloors(ham: Label)
    requires ham != DEFAULT_GATE.scamLabel
    ensures var scam := DEFAULT_GATE.scamLabel;
            var y, base, cand := Truth(scam, ham), Incumbent(scam, ham), Candidate(scam, ham);
            && |y| == |base| == |cand|
            && FloorsMet(y, base, cand, DEFAULT_GATE)
            && var decision := EvaluatePromotion(y, base, cand, DEFAULT_GATE).value;
               && decision.candidateF1 > decision.baselineF1
               && decision.baselineScam == Some(0.0) && decision.candidateScam == Some(1.0)
               && decision.fixes == 1 && decision.regressions == 8 && decision.pValue < DEFAULT_GATE.alpha
               && decision.reason == SignificantlyWorse && !decision.promote
  {
    AnyRegressionPasses(DEFAULT_GATE, ham);
  }

  /** The same for every gate with at least its tolerances and a level above 20/512. */
  lemma AnyRegressionPasses(gate: Gate, ham: Label)
    requires ham != gate.scamLabel && gate.f1Tolerance >= 0.0 && gate.scamTolerance >= 0.0 && gate.alpha > 20.0 / 512.0
    ensures var scam := gate.scamLabel;
            var y, base, cand := Truth(scam, ham), Incumbent(scam, ham), Candidate(scam, ham);
            && |y| == |base| == |cand|
            && FloorsMet(y, base, cand, gate)
            && var decision := EvaluatePromotion(y, base, cand, gate).value;
               && decision.candidateF1 > decision.baselineF1
               && decision.baselineScam == Some(0.0) && decision.candidateScam == Some(1.0)
               && decision.fixes == 1 && decision.regressions == 8 && decision.pValue < gate.alpha
               && decision.reason == SignificantlyWorse && !decision.promote
  {
    var scam := gate.scamLabel;
    var y, base, cand := Truth(scam, ham), Incumbent(scam, ham), Candidate(scam, ham);
    OneFixEightRegressions(scam, ham);
    IncumbentScores(scam, ham);
    CandidateScores(scam, ham);
    OneOfNine();
    hide *;
    FloorsFromScores(y, base, cand, gate);
    DecisionIs(y, base, cand, gate);
    SignificantRegression(y, base, cand, gate);
  }

  lemma FloorsFromScores(y: seq<Label>, base: seq<Label>, cand: seq<Label>, gate: Gate)
    requires gate.f1Tolerance >= 0.0 && gate.scamTolerance >= 0.0
    requires MacroF1(y, base) == 30.0 / 61.0 && MacroF1(y, cand) == (1.0 / 5.0 + 11.0 / 13.0) / 2.0
    requires Recall(y, base, gate.scamLabel) == Some(0.0) && Recall(y, cand, gate.scamLabel) == Some(1.0)
    ensures FloorsMet(y, base, cand, gate) && MacroF1(y, cand) > MacroF1(y, base)
  {
    hide MacroF1, Recall;
  }

  /** What a decision carries. */
  lemma DecisionIs(y: seq<Label>, base: seq<Label>, cand: seq<Label>, gate: Gate)
    requires |y| == |base| == |cand|
    ensures var r := EvaluatePromotion(y, base, cand, gate);
            var f, g := |FixSet(y, base, cand)|, |RegressionSet(y, base, cand)|;
            && r.Ok? && r.value.fixes == f && r.value.regressions == g
            && r.value.baselineF1 == MacroF1(y, base) && r.value.candidateF1 == MacroF1(y, cand)
            && r.value.baselineScam == Recall(y, base, gate.scamLabel)
            && r.value.candidateScam == Recall(y, cand, gate.scamLabel)
            && (f + g > 0 ==> r.value.pValue == PValue(f + g, f))
            && (r.value.promote <==> r.value.reason == SignificantlyBetter)
  {
    hide MacroF1, Recall, FixSet, RegressionSet, PValue;
  }

  // ---------------------------------------------------------------- an even split

  lemma EvenSplitSets(a: Label, b: Label)
    requires a != b
    ensures var y, base, cand := [a, b], [a, a], [b, b];
            && FixSet(y, base, cand) == {1} && RegressionSet(y, base, cand) == {0}
            && TwoLabels(y, base, a, b) && TwoLabels(y, cand, a, b)
            && RowsOf(y, a) == {0} && RowsOf(y, b) == {1}
            && RowsOf(base, a) == {0, 1} && RowsOf(base, b) == {} && RowsOf(cand, a) == {} && RowsOf(cand, b) == {0, 1}
  {
    var y, base, cand := [a, b], [a, a], [b, b];
    assert y[0] in y && y[1] in y;
    forall c: Label | c in Classes(y, base) || c in Classes(y, cand) ensures c == a || c == b {}
    assert Classes(y, base) == {a, b} && Classes(y, cand) == {a, b};
  }

  lemma SameScores(a: Label, b: Label)
    requires a != b
    ensures MacroF1([a, b], [a, a]) == MacroF1([a, b], [b, b])
  {
    hide *;
    var y, base, cand := [a, b], [a, a], [b, b];
    EvenSplitSets(a, b);
    TwoLabelMacroF1(y, base, a, b);
    TwoLabelMacroF1(y, cand, a, b);
    SmallSets();
    F1Is(y, base, a, {0}, {0, 1}, {0});
    F1Is(y, base, b, {1}, {}, {});
    F1Is(y, cand, a, {0}, {}, {});
    F1Is(y, cand, b, {1}, {0, 1}, {1});
  }

  lemma SmallSets()
    ensures {0} * {0, 1} == {0} && {1} * {0, 1} == {1} && {0} * {} == {} && {1} * {} == {}
    ensures |{0, 1}| == 2
  {}

  lemma NoneToRecall(y: seq<Label>, pred: seq<Label>, c: Label)
    requires c !in y
    ensures Recall(y, pred, c) == None
  {
    assert RowsOf(y, c) == {};
  }

  /** One fix against one regression, with the same scores: promoted exactly above level 1. */
  lemma EvenSplitOnTwoRows(a: Label, b: Label, gate: Gate)
    requires a != b && gate.scamLabel != a && gate.scamLabel != b && gate.f1Tolerance >= 0.0
    ensures Promoted([a, b], [a, a], [b, b], gate) <==> gate.alpha > 1.0
  {
    var y, base, cand := [a, b], [a, a], [b, b];
    EvenSplitSets(a, b);
    SameScores(a, b);
    NoneToRecall(y, base, gate.scamLabel);
    NoneToRecall(y, cand, gate.scamLabel);
    hide MacroF1, Recall, FixSet, RegressionSet, Promoted;
    EvenSplitPromotedIff(y, base, cand, gate);
  }
}
