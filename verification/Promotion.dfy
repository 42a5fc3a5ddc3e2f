/** The promotion gate: macro-F1 floor, Scam-recall floor, McNemar's exact test
    (ai/retraining/promotion.py).  Every count is the size of a set of row indices. */
module Promotion {
  import opened Wrappers
  import opened Collections
  import opened Binomial

  type Label = string

  datatype Error = LengthMismatch

  datatype Reason =
    | IdenticalPredictions
    | F1Floor
    | ScamRecallFloor
    | NotSignificant
    | SignificantlyWorse
    | SignificantlyBetter

  datatype Decision = Decision(
    promote: bool,
    reason: Reason,
    baselineF1: real,
    candidateF1: real,
    fixes: nat,
    regressions: nat,
    pValue: real,
    baselineScam: Option<real>,
    candidateScam: Option<real>)

  /** The three thresholds of the gate. */
  datatype Gate = Gate(f1Tolerance: real, alpha: real, scamLabel: Label, scamTolerance: real)

  const DEFAULT_GATE := Gate(0.01, 0.05, "Scam", 0.01)

  // ---------------------------------------------------------------- discordant rows

  /** Baseline wrong, candidate right. */
  ghost function FixSet(y: seq<Label>, base: seq<Label>, cand: seq<Label>): set<nat>
    requires |y| == |base| == |cand|
  {
    set i: nat | i < |y| && base[i] != y[i] && cand[i] == y[i]
  }

  /** Baseline right, candidate wrong. */
  ghost function RegressionSet(y: seq<Label>, base: seq<Label>, cand: seq<Label>): set<nat>
    requires |y| == |base| == |cand|
  {
    set i: nat | i < |y| && base[i] == y[i] && cand[i] != y[i]
  }

  /** `discordant_indices`: the two cells, each in row order. */
  method DiscordantIndices(y: seq<Label>, base: seq<Label>, cand: seq<Label>)
    returns (r: Result<(seq<nat>, seq<nat>), Error>)
    ensures r.Err? <==> !(|y| == |base| == |cand|)
    ensures r.Ok? ==>
      && Increasing(r.value.0) && Elements(r.value.0) == FixSet(y, base, cand)
      && Increasing(r.value.1) && Elements(r.value.1) == RegressionSet(y, base, cand)
  {
    if !(|y| == |base| == |cand|) {
      return Err(LengthMismatch);
    }
    var fixes: seq<nat>, regressions: seq<nat> := [], [];
    for i := 0 to |y|
      invariant Increasing(fixes) && Increasing(regressions)
      invariant forall k <- fixes :: k < i && k in FixSet(y, base, cand)
      invariant forall k <- regressions :: k < i && k in RegressionSet(y, base, cand)
      invariant forall k <- FixSet(y, base, cand) :: k < i ==> k in fixes
      invariant forall k <- RegressionSet(y, base, cand) :: k < i ==> k in regressions
    {
      var baseOk, candOk := base[i] == y[i], cand[i] == y[i];
      if !baseOk && candOk {
        assert forall k :: 0 <= k < |fixes| ==> fixes[k] in fixes;
        fixes := fixes + [i];
      } else if baseOk && !candOk {
        assert forall k :: 0 <= k < |regressions| ==> regressions[k] in regressions;
        regressions := regressions + [i];
      }
    }
    return Ok((fixes, regressions));
  }

  /** `mcnemar_counts`. */
  method McNemarCounts(y: seq<Label>, base: seq<Label>, cand: seq<Label>)
    returns (r: Result<(nat, nat), Error>)
    ensures r.Err? <==> !(|y| == |base| == |cand|)
    ensures r.Ok? ==> r.value == (|FixSet(y, base, cand)|, |RegressionSet(y, base, cand)|)
  {
    var rows := DiscordantIndices(y, base, cand);
    if rows.Err? {
      return Err(rows.error);
    }
    DistinctCardinality(rows.value.0);
    DistinctCardinality(rows.value.1);
    return Ok((|rows.value.0|, |rows.value.1|));
  }

  // ---------------------------------------------------------------- macro-F1 and recall

  ghost function RowsOf(s: seq<Label>, c: Label): set<nat> {
    set i: nat | i < |s| && s[i] == c
  }

  ghost function Hits(y: seq<Label>, pred: seq<Label>, c: Label): set<nat> {
    RowsOf(y, c) * RowsOf(pred, c)
  }

  /** Harmonic mean of precision and recall of one class: 2 TP / (2 TP + FP + FN). */
  ghost function F1(y: seq<Label>, pred: seq<Label>, c: Label): real {
    var tp, fp, fn := |Hits(y, pred, c)|, |RowsOf(pred, c) - RowsOf(y, c)|, |RowsOf(y, c) - RowsOf(pred, c)|;
    Ratio(2 * tp, 2 * tp + fp + fn)
  }

  function Ratio(a: nat, b: nat): real {
    if b == 0 then 0.0 else a as real / b as real
  }

  /** The classes `f1_score` averages over: every label seen in either sequence. */
  ghost function Classes(y: seq<Label>, pred: seq<Label>): set<Label> {
    (set c | c in y) + (set c | c in pred)
  }

  ghost function SumF1(classes: set<Label>, y: seq<Label>, pred: seq<Label>): real {
    if classes == {} then 0.0
    else
      var c :| c in classes;
      F1(y, pred, c) + SumF1(classes - {c}, y, pred)
  }

  ghost function MacroF1(y: seq<Label>, pred: seq<Label>): real {
    var classes := Classes(y, pred);
    if classes == {} then 0.0 else SumF1(classes, y, pred) / |classes| as real
  }

  /** `_recall`. */
  ghost function Recall(y: seq<Label>, pred: seq<Label>, c: Label): Option<real> {
    if RowsOf(y, c) == {} then None else Some(Ratio(|Hits(y, pred, c)|, |RowsOf(y, c)|))
  }

  // ---------------------------------------------------------------- the verdict

  /** `evaluate_promotion`, checks in the source's order. */
  ghost function EvaluatePromotion(y: seq<Label>, base: seq<Label>, cand: seq<Label>, gate: Gate)
    : Result<Decision, Error>
  {
    if !(|y| == |base| == |cand|) then Err(LengthMismatch)
    else
      var baseF1, candF1 := MacroF1(y, base), MacroF1(y, cand);
      var baseScam, candScam := Recall(y, base, gate.scamLabel), Recall(y, cand, gate.scamLabel);
      var fixes, regressions := |FixSet(y, base, cand)|, |RegressionSet(y, base, cand)|;
      var n := fixes + regressions;
      var p := if n > 0 then PValue(n, fixes) else 1.0;
      var reason :=
        if n == 0 then IdenticalPredictions
        else if candF1 < baseF1 - gate.f1Tolerance then F1Floor
        else if baseScam.Some? && candScam.value < baseScam.value - gate.scamTolerance then ScamRecallFloor
        else if p >= gate.alpha then NotSignificant
        else if regressions > fixes then SignificantlyWorse
        else SignificantlyBetter;
      Ok(Decision(reason == SignificantlyBetter, reason, baseF1, candF1, fixes, regressions, p, baseScam, candScam))
  }

  ghost predicate Promoted(y: seq<Label>, base: seq<Label>, cand: seq<Label>, gate: Gate) {
    var r := EvaluatePromotion(y, base, cand, gate);
    r.Ok? && r.value.promote
  }

  // ---------------------------------------------------------------- what a promotion proves

  /** At a significance level of at most 1, a promoted candidate fixes more rows than it
      breaks.  With a level above 1 an even split gets through as well. */
  lemma PromotionMeansMoreFixes(y: seq<Label>, base: seq<Label>, cand: seq<Label>, gate: Gate)
    requires Promoted(y, base, cand, gate)
    ensures |FixSet(y, base, cand)| >= |RegressionSet(y, base, cand)|
    ensures gate.alpha <= 1.0 ==> |FixSet(y, base, cand)| > |RegressionSet(y, base, cand)|
  {
    hide *;
    PromotedFacts(y, base, cand, gate);
    var f := |FixSet(y, base, cand)|;
    if f == |RegressionSet(y, base, cand)| {
      EvenSplitIsCertain(2 * f, f);
    }
  }

  /** The floors are met. */
  ghost predicate FloorsMet(y: seq<Label>, base: seq<Label>, cand: seq<Label>, gate: Gate) {
    var before, after := Recall(y, base, gate.scamLabel), Recall(y, cand, gate.scamLabel);
    && MacroF1(y, cand) >= MacroF1(y, base) - gate.f1Tolerance
    && (before.Some? && after.Some? ==> after.value >= before.value - gate.scamTolerance)
  }

  /** The verdict, whatever the order of the checks; and a candidate below a floor is refused
      for that, whatever the significance test says. */
  lemma VerdictMeans(y: seq<Label>, base: seq<Label>, cand: seq<Label>, gate: Gate)
    requires |y| == |base| == |cand|
    ensures var f, r := |FixSet(y, base, cand)|, |RegressionSet(y, base, cand)|;
            var decision := EvaluatePromotion(y, base, cand, gate).value;
            && decision.fixes == f && decision.regressions == r
            && (Promoted(y, base, cand, gate) <==>
                f + r > 0 && f >= r && FloorsMet(y, base, cand, gate) && PValue(f + r, f) < gate.alpha)
            && (f + r > 0 && !FloorsMet(y, base, cand, gate) <==>
                  decision.reason == F1Floor || decision.reason == ScamRecallFloor)
  {
    RecallNeedsTruthOnly(y, base, cand, gate.scamLabel);
    hide MacroF1, Recall, FixSet, RegressionSet, PValue;
  }

  /** A significant result with more regressions than fixes is refused by a floor exactly if one is
      missed, and otherwise by the direction check. */
  lemma SignificantRegression(y: seq<Label>, base: seq<Label>, cand: seq<Label>, gate: Gate)
    requires |y| == |base| == |cand|
    requires var f, r := |FixSet(y, base, cand)|, |RegressionSet(y, base, cand)|;
             r > f && PValue(f + r, f) < gate.alpha
    ensures var reason := EvaluatePromotion(y, base, cand, gate).value.reason;
            && (reason == F1Floor || reason == ScamRecallFloor <==> !FloorsMet(y, base, cand, gate))
            && (reason == SignificantlyWorse <==> FloorsMet(y, base, cand, gate))
    ensures !Promoted(y, base, cand, gate)
  {
    RecallNeedsTruthOnly(y, base, cand, gate.scamLabel);
    hide MacroF1, Recall, FixSet, RegressionSet, PValue;
  }

  lemma RecallNeedsTruthOnly(y: seq<Label>, a: seq<Label>, b: seq<Label>, c: Label)
    ensures Recall(y, a, c).None? <==> Recall(y, b, c).None?
  {}

  /** With as many fixes as regressions, only a level above 1 promotes. */
  lemma EvenSplitPromotedIff(y: seq<Label>, base: seq<Label>, cand: seq<Label>, gate: Gate)
    requires |y| == |base| == |cand| && FloorsMet(y, base, cand, gate)
    requires |FixSet(y, base, cand)| == |RegressionSet(y, base, cand)| > 0
    ensures Promoted(y, base, cand, gate) <==> gate.alpha > 1.0
  {
    var f := |FixSet(y, base, cand)|;
    EvenSplitIsCertain(2 * f, f);
    hide MacroF1, RowsOf, FixSet, RegressionSet, PValue, Hits;
  }

  /** Two models can never each be promoted over the other. */
  lemma NeverPromotedBothWays(y: seq<Label>, a: seq<Label>, b: seq<Label>, gate: Gate)
    requires gate.alpha <= 1.0
    ensures !(Promoted(y, a, b, gate) && Promoted(y, b, a, gate))
  {
    if Promoted(y, a, b, gate) && Promoted(y, b, a, gate) {
      SwapRoles(y, a, b);
      PromotionMeansMoreFixes(y, a, b, gate);
      PromotionMeansMoreFixes(y, b, a, gate);
    }
  }

  lemma SwapRoles(y: seq<Label>, a: seq<Label>, b: seq<Label>)
    requires |y| == |a| == |b|
    ensures FixSet(y, a, b) == RegressionSet(y, b, a) && RegressionSet(y, a, b) == FixSet(y, b, a)
  {}

  /** A promotion needs enough disagreements: alpha * 2^n > 2, so 6 at the default level. */
  lemma PromotionNeedsEvidence(y: seq<Label>, base: seq<Label>, cand: seq<Label>, gate: Gate)
    requires Promoted(y, base, cand, gate)
    ensures TimesPow2(gate.alpha, |FixSet(y, base, cand)| + |RegressionSet(y, base, cand)|) > 2.0
    ensures gate.alpha <= 0.05 ==> |FixSet(y, base, cand)| + |RegressionSet(y, base, cand)| >= 6
  {
    hide *;
    PromotedFacts(y, base, cand, gate);
    var f := |FixSet(y, base, cand)|;
    var n := f + |RegressionSet(y, base, cand)|;
    PValueFloor(n, f);
    EvidenceBound(PValue(n, f), gate.alpha, n);
  }

  lemma PromotedFacts(y: seq<Label>, base: seq<Label>, cand: seq<Label>, gate: Gate)
    requires Promoted(y, base, cand, gate)
    ensures |y| == |base| == |cand|
    ensures var f, r := |FixSet(y, base, cand)|, |RegressionSet(y, base, cand)|;
            f >= r && f + r > 0 && PValue(f + r, f) < gate.alpha
  {}

  lemma EvidenceBound(p: real, alpha: real, n: nat)
    requires p < alpha && TimesPow2(p, n) >= 2.0
    ensures TimesPow2(alpha, n) > 2.0
    ensures alpha <= 0.05 ==> n >= 6
  {
    var w := Pow2(n) as real;
    ScaleLess(p, alpha, w, p * w, alpha * w);
    if n <= 5 {
      SmallPowers(n);
      if alpha <= 0.05 {
        ScaleLess(alpha, 0.0625, w, alpha * w, 0.0625 * w);
      }
    }
  }

  lemma ScaleLess(a: real, b: real, c: real, ac: real, bc: real)
    requires a < b && c > 0.0 && ac == a * c && bc == b * c
    ensures ac < bc
  {}

  lemma SmallPowers(n: nat)
    requires n <= 5
    ensures Pow2(n) <= 32
  {
    assert Pow2(2) == 4 && Pow2(4) == 16;
  }

  /** Six is reached: against no regression, with the floors met, the fixes alone decide, and at the
      default level it takes exactly six of them. */
  lemma FixesAlonePromote(y: seq<Label>, base: seq<Label>, cand: seq<Label>, gate: Gate)
    requires |y| == |base| == |cand| && FloorsMet(y, base, cand, gate) && RegressionSet(y, base, cand) == {}
    ensures var f := |FixSet(y, base, cand)|;
            && (Promoted(y, base, cand, gate) <==> f > 0 && TimesPow2(gate.alpha, f) > 2.0)
            && (gate == DEFAULT_GATE ==> (Promoted(y, base, cand, gate) <==> f >= 6))
  {
    var f := |FixSet(y, base, cand)|;
    VerdictMeans(y, base, cand, gate);
    hide FloorsMet, Promoted, RegressionSet, FixSet, EvaluatePromotion;
    if f > 0 {
      PValueOfFixes(f);
      FixesClear(f, gate.alpha);
    }
  }

  lemma PValueOfFixes(f: nat)
    requires f > 0
    ensures PValue(f, f) == 2.0 / Pow2(f) as real
  {
    TwoSidedClosedForm(f, f);
    assert Lower(f, 0) == Lower(f, -1) + Choose(f, 0);
    hide Choose, Lower, NoLikelier, Pow2;
  }

  lemma FixesClear(f: nat, alpha: real)
    requires f > 0
    ensures 2.0 / Pow2(f) as real < alpha <==> TimesPow2(alpha, f) > 2.0
    ensures alpha == 0.05 ==> (TimesPow2(alpha, f) > 2.0 <==> f >= 6)
  {
    var w := Pow2(f) as real;
    QuotientBelow(2.0, w, alpha);
    if f >= 6 {
      LargePowers(f);
    } else {
      SmallPowers(f);
    }
  }

  lemma QuotientBelow(a: real, w: real, alpha: real)
    requires w > 0.0
    ensures a / w < alpha <==> alpha * w > a
  {
    var q := a / w;
    assert q * w == a;
  }

  lemma {:induction false} LargePowers(n: nat)
    requires n >= 6
    ensures Pow2(n) >= 64
  {
    if n == 6 {
      assert Pow2(3) == 8;
    } else {
      LargePowers(n - 1);
    }
  }

  // ---------------------------------------------------------------- monotonicity

  ghost function Correct(y: seq<Label>, pred: seq<Label>, i: nat): seq<Label>
    requires i < |y| == |pred|
  {
    pred[i := y[i]]
  }

  /** Correcting one wrong prediction either adds a fix or removes a regression. */
  lemma CorrectingMovesOneRow(y: seq<Label>, base: seq<Label>, cand: seq<Label>, i: nat)
    requires i < |y| == |base| == |cand| && cand[i] != y[i]
    ensures var better := Correct(y, cand, i);
            if base[i] == y[i] then
              && FixSet(y, base, better) == FixSet(y, base, cand)
              && i in RegressionSet(y, base, cand)
              && RegressionSet(y, base, better) == RegressionSet(y, base, cand) - {i}
            else
              && i !in FixSet(y, base, cand)
              && FixSet(y, base, better) == FixSet(y, base, cand) + {i}
              && RegressionSet(y, base, better) == RegressionSet(y, base, cand)
  {}

  lemma CorrectingMovesRows(y: seq<Label>, pred: seq<Label>, i: nat, c: Label)
    requires i < |y| == |pred| && pred[i] != y[i]
    ensures var better := Correct(y, pred, i);
            && (c == y[i] ==> RowsOf(better, c) == RowsOf(pred, c) + {i} && i !in RowsOf(pred, c))
            && (c == pred[i] ==> RowsOf(better, c) == RowsOf(pred, c) - {i})
            && (c != y[i] && c != pred[i] ==> RowsOf(better, c) == RowsOf(pred, c))
  {}

  /** With TP hits, T true rows and P predicted rows the F1 denominator is T + P. */
  lemma F1Counts(y: seq<Label>, pred: seq<Label>, c: Label)
    ensures F1(y, pred, c) == Ratio(2 * |Hits(y, pred, c)|, |RowsOf(y, c)| + |RowsOf(pred, c)|)
    ensures |Hits(y, pred, c)| <= |RowsOf(y, c)| && |Hits(y, pred, c)| <= |RowsOf(pred, c)|
  {
    var t, p := RowsOf(y, c), RowsOf(pred, c);
    assert t == t * p + (t - p) && p == t * p + (p - t);
    assert |t| == |t * p| + |t - p|;
    assert |p| == |t * p| + |p - t|;
  }

  lemma HitsAfterCorrection(y: seq<Label>, pred: seq<Label>, i: nat, c: Label)
    requires i < |y| == |pred| && pred[i] != y[i]
    ensures var better := Correct(y, pred, i);
            |Hits(y, better, c)| == |Hits(y, pred, c)| + if c == y[i] then 1 else 0
  {
    CorrectingMovesRows(y, pred, i, c);
    var better := Correct(y, pred, i);
    if c == y[i] {
      assert Hits(y, better, c) == Hits(y, pred, c) + {i};
    } else {
      assert Hits(y, better, c) == Hits(y, pred, c);
    }
  }

  /** No class's F1 drops, and a class that disappears from the predictions scored 0. */
  lemma CorrectingKeepsF1(y: seq<Label>, pred: seq<Label>, i: nat, c: Label)
    requires i < |y| == |pred| && pred[i] != y[i]
    ensures F1(y, pred, c) <= F1(y, Correct(y, pred, i), c)
    ensures c !in Classes(y, Correct(y, pred, i)) ==> F1(y, pred, c) == 0.0
  {
    hide *;
    var better := Correct(y, pred, i);
    HitsAfterCorrection(y, pred, i, c);
    PredictionsAfterCorrection(y, pred, i, c);
    F1Counts(y, pred, c);
    F1Counts(y, better, c);
    var tp, t, p := |Hits(y, pred, c)|, |RowsOf(y, c)|, |RowsOf(pred, c)|;
    if c == y[i] {
      RatioUp(tp, t + p);
    } else if c == pred[i] {
      RatioFewer(tp, t + p);
    }
    if c !in Classes(y, better) {
      AbsentClassScoresZero(y, pred, better, c);
    }
  }

  lemma PredictionsAfterCorrection(y: seq<Label>, pred: seq<Label>, i: nat, c: Label)
    requires i < |y| == |pred| && pred[i] != y[i]
    ensures |RowsOf(Correct(y, pred, i), c)| ==
            |RowsOf(pred, c)| + (if c == y[i] then 1 else if c == pred[i] then -1 else 0)
  {
    CorrectingMovesRows(y, pred, i, c);
    PredictedOnce(pred, i);
  }

  lemma PredictedOnce(pred: seq<Label>, i: nat)
    requires i < |pred|
    ensures i in RowsOf(pred, pred[i])
  {}

  lemma AbsentClassScoresZero(y: seq<Label>, pred: seq<Label>, better: seq<Label>, c: Label)
    requires c !in Classes(y, better)
    ensures F1(y, pred, c) == 0.0
  {
    assert RowsOf(y, c) == {};
  }

  lemma RatioUp(tp: nat, d: nat)
    requires 2 * tp <= d
    ensures Ratio(2 * tp, d) <= Ratio(2 * (tp + 1), d + 1)
  {
    if d > 0 {
      Quotients(2 * tp, d, 2 * (tp + 1), d + 1);
    }
  }

  lemma RatioFewer(tp: nat, d: nat)
    requires 2 * tp < d || tp == 0
    ensures d > 0 ==> Ratio(2 * tp, d) <= Ratio(2 * tp, d - 1)
  {
    if d > 1 {
      MulOrder(d - 1, d, 2 * tp);
      Quotients(2 * tp, d, 2 * tp, d - 1);
    }
  }

  // ---- macro-F1

  /** The order in which the per-class scores are added does not matter. */
  lemma {:induction false} SumF1Pick(classes: set<Label>, y: seq<Label>, pred: seq<Label>, c: Label)
    requires c in classes
    ensures SumF1(classes, y, pred) == F1(y, pred, c) + SumF1(classes - {c}, y, pred)
  {
    hide F1;
    var d :| d in classes && SumF1(classes, y, pred) == F1(y, pred, d) + SumF1(classes - {d}, y, pred);
    if d != c {
      SumF1Pick(classes - {d}, y, pred, c);
      SumF1Pick(classes - {c}, y, pred, d);
      assert classes - {d} - {c} == classes - {c} - {d};
    }
  }

  lemma {:induction false} SumF1Grows(classes: set<Label>, y: seq<Label>, pred: seq<Label>, i: nat)
    requires i < |y| == |pred| && pred[i] != y[i]
    ensures SumF1(classes, y, pred) <= SumF1(classes, y, Correct(y, pred, i))
    ensures SumF1(classes, y, pred) >= 0.0
  {
    hide F1, Correct;
    if classes != {} {
      var c :| c in classes;
      SumF1Pick(classes, y, pred, c);
      SumF1Pick(classes, y, Correct(y, pred, i), c);
      CorrectingKeepsF1(y, pred, i, c);
      F1NonNegative(y, pred, c);
      SumF1Grows(classes - {c}, y, pred, i);
    }
  }

  lemma F1NonNegative(y: seq<Label>, pred: seq<Label>, c: Label)
    ensures F1(y, pred, c) >= 0.0
  {
    hide Hits, RowsOf;
  }

  /** Correcting a prediction never adds a class; it can only lose the wrong label. */
  lemma CorrectingKeepsClasses(y: seq<Label>, pred: seq<Label>, i: nat)
    requires i < |y| == |pred| && pred[i] != y[i]
    ensures var before, after := Classes(y, pred), Classes(y, Correct(y, pred, i));
            after != {} && (after == before || (pred[i] in before && after == before - {pred[i]}))
  {
    var better := Correct(y, pred, i);
    assert y[i] in y && pred[i] in pred;
    forall c | c in Classes(y, better) ensures c in Classes(y, pred) {
      if c !in y {
        var k :| 0 <= k < |better| && better[k] == c;
        assert pred[k] == c;
      }
    }
    forall c | c in Classes(y, pred) && c != pred[i] ensures c in Classes(y, better) {
      if c !in y {
        var k :| 0 <= k < |pred| && pred[k] == c;
        assert better[k] == c;
      }
    }
    var before, after := Classes(y, pred), Classes(y, better);
    assert y[i] in after && pred[i] in before;
    if pred[i] in after {
      assert after == before;
    } else {
      assert after == before - {pred[i]};
    }
  }

  /** Correcting one wrong prediction never lowers macro-F1. */
  lemma CorrectingKeepsMacroF1(y: seq<Label>, pred: seq<Label>, i: nat)
    requires i < |y| == |pred| && pred[i] != y[i]
    ensures MacroF1(y, pred) <= MacroF1(y, Correct(y, pred, i))
  {
    hide F1, SumF1, Classes, Correct;
    var better := Correct(y, pred, i);
    var before, after := Classes(y, pred), Classes(y, better);
    CorrectingKeepsClasses(y, pred, i);
    SumF1Grows(after, y, pred, i);
    if after != before {
      SumF1Pick(before, y, pred, pred[i]);
      CorrectingKeepsF1(y, pred, i, pred[i]);
      assert |after| == |before| - 1;
    }
    MeanGrows(SumF1(before, y, pred), SumF1(after, y, better), |before|, |after|);
  }

  lemma MeanGrows(a: real, b: real, m: nat, n: nat)
    requires 0.0 <= a <= b && m >= n > 0
    ensures a / m as real <= b / n as real
  {
    var x, y := a / m as real, b / n as real;
    assert x * m as real == a && y * n as real == b;
    NonNegativeQuotient(a, m as real);
    if m > n {
      ScaleMore(x, n as real, m as real);
    }
    Cancel(x, y, n as real, x * n as real, y * n as real);
  }

  lemma NonNegativeQuotient(a: real, m: real)
    requires a >= 0.0 && m > 0.0
    ensures a / m >= 0.0
  {}

  lemma ScaleMore(x: real, n: real, m: real)
    requires x >= 0.0 && n <= m
    ensures x * n <= x * m
  {}

  // ---- Scam recall

  lemma CorrectingKeepsRecall(y: seq<Label>, pred: seq<Label>, i: nat, c: Label)
    requires i < |y| == |pred| && pred[i] != y[i]
    ensures Recall(y, pred, c).None? <==> Recall(y, Correct(y, pred, i), c).None?
    ensures Recall(y, pred, c).Some? ==> Recall(y, pred, c).value <= Recall(y, Correct(y, pred, i), c).value
  {
    HitsAfterCorrection(y, pred, i, c);
    hide Hits, Correct;
    var t := |RowsOf(y, c)|;
    if RowsOf(y, c) != {} {
      MulOrder(|Hits(y, pred, c)|, |Hits(y, Correct(y, pred, i), c)|, t);
      Quotients(|Hits(y, pred, c)|, t, |Hits(y, Correct(y, pred, i), c)|, t);
    }
  }

  // ---- the whole verdict

  /** The p-value of a majority of fixes does not grow when a wrong prediction is corrected. */
  lemma CorrectingKeepsSignificance(y: seq<Label>, base: seq<Label>, cand: seq<Label>, i: nat)
    requires i < |y| == |base| == |cand| && cand[i] != y[i]
    requires |FixSet(y, base, cand)| >= |RegressionSet(y, base, cand)|
    requires |FixSet(y, base, cand)| > 0
    ensures var f, r := |FixSet(y, base, cand)|, |RegressionSet(y, base, cand)|;
            var f', r' := |FixSet(y, base, Correct(y, cand, i))|, |RegressionSet(y, base, Correct(y, cand, i))|;
            f' >= r' && f' > 0 && PValue(f' + r', f') <= PValue(f + r, f)
  {
    hide *;
    CorrectingMovesCounts(y, base, cand, i);
    var f, r := |FixSet(y, base, cand)|, |RegressionSet(y, base, cand)|;
    if base[i] == y[i] {
      FewerRegressionsShrinkP(f + r, f);
    } else {
      MoreFixesShrinkP(f + r, f);
    }
  }

  lemma CorrectingMovesCounts(y: seq<Label>, base: seq<Label>, cand: seq<Label>, i: nat)
    requires i < |y| == |base| == |cand| && cand[i] != y[i]
    ensures var better := Correct(y, cand, i);
            var (df, dr) := if base[i] == y[i] then (0, -1) else (1, 0);
            |FixSet(y, base, better)| == |FixSet(y, base, cand)| + df &&
            |RegressionSet(y, base, better)| == |RegressionSet(y, base, cand)| + dr
  {
    hide *;
    CorrectingMovesOneRow(y, base, cand, i);
  }

  /** Improving a promoted candidate keeps it promoted: correcting any one wrong prediction
      never turns the verdict around, whatever the thresholds. */
  lemma PromotionIsMonotone(y: seq<Label>, base: seq<Label>, cand: seq<Label>, gate: Gate, i: nat)
    requires Promoted(y, base, cand, gate)
    requires i < |y| && cand[i] != y[i]
    ensures Promoted(y, base, Correct(y, cand, i), gate)
  {
    PromotedFacts(y, base, cand, gate);
    CorrectingKeepsMacroF1(y, cand, i);
    CorrectingKeepsRecall(y, cand, i, gate.scamLabel);
    CorrectingKeepsSignificance(y, base, cand, i);
    hide MacroF1, Recall, FixSet, RegressionSet, Correct, PValue;
  }
}
