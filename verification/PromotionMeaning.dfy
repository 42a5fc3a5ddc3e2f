/** What the numbers of the promotion gate are: F1 of a class, the mean over the classes, recall, and which
    check each reason stands for (ai/retraining/promotion.py:155-158 and :184-244). */
module PromotionMeaning {
  import opened Wrappers
  import opened Collections
  import opened Fractions
  import Binomial
  import opened Promotion

  // ---------------------------------------------------------------- one class

  /** The F1 of a class lies between 0 and 1; it is twice the rows both say over the rows each says, and 1
      exactly if both say the class of the same rows, and of some. */
  lemma F1Means(y: seq<Label>, pred: seq<Label>, c: Label)
    ensures 0.0 <= F1(y, pred, c) <= 1.0
    ensures F1(y, pred, c) == 1.0 <==> RowsOf(y, c) == RowsOf(pred, c) != {}
    ensures var said := |RowsOf(y, c)| + |RowsOf(pred, c)|;
            && (said > 0 ==> F1(y, pred, c) * said as real == (2 * |RowsOf(y, c) * RowsOf(pred, c)|) as real)
            && (said == 0 ==> F1(y, pred, c) == 0.0)
  {
    F1Counts(y, pred, c);
    var t, p := RowsOf(y, c), RowsOf(pred, c);
    BothSay(t, p);
    hide F1, RowsOf;
    if |t| + |p| > 0 {
      Portion(2 * |t * p|, |t| + |p|);
    }
  }

  lemma BothSay(t: set<nat>, p: set<nat>)
    ensures |t * p| <= |t| && |t * p| <= |p|
    ensures 2 * |t * p| == |t| + |p| <==> t == p
  {
    RemoveSubset(t * p, t);
    RemoveSubset(t * p, p);
    if t == p {
      assert t * p == t;
    }
    if 2 * |t * p| == |t| + |p| {
      SubsetOfSameSize(t * p, t);
      SubsetOfSameSize(t * p, p);
    }
  }

  /** F1 is the harmonic mean of precision and recall. */
  lemma F1IsHarmonic(y: seq<Label>, pred: seq<Label>, c: Label)
    requires RowsOf(y, c) * RowsOf(pred, c) != {}
    ensures RowsOf(pred, c) != {} && RowsOf(y, c) != {}
    ensures var both := |RowsOf(y, c) * RowsOf(pred, c)| as real;
            var precision, recall := both / |RowsOf(pred, c)| as real, both / |RowsOf(y, c)| as real;
            F1(y, pred, c) == 2.0 / (1.0 / precision + 1.0 / recall)
  {
    F1Counts(y, pred, c);
    hide F1, RowsOf;
    var both, p, t := |RowsOf(y, c) * RowsOf(pred, c)| as real, |RowsOf(pred, c)| as real, |RowsOf(y, c)| as real;
    Harmonic(both, p, t);
  }

  lemma Harmonic(both: real, p: real, t: real)
    requires both > 0.0 && p > 0.0 && t > 0.0
    ensures both / p > 0.0 && both / t > 0.0
    ensures 2.0 / (1.0 / (both / p) + 1.0 / (both / t)) == 2.0 * both / (t + p)
  {
    Flipped(both, p);
    Flipped(both, t);
    assert p / both + t / both == (p + t) / both;
    Flipped(p + t, both);
    assert 2.0 / ((p + t) / both) == 2.0 * (1.0 / ((p + t) / both)) by { TwiceOver((p + t) / both); }
    assert 2.0 * (both / (p + t)) == 2.0 * both / (t + p);
  }

  lemma Flipped(a: real, b: real)
    requires a > 0.0 && b > 0.0
    ensures a / b > 0.0 && 1.0 / (a / b) == b / a
  {
    var q := a / b;
    assert q * b == a;
    Positive(1.0, b);
    if q <= 0.0 {
      NotPositive(q, b);
    }
    assert 1.0 / q == b / a by { SameQuotient(q, b, a); }
  }

  lemma NotPositive(q: real, b: real)
    requires q <= 0.0 && b > 0.0
    ensures q * b <= 0.0
  {}

  lemma SameQuotient(q: real, b: real, a: real)
    requires q > 0.0 && a > 0.0 && q * b == a
    ensures 1.0 / q == b / a
  {
    var r := 1.0 / q;
    assert r * q == 1.0;
    assert r * a == r * q * b == b;
  }

  lemma TwiceOver(x: real)
    requires x > 0.0
    ensures 2.0 / x == 2.0 * (1.0 / x)
  {}

  /** Recall of a class the truth has is the share of its rows that were found. */
  lemma RecallMeans(y: seq<Label>, pred: seq<Label>, c: Label)
    requires |y| == |pred|
    ensures Recall(y, pred, c).None? <==> c !in y
    ensures Recall(y, pred, c).Some? ==>
              Recall(y, pred, c).value * |RowsOf(y, c)| as real ==
              |set i: nat | i < |y| && y[i] == c && pred[i] == c| as real
    ensures Recall(y, pred, c).Some? ==> 0.0 <= Recall(y, pred, c).value <= 1.0
  {
    RecallCounts(y, pred, c);
    RemoveSubset(Hits(y, pred, c), RowsOf(y, c));
    hide RowsOf, Recall;
    if c in y {
      Portion(|Hits(y, pred, c)|, |RowsOf(y, c)|);
    }
  }

  lemma RecallCounts(y: seq<Label>, pred: seq<Label>, c: Label)
    requires |y| == |pred|
    ensures (set i: nat | i < |y| && y[i] == c && pred[i] == c) == Hits(y, pred, c)
    ensures Hits(y, pred, c) <= RowsOf(y, c)
    ensures if c in y
            then |RowsOf(y, c)| > 0 && Recall(y, pred, c) == Some(Ratio(|Hits(y, pred, c)|, |RowsOf(y, c)|))
            else Recall(y, pred, c) == None
  {
    if c in y {
      var i :| 0 <= i < |y| && y[i] == c;
      assert i in RowsOf(y, c);
    }
  }

  // ---------------------------------------------------------------- the mean over the classes

  /** F1 of a list of classes, added up. */
  ghost function ScoresOf(labels: seq<Label>, y: seq<Label>, pred: seq<Label>): real {
    if labels == [] then 0.0 else ScoresOf(labels[..|labels| - 1], y, pred) + F1(y, pred, labels[|labels| - 1])
  }

  lemma {:induction false} SumOfList(labels: seq<Label>, y: seq<Label>, pred: seq<Label>)
    requires Distinct(labels)
    ensures SumF1(Elements(labels), y, pred) == ScoresOf(labels, y, pred)
  {
    hide F1, SumF1;
    if labels == [] {
      NoClass(y, pred);
      assert Elements(labels) == {};
    } else {
      var rest, last := labels[..|labels| - 1], labels[|labels| - 1];
      SumOfList(rest, y, pred);
      assert labels == rest + [last];
      ElementsOfAppend(rest, last);
      SumF1Pick(Elements(labels), y, pred, last);
      assert Elements(labels) - {last} == Elements(rest);
    }
  }

  lemma NoClass(y: seq<Label>, pred: seq<Label>)
    ensures SumF1({}, y, pred) == 0.0
  {}

  /** Macro-F1 is the mean: however the classes that occur are listed, it is their F1 added up, over their number. */
  lemma MacroF1IsMean(labels: seq<Label>, y: seq<Label>, pred: seq<Label>)
    requires Distinct(labels) && labels != [] && forall c :: c in labels <==> c in y || c in pred
    ensures MacroF1(y, pred) * |labels| as real == ScoresOf(labels, y, pred)
  {
    hide *;
    ClassesAre(y, pred, labels);
    DistinctCardinality(labels);
    SumOfList(labels, y, pred);
    MacroF1Is(y, pred);
    Whole(SumF1(Elements(labels), y, pred), |labels| as real);
  }

  lemma ClassesAre(y: seq<Label>, pred: seq<Label>, labels: seq<Label>)
    requires labels != [] && forall c :: c in labels <==> c in y || c in pred
    ensures Elements(labels) == Classes(y, pred) && labels[0] in y + pred
  {}

  lemma MacroF1Is(y: seq<Label>, pred: seq<Label>)
    ensures y != [] || pred != [] ==>
              |Classes(y, pred)| > 0 &&
              MacroF1(y, pred) == SumF1(Classes(y, pred), y, pred) / |Classes(y, pred)| as real
  {
    hide SumF1;
    if y != [] || pred != [] {
      assert (if y != [] then y[0] else pred[0]) in Classes(y, pred);
    }
  }

  lemma Whole(a: real, w: real)
    requires w != 0.0
    ensures a / w * w == a
  {}

  lemma {:induction false} SumBetween(classes: set<Label>, y: seq<Label>, pred: seq<Label>, low: real, high: real)
    requires forall c <- classes :: low <= F1(y, pred, c) <= high
    ensures low * |classes| as real <= SumF1(classes, y, pred) <= high * |classes| as real
  {
    hide *;
    if classes == {} {
      NoClass(y, pred);
    } else {
      var c :| c in classes;
      SumF1Pick(classes, y, pred, c);
      SumBetween(classes - {c}, y, pred, low, high);
      assert |classes| == |classes - {c}| + 1;
      OneMoreTime(low, |classes - {c}|);
      OneMoreTime(high, |classes - {c}|);
    }
  }

  lemma OneMoreTime(x: real, n: nat)
    ensures x * (n + 1) as real == x * n as real + x
  {}

  /** The mean lies between the least and the greatest F1 of the classes that occur. */
  lemma MacroF1Between(y: seq<Label>, pred: seq<Label>, low: real, high: real)
    requires y != [] || pred != []
    requires forall c :: c in y || c in pred ==> low <= F1(y, pred, c) <= high
    ensures low <= MacroF1(y, pred) <= high
  {
    hide F1, SumF1, MacroF1;
    var classes := Classes(y, pred);
    MacroF1Is(y, pred);
    SumBetween(classes, y, pred, low, high);
    hide Classes;
    var n := |classes| as real;
    QuotientAgainst(SumF1(classes, y, pred), n, low, low * n);
    QuotientAgainst(SumF1(classes, y, pred), n, high, high * n);
  }

  /** Macro-F1 lies between 0 and 1, and is 1 exactly if every prediction is right. */
  lemma MacroF1IsOneIff(y: seq<Label>, pred: seq<Label>)
    requires |y| == |pred| > 0
    ensures 0.0 <= MacroF1(y, pred) <= 1.0
    ensures MacroF1(y, pred) == 1.0 <==> y == pred
  {
    forall c ensures 0.0 <= F1(y, pred, c) <= 1.0 {
      F1Means(y, pred, c);
    }
    MacroF1Between(y, pred, 0.0, 1.0);
    if y == pred {
      forall c | c in y || c in pred ensures F1(y, pred, c) == 1.0 {
        F1Means(y, pred, c);
        var i :| 0 <= i < |y| && y[i] == c;
        assert i in RowsOf(y, c);
      }
      hide F1, MacroF1;
      MacroF1Between(y, pred, 1.0, 1.0);
    } else {
      var i :| 0 <= i < |y| && y[i] != pred[i];
      F1Means(y, pred, y[i]);
      assert i in RowsOf(y, y[i]) && i !in RowsOf(pred, y[i]);
      OneBelowOne(y, pred, y[i]);
    }
  }

  lemma OneBelowOne(y: seq<Label>, pred: seq<Label>, c: Label)
    requires c in y && F1(y, pred, c) < 1.0 && forall d :: 0.0 <= F1(y, pred, d) <= 1.0
    ensures MacroF1(y, pred) < 1.0
  {
    hide F1, SumF1, MacroF1;
    var classes := Classes(y, pred);
    assert c in classes;
    MacroF1Is(y, pred);
    SumF1Pick(classes, y, pred, c);
    SumBetween(classes - {c}, y, pred, 0.0, 1.0);
    hide Classes;
    var n := |classes| as real;
    assert |classes - {c}| == |classes| - 1;
    QuotientAgainst(SumF1(classes, y, pred), n, 1.0, n);
  }

  // ---------------------------------------------------------------- which check a reason stands for

  /** Each reason, and when it is given. */
  lemma ReasonMeans(y: seq<Label>, base: seq<Label>, cand: seq<Label>, gate: Gate)
    requires |y| == |base| == |cand|
    ensures var f, r := |FixSet(y, base, cand)|, |RegressionSet(y, base, cand)|;
            var f1Drops := MacroF1(y, cand) < MacroF1(y, base) - gate.f1Tolerance;
            var before, after := Recall(y, base, gate.scamLabel), Recall(y, cand, gate.scamLabel);
            var scamDrops := before.Some? && after.Some? && after.value < before.value - gate.scamTolerance;
            var reason := EvaluatePromotion(y, base, cand, gate).value.reason;
            && (reason == IdenticalPredictions <==> f + r == 0)
            && (reason == F1Floor <==> f + r > 0 && f1Drops)
            && (reason == ScamRecallFloor <==> f + r > 0 && !f1Drops && scamDrops)
            && (reason == NotSignificant <==>
                  f + r > 0 && FloorsMet(y, base, cand, gate) && Binomial.PValue(f + r, f) >= gate.alpha)
            && (reason == SignificantlyWorse <==>
                  f + r > 0 && FloorsMet(y, base, cand, gate) && Binomial.PValue(f + r, f) < gate.alpha && r > f)
            && (reason == SignificantlyBetter <==>
                  f + r > 0 && FloorsMet(y, base, cand, gate) && Binomial.PValue(f + r, f) < gate.alpha && r <= f)
  {
    RecallNeedsTruthOnly(y, base, cand, gate.scamLabel);
    hide MacroF1, Recall, FixSet, RegressionSet, Binomial.PValue;
  }

  /** The default gate: neither macro-F1 nor the recall of Scam drops by more than a hundredth, and at 1 in 20 the
      disagreements are no chance and mostly fixes. */
  lemma DefaultGateMeans(y: seq<Label>, base: seq<Label>, cand: seq<Label>)
    requires |y| == |base| == |cand|
    ensures "Scam" in y ==> Recall(y, base, "Scam").Some? && Recall(y, cand, "Scam").Some?
    ensures var f, r := |FixSet(y, base, cand)|, |RegressionSet(y, base, cand)|;
            Promoted(y, base, cand, DEFAULT_GATE) <==>
              && f + r > 0 && f >= r
              && MacroF1(y, base) - MacroF1(y, cand) <= 1.0 / 100.0
              && ("Scam" in y ==>
                    Recall(y, base, "Scam").value - Recall(y, cand, "Scam").value <= 1.0 / 100.0)
              && Binomial.PValue(f + r, f) < 1.0 / 20.0
  {
    VerdictMeans(y, base, cand, DEFAULT_GATE);
    RecallMeans(y, base, "Scam");
    RecallMeans(y, cand, "Scam");
    hide MacroF1, Recall, FixSet, RegressionSet, Binomial.PValue, Promoted, EvaluatePromotion;
  }
}
