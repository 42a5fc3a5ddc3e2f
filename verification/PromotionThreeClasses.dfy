/** A verdict on three classes of very different size (ai/retraining/promotion.py:184-244): the floor is on the
    mean over the classes, where a row of a small class weighs more than a row of a large one. */
module PromotionThreeClasses {
  import opened Wrappers
  import opened Collections
  import opened Binomial
  import opened Promotion
  import opened PromotionMeaning
  import Examples = PromotionExamples

  const HAM: Label := "Ham"
  const SPAM: Label := "Spam"
  const SCAM: Label := "Scam"

  /** 100 Ham, 5 Spam, 1 Scam. */
  function Truth(): (r: seq<Label>)
    ensures |r| == 106
    ensures forall i :: 0 <= i < 106 ==> r[i] == if i < 100 then HAM else if i < 105 then SPAM else SCAM
  {
    Repeat(HAM, 100) + Repeat(SPAM, 5) + Repeat(SCAM, 1)
  }

  /** Takes 14 Ham for Spam, and is right on the rest. */
  function Baseline(): (r: seq<Label>)
    ensures |r| == 106
    ensures forall i :: 0 <= i < 106 ==> r[i] == if i < 14 then SPAM else Truth()[i]
  {
    Repeat(SPAM, 14) + Truth()[14..]
  }

  /** Takes 4 Spam for Ham, and is right on the rest. */
  function Candidate(): (r: seq<Label>)
    ensures |r| == 106
    ensures forall i :: 0 <= i < 106 ==> r[i] == if 100 <= i < 104 then HAM else Truth()[i]
  {
    Truth()[..100] + Repeat(HAM, 4) + Truth()[104..]
  }

  // ---------------------------------------------------------------- the rows

  lemma LabelsDiffer()
    ensures HAM != SPAM && HAM != SCAM && SPAM != SCAM
  {
    assert HAM[0] == 'H' && SPAM[1] == 'p' && SCAM[1] == 'c';
  }

  /** `c` stands exactly on the rows from `a` to `b`, and on those from `b'` to `d`. */
  lemma RowsBetween(s: seq<Label>, c: Label, a: nat, b: nat, b': nat, d: nat)
    requires a <= b <= b' <= d <= |s| && forall i :: 0 <= i < |s| ==> (s[i] == c <==> a <= i < b || b' <= i < d)
    ensures RowsOf(s, c) == Range(a, b) + Range(b', d)
    ensures |RowsOf(s, c)| == b - a + d - b'
    ensures b' == d ==> RowsOf(s, c) == Range(a, b)
  {
    RangesApart(a, b, b', d);
    assert forall i: nat :: i in RowsOf(s, c) <==> i in Range(a, b) + Range(b', d);
    hide Range, RowsOf;
  }

  lemma RangesApart(a: nat, b: nat, c: nat, d: nat)
    requires a <= b <= c <= d
    ensures |Range(a, b) + Range(c, d)| == b - a + d - c
    ensures c == d ==> Range(a, b) + Range(c, d) == Range(a, b)
  {
    assert Range(a, b) !! Range(c, d);
    assert c == d ==> Range(c, d) == {};
  }

  lemma TruthRows()
    ensures RowsOf(Truth(), HAM) == Range(0, 100)
    ensures RowsOf(Truth(), SPAM) == Range(100, 105)
    ensures RowsOf(Truth(), SCAM) == Range(105, 106)
  {
    hide *;
    LabelsDiffer();
    RowsBetween(Truth(), HAM, 0, 100, 106, 106);
    RowsBetween(Truth(), SPAM, 100, 105, 106, 106);
    RowsBetween(Truth(), SCAM, 105, 106, 106, 106);
  }

  lemma BaselineRows()
    ensures RowsOf(Baseline(), HAM) == Range(14, 100)
    ensures RowsOf(Baseline(), SPAM) == Range(0, 14) + Range(100, 105)
    ensures |RowsOf(Baseline(), SPAM)| == 19
    ensures RowsOf(Baseline(), SCAM) == Range(105, 106)
  {
    hide *;
    LabelsDiffer();
    RowsBetween(Baseline(), HAM, 14, 100, 106, 106);
    RowsBetween(Baseline(), SPAM, 0, 14, 100, 105);
    RowsBetween(Baseline(), SCAM, 105, 106, 106, 106);
  }

  lemma CandidateRows()
    ensures RowsOf(Candidate(), HAM) == Range(0, 104)
    ensures RowsOf(Candidate(), SPAM) == Range(104, 105)
    ensures RowsOf(Candidate(), SCAM) == Range(105, 106)
  {
    hide *;
    LabelsDiffer();
    RowsBetween(Candidate(), HAM, 0, 104, 106, 106);
    RowsBetween(Candidate(), SPAM, 104, 105, 106, 106);
    RowsBetween(Candidate(), SCAM, 105, 106, 106, 106);
  }

  lemma DiscordantBetween(y: seq<Label>, base: seq<Label>, cand: seq<Label>, a: nat, b: nat, c: nat, d: nat)
    requires |y| == |base| == |cand| && a <= b <= |y| && c <= d <= |y| && (b <= c || d <= a)
    requires forall i :: 0 <= i < |y| ==> (base[i] != y[i] <==> a <= i < b)
    requires forall i :: 0 <= i < |y| ==> (cand[i] != y[i] <==> c <= i < d)
    ensures FixSet(y, base, cand) == Range(a, b) && RegressionSet(y, base, cand) == Range(c, d)
  {}

  lemma Discordant()
    ensures FixSet(Truth(), Baseline(), Candidate()) == Range(0, 14)
    ensures RegressionSet(Truth(), Baseline(), Candidate()) == Range(100, 104)
  {
    hide *;
    LabelsDiffer();
    DiscordantBetween(Truth(), Baseline(), Candidate(), 0, 14, 100, 104);
  }

  lemma Absorbed(a: set<nat>, b: set<nat>)
    ensures b * (a + b) == b
  {}

  lemma LabelsAre(pred: seq<Label>)
    requires pred == Baseline() || pred == Candidate()
    ensures Distinct([HAM, SPAM, SCAM])
    ensures forall c :: c in [HAM, SPAM, SCAM] <==> c in Truth() || c in pred
  {
    hide *;
    LabelsDiffer();
    var y := Truth();
    assert y[0] == HAM && y[100] == SPAM && y[105] == SCAM;
    assert forall i :: 0 <= i < |pred| ==> pred[i] in [HAM, SPAM, SCAM];
    ThreeDistinct(HAM, SPAM, SCAM);
  }

  lemma ThreeDistinct(a: Label, b: Label, c: Label)
    requires a != b && a != c && b != c
    ensures Distinct([a, b, c])
  {}

  // ---------------------------------------------------------------- the scores

  lemma BaselineF1s()
    ensures F1(Truth(), Baseline(), HAM) == 172.0 / 186.0
    ensures F1(Truth(), Baseline(), SPAM) == 10.0 / 24.0
    ensures F1(Truth(), Baseline(), SCAM) == 1.0
    ensures Recall(Truth(), Baseline(), SCAM) == Some(1.0)
  {
    hide *;
    TruthRows();
    BaselineRows();
    Absorbed(Range(0, 14), Range(100, 105));
    Examples.RangesMeet(0, 100, 14, 100);
    Examples.RangesMeet(105, 106, 105, 106);
    NotEmpty(105, 106);
    Examples.F1Is(Truth(), Baseline(), HAM, Range(0, 100), Range(14, 100), Range(14, 100));
    Examples.F1Is(Truth(), Baseline(), SPAM, Range(100, 105), Range(0, 14) + Range(100, 105), Range(100, 105));
    Examples.F1Is(Truth(), Baseline(), SCAM, Range(105, 106), Range(105, 106), Range(105, 106));
    Fractions();
  }

  lemma CandidateF1s()
    ensures F1(Truth(), Candidate(), HAM) == 200.0 / 204.0
    ensures F1(Truth(), Candidate(), SPAM) == 2.0 / 6.0
    ensures F1(Truth(), Candidate(), SCAM) == 1.0
    ensures Recall(Truth(), Candidate(), SCAM) == Some(1.0)
  {
    hide *;
    TruthRows();
    CandidateRows();
    Examples.RangesMeet(0, 100, 0, 104);
    Examples.RangesMeet(100, 105, 104, 105);
    Examples.RangesMeet(105, 106, 105, 106);
    NotEmpty(105, 106);
    Examples.F1Is(Truth(), Candidate(), HAM, Range(0, 100), Range(0, 104), Range(0, 100));
    Examples.F1Is(Truth(), Candidate(), SPAM, Range(100, 105), Range(104, 105), Range(104, 105));
    Examples.F1Is(Truth(), Candidate(), SCAM, Range(105, 106), Range(105, 106), Range(105, 106));
    Fractions();
  }

  lemma NotEmpty(a: nat, b: nat)
    requires a < b
    ensures Range(a, b) != {}
  {
    assert a in Range(a, b);
  }

  lemma Fractions()
    ensures Ratio(172, 186) == 172.0 / 186.0 && Ratio(10, 24) == 10.0 / 24.0
    ensures Ratio(200, 204) == 200.0 / 204.0 && Ratio(2, 6) == 2.0 / 6.0
    ensures Ratio(2, 2) == 1.0 && Ratio(1, 1) == 1.0
  {}

  lemma SumOfThree(a: Label, b: Label, c: Label, y: seq<Label>, pred: seq<Label>)
    ensures ScoresOf([a, b, c], y, pred) == F1(y, pred, a) + F1(y, pred, b) + F1(y, pred, c)
  {
    hide F1;
    assert [a, b, c][..2] == [a, b] && [a, b][..1] == [a] && [a][..0] == [];
    assert ScoresOf([a], y, pred) == F1(y, pred, a);
    assert ScoresOf([a, b], y, pred) == F1(y, pred, a) + F1(y, pred, b);
  }

  /** The mean over three classes, whichever predictions these are. */
  lemma ThreeClassMacroF1(pred: seq<Label>)
    requires pred == Baseline() || pred == Candidate()
    ensures MacroF1(Truth(), pred) * 3.0 == F1(Truth(), pred, HAM) + F1(Truth(), pred, SPAM) + F1(Truth(), pred, SCAM)
  {
    hide *;
    LabelsAre(pred);
    MacroF1IsMean([HAM, SPAM, SCAM], Truth(), pred);
    SumOfThree(HAM, SPAM, SCAM, Truth(), pred);
  }

  // ---------------------------------------------------------------- the p-value

  lemma Row(n: nat, a: nat, b: nat, c: nat, d: nat)
    requires n >= 4 && Choose(n, 1) == a && Choose(n, 2) == b && Choose(n, 3) == c && Choose(n, 4) == d
    ensures Choose(n + 1, 1) == 1 + a && Choose(n + 1, 2) == a + b
    ensures Choose(n + 1, 3) == b + c && Choose(n + 1, 4) == c + d
  {
    hide *;
    var m: nat := n + 1;
    ChooseEdges(m, 1);
    ChooseEdges(m, 2);
    ChooseEdges(m, 3);
    ChooseEdges(m, 4);
    Examples.ChooseOne(n);
  }

  lemma RowFour()
    ensures Choose(4, 1) == 4 && Choose(4, 2) == 6 && Choose(4, 3) == 4 && Choose(4, 4) == 1
  {
    assert Choose(2, 1) == 2 && Choose(3, 1) == 3 && Choose(3, 2) == 3;
  }

  lemma RowEighteen()
    ensures Choose(18, 1) == 18 && Choose(18, 2) == 153 && Choose(18, 3) == 816 && Choose(18, 4) == 3060
  {
    hide *;
    RowFour();
    Row(4, 4, 6, 4, 1);
    Row(5, 5, 10, 10, 5);
    Row(6, 6, 15, 20, 15);
    Row(7, 7, 21, 35, 35);
    Row(8, 8, 28, 56, 70);
    Row(9, 9, 36, 84, 126);
    Row(10, 10, 45, 120, 210);
    Row(11, 11, 55, 165, 330);
    Row(12, 12, 66, 220, 495);
    Row(13, 13, 78, 286, 715);
    Row(14, 14, 91, 364, 1001);
    Row(15, 15, 105, 455, 1365);
    Row(16, 16, 120, 560, 1820);
    Row(17, 17, 136, 680, 2380);
  }

  lemma LowerFour(n: nat)
    ensures Lower(n, 4) == Choose(n, 0) + Choose(n, 1) + Choose(n, 2) + Choose(n, 3) + Choose(n, 4)
  {
    hide Choose;
    assert Lower(n, 0) == Lower(n, -1) + Choose(n, 0);
    assert Lower(n, 2) == Lower(n, 1) + Choose(n, 2);
  }

  lemma PowerOfEighteen()
    ensures Pow2(18) == 262144
  {
    assert Pow2(3) == 8 && Pow2(6) == 64 && Pow2(9) == 512 && Pow2(12) == 4096 && Pow2(15) == 32768;
  }

  /** 14 fixes against 4 regressions. */
  lemma FourteenOfEighteen()
    ensures PValue(18, 14) == 8096.0 / 262144.0
  {
    hide *;
    TwoSidedClosedForm(18, 14);
    Examples.ChooseOne(18);
    RowEighteen();
    LowerFour(18);
    PowerOfEighteen();
    Examples.PValueFrom(18, 14, 8096, 262144);
  }

  // ---------------------------------------------------------------- the verdict

  lemma FloorsFromScores(y: seq<Label>, base: seq<Label>, cand: seq<Label>)
    requires MacroF1(y, base) * 3.0 == 172.0 / 186.0 + 10.0 / 24.0 + 1.0
    requires MacroF1(y, cand) * 3.0 == 200.0 / 204.0 + 2.0 / 6.0 + 1.0
    requires Recall(y, base, SCAM) == Some(1.0) && Recall(y, cand, SCAM) == Some(1.0)
    ensures FloorsMet(y, base, cand, DEFAULT_GATE)
    ensures MacroF1(y, base) - 0.01 < MacroF1(y, cand) < MacroF1(y, base) - 0.009
  {
    hide MacroF1, Recall;
  }

  lemma GateIs()
    ensures DEFAULT_GATE.alpha == 0.05 && DEFAULT_GATE.scamLabel == SCAM
  {}

  /** The default gate promotes 14 corrected Ham against 4 lost Spam.  It costs 0.009 of macro-F1, which is within
      the tolerance because the drop of the Spam score is divided by three. */
  lemma ThreeClassesPromoted()
    ensures var y, base, cand := Truth(), Baseline(), Candidate();
            && Promoted(y, base, cand, DEFAULT_GATE)
            && MacroF1(y, base) - 0.01 < MacroF1(y, cand) < MacroF1(y, base) - 0.009
            && var decision := EvaluatePromotion(y, base, cand, DEFAULT_GATE).value;
               && decision.fixes == 14 && decision.regressions == 4 && decision.pValue == 8096.0 / 262144.0
               && decision.baselineF1 == (172.0 / 186.0 + 10.0 / 24.0 + 1.0) / 3.0
               && decision.candidateF1 == (200.0 / 204.0 + 2.0 / 6.0 + 1.0) / 3.0
  {
    hide *;
    var y, base, cand := Truth(), Baseline(), Candidate();
    Discordant();
    BaselineF1s();
    CandidateF1s();
    ThreeClassMacroF1(base);
    ThreeClassMacroF1(cand);
    FourteenOfEighteen();
    FloorsFromScores(y, base, cand);
    GateIs();
    VerdictMeans(y, base, cand, DEFAULT_GATE);
    Examples.DecisionIs(y, base, cand, DEFAULT_GATE);
  }
}
