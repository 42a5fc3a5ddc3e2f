/** The exact two-sided binomial test at 1/2 that `evaluate_promotion` takes from
    `scipy.stats.binomtest` (ai/retraining/promotion.py:37-41, 190).

    `n` disagreements are `n` fair coin flips; an outcome is the number of flips that came
    up "fix".  The p-value is the probability of all outcomes that are no likelier than
    the observed one. */
module Binomial {

  /** How many of the 2^n flip sequences show exactly `i` fixes. */
  function Choose(n: nat, i: int): nat {
    if i < 0 || i > n then 0
    else if i == 0 || i == n then 1
    else Choose(n - 1, i - 1) + Choose(n - 1, i)
  }

  function Pow2(n: nat): (p: nat)
    ensures p > 0
  {
    if n == 0 then 1 else 2 * Pow2(n - 1)
  }

  /** Weight of the outcomes 0..r. */
  function Lower(n: nat, r: int): nat
    decreases if r < 0 then 0 else r + 1
  {
    if r < 0 then 0 else Lower(n, r - 1) + Choose(n, r)
  }

  /** Weight of those outcomes among 0..top that are no likelier than `f`. */
  function NoLikelier(n: nat, f: nat, top: int): nat
    decreases if top < 0 then 0 else top + 1
  {
    if top < 0 then 0
    else NoLikelier(n, f, top - 1) + if Choose(n, top) <= Choose(n, f) then Choose(n, top) else 0
  }

  function PValue(n: nat, f: nat): real {
    NoLikelier(n, f, n) as real / Pow2(n) as real
  }

  // ---------------------------------------------------------------- flip sequences

  ghost function Heads(flips: seq<bool>): nat {
    if flips == [] then 0 else Heads(flips[..|flips| - 1]) + if flips[|flips| - 1] then 1 else 0
  }

  ghost function Flips(n: nat): set<seq<bool>> {
    if n == 0 then {[]} else Then(Flips(n - 1), true) + Then(Flips(n - 1), false)
  }

  ghost function Then(s: set<seq<bool>>, last: bool): set<seq<bool>> {
    set t | t in s :: t + [last]
  }

  ghost function FlipsWith(n: nat, i: int): set<seq<bool>> {
    set t | t in Flips(n) && Heads(t) == i
  }

  lemma {:induction false} FlipsAreAll(n: nat, t: seq<bool>)
    ensures t in Flips(n) <==> |t| == n
  {
    if n > 0 && |t| > 0 {
      var u, last := t[..|t| - 1], t[|t| - 1];
      FlipsAreAll(n - 1, u);
      assert t == u + [last];
      forall v, b | t == v + [b] ensures v == u && b == last {
        assert (v + [b])[..|v|] == v;
      }
    }
  }

  lemma {:induction false} ThenCardinality(s: set<seq<bool>>, last: bool)
    ensures |Then(s, last)| == |s|
  {
    if s != {} {
      var t :| t in s;
      ThenCardinality(s - {t}, last);
      assert Then(s, last) == Then(s - {t}, last) + {t + [last]};
      assert t + [last] !in Then(s - {t}, last) by {
        forall u | u in s - {t} ensures u + [last] != t + [last] {
          assert (u + [last])[..|u|] == u && (t + [last])[..|t|] == t;
        }
      }
    }
  }

  /** `Choose` really counts coin-flip outcomes. */
  lemma {:induction false} ChooseCountsFlips(n: nat, i: int)
    ensures |FlipsWith(n, i)| == Choose(n, i)
  {
    if n == 0 {
      assert FlipsWith(0, i) == if i == 0 then {[]} else {};
    } else {
      ChooseCountsFlips(n - 1, i - 1);
      ChooseCountsFlips(n - 1, i);
      SplitByLastFlip(n, i);
      ChooseEdges(n, i);
    }
  }

  lemma SplitByLastFlip(n: nat, i: int)
    requires n > 0
    ensures |FlipsWith(n, i)| == |FlipsWith(n - 1, i - 1)| + |FlipsWith(n - 1, i)|
  {
    FlipsWithStep(n, i);
    hide FlipsWith;
    var a, b := Then(FlipsWith(n - 1, i - 1), true), Then(FlipsWith(n - 1, i), false);
    ThenCardinality(FlipsWith(n - 1, i - 1), true);
    ThenCardinality(FlipsWith(n - 1, i), false);
    forall t | t in a ensures t !in b {
      assert t[|t| - 1];
    }
    assert a !! b;
  }

  lemma FlipsWithStep(n: nat, i: int)
    requires n > 0
    ensures FlipsWith(n, i) == Then(FlipsWith(n - 1, i - 1), true) + Then(FlipsWith(n - 1, i), false)
  {
    forall u: seq<bool>, last: bool | u in Flips(n - 1)
      ensures Heads(u + [last]) == Heads(u) + if last then 1 else 0
    {
      assert (u + [last])[..|u|] == u;
    }
  }

  /** Pascal's rule, at the edges too. */
  lemma {:induction false} ChooseEdges(n: nat, i: int)
    requires n > 0
    ensures Choose(n, i) == Choose(n - 1, i - 1) + Choose(n - 1, i)
  {
    if i == n && n > 1 {
      assert Choose(n - 1, n - 1) == 1;
    }
  }

  // ---------------------------------------------------------------- shape of the distribution

  lemma {:induction false} ChooseSymmetric(n: nat, i: int)
    ensures Choose(n, i) == Choose(n, n - i)
  {
    if 0 < i < n {
      ChooseSymmetric(n - 1, i - 1);
      ChooseSymmetric(n - 1, i);
    }
  }

  /** The weights rise strictly up to the middle. */
  lemma {:induction false} ChooseRises(n: nat, i: int)
    requires i >= -1 && 2 * i + 1 < n
    ensures Choose(n, i) < Choose(n, i + 1)
    decreases n
  {
    if i >= 0 {
      ChooseEdges(n, i);
      ChooseEdges(n, i + 1);
      ChooseRises(n - 1, i - 1);
      if 2 * i + 1 < n - 1 {
        ChooseRises(n - 1, i);
      } else {
        ChooseSymmetric(n - 1, i);
      }
    }
  }

  lemma {:induction false} ChooseOrdered(n: nat, i: int, j: int)
    requires -1 <= i < j && 2 * j <= n
    ensures Choose(n, i) < Choose(n, j)
    decreases j
  {
    ChooseRises(n, j - 1);
    if i < j - 1 {
      ChooseOrdered(n, i, j - 1);
    }
  }

  /** Exactly the outcomes in the two tails cut off by `f` and `n - f` are no likelier. */
  lemma TailsAreNoLikelier(n: nat, f: nat, i: nat)
    requires f <= n <= 2 * f && i <= n
    ensures Choose(n, i) <= Choose(n, f) <==> (i <= n - f || i >= f)
  {
    var r := n - f;
    var low := if 2 * i <= n then i else n - i;
    ChooseSymmetric(n, f);
    ChooseSymmetric(n, i);
    if low < r {
      ChooseOrdered(n, low, r);
    } else if low > r {
      ChooseOrdered(n, r, low);
    }
  }

  lemma {:induction false} LowerPascal(n: nat, r: int)
    ensures Lower(n + 1, r) == Lower(n, r) + Lower(n, r - 1)
    decreases if r < 0 then 0 else r + 1
  {
    if r >= 0 {
      LowerPascal(n, r - 1);
      ChooseEdges(n + 1, r);
    }
  }

  lemma {:induction false} LowerAll(n: nat, r: int)
    requires r >= n
    ensures Lower(n, r) == Pow2(n)
    decreases n, r
  {
    if r > n {
      LowerAll(n, r - 1);
    } else if n == 0 {
      assert Lower(0, -1) == 0;
    } else {
      LowerPascal(n - 1, n);
      LowerAll(n - 1, n);
      LowerAll(n - 1, n - 1);
    }
  }

  /** The upper tail from `n - r` weighs as much as the lower tail up to `r`. */
  lemma {:induction false} UpperTail(n: nat, r: int)
    requires r <= n
    ensures Lower(n, r) + Lower(n, n - r - 1) == Pow2(n)
    decreases if r < 0 then 0 else r + 1
  {
    if r < 0 {
      LowerAll(n, n - r - 1);
    } else {
      UpperTail(n, r - 1);
      ChooseSymmetric(n, r);
    }
  }

  lemma {:induction false} NoLikelierSoFar(n: nat, f: nat, top: int)
    requires f <= n < 2 * f && top <= n
    ensures NoLikelier(n, f, top)
         == if top < n - f then Lower(n, top)
            else if top < f then Lower(n, n - f)
            else Lower(n, n - f) + Lower(n, top) - Lower(n, f - 1)
    decreases if top < 0 then 0 else top + 1
  {
    if top >= 0 {
      NoLikelierSoFar(n, f, top - 1);
      TailsAreNoLikelier(n, f, top);
    }
  }

  lemma {:induction false} NoLikelierThanMiddle(n: nat, f: nat, top: int)
    requires n == 2 * f && top <= n
    ensures NoLikelier(n, f, top) == Lower(n, top)
    decreases if top < 0 then 0 else top + 1
  {
    if top >= 0 {
      NoLikelierThanMiddle(n, f, top - 1);
      TailsAreNoLikelier(n, f, top);
    }
  }

  /** Closed form: twice the smaller tail, or certainty on an even split. */
  lemma TwoSidedClosedForm(n: nat, f: nat)
    requires f <= n <= 2 * f
    ensures NoLikelier(n, f, n) == if n == 2 * f then Pow2(n) else 2 * Lower(n, n - f)
  {
    LowerAll(n, n);
    if n == 2 * f {
      NoLikelierThanMiddle(n, f, n);
    } else {
      NoLikelierSoFar(n, f, n);
      UpperTail(n, n - f);
    }
  }

  /** The test does not care which of the two sides is called "fix". */
  lemma {:induction false} PValueSymmetric(n: nat, f: nat, top: int)
    requires f <= n
    ensures NoLikelier(n, f, top) == NoLikelier(n, n - f, top)
    decreases if top < 0 then 0 else top + 1
  {
    ChooseSymmetric(n, f);
    if top >= 0 {
      PValueSymmetric(n, f, top - 1);
    }
  }

  lemma LowerMonotone(n: nat, r: int)
    ensures Lower(n, r - 1) <= Lower(n, r)
  {}

  /** An even split is no evidence at all. */
  lemma EvenSplitIsCertain(n: nat, f: nat)
    requires n == 2 * f
    ensures PValue(n, f) == 1.0
  {
    TwoSidedClosedForm(n, f);
    SelfQuotient(Pow2(n) as real);
  }

  lemma SelfQuotient(a: real)
    requires a != 0.0
    ensures a / a == 1.0
  {}

  lemma Quotients(a: nat, b: nat, c: nat, d: nat)
    requires b > 0 && d > 0 && a * d <= c * b
    ensures a as real / b as real <= c as real / d as real
  {
    assert (a * d) as real <= (c * b) as real;
    CrossMultiplied(a as real, b as real, c as real, d as real, a as real / b as real, c as real / d as real);
  }

  lemma CrossMultiplied(a: real, b: real, c: real, d: real, x: real, y: real)
    requires b > 0.0 && d > 0.0 && a * d <= c * b
    requires x * b == a && y * d == c
    ensures x <= y
  {
    MulAssociates(x, b, d);
    MulAssociates(y, d, b);
    Cancel(x, y, b * d, x * (b * d), y * (b * d));
  }

  lemma MulAssociates(x: real, b: real, d: real)
    ensures (x * b) * d == x * (b * d)
  {}

  lemma Cancel(x: real, y: real, c: real, xc: real, yc: real)
    requires c > 0.0 && xc == x * c && yc == y * c && xc <= yc
    ensures x <= y
  {}

  /** One more fix makes a majority of fixes no less significant. */
  lemma MoreFixesShrinkP(n: nat, f: nat)
    requires f <= n <= 2 * f
    ensures PValue(n + 1, f + 1) <= PValue(n, f)
  {
    var r := n - f;
    TwoSidedClosedForm(n, f);
    TwoSidedClosedForm(n + 1, f + 1);
    LowerPascal(n, r);
    LowerMonotone(n, r);
    TailAtMostAll(n + 1, r);
    Halving(NoLikelier(n + 1, f + 1, n + 1), NoLikelier(n, f, n), n);
  }

  /** One regression fewer makes a majority of fixes no less significant. */
  lemma FewerRegressionsShrinkP(n: nat, f: nat)
    requires 0 < n && f < n <= 2 * f
    ensures PValue(n - 1, f) <= PValue(n, f)
  {
    var r := n - f;
    TwoSidedClosedForm(n, f);
    TwoSidedClosedForm(n - 1, f);
    LowerPascal(n - 1, r);
    LowerMonotone(n - 1, r);
    TailAtMostHalf(n - 1, r - 1);
    Doubling(NoLikelier(n - 1, f, n - 1), NoLikelier(n, f, n), n);
  }

  lemma Halving(a: nat, b: nat, n: nat)
    requires a <= 2 * b
    ensures a as real / Pow2(n + 1) as real <= b as real / Pow2(n) as real
  {
    MulOrder(a, 2 * b, Pow2(n));
    Quotients(a, Pow2(n + 1), b, Pow2(n));
  }

  lemma Doubling(a: nat, b: nat, n: nat)
    requires n > 0 && 2 * a <= b
    ensures a as real / Pow2(n - 1) as real <= b as real / Pow2(n) as real
  {
    MulOrder(2 * a, b, Pow2(n - 1));
    Quotients(a, Pow2(n - 1), b, Pow2(n));
  }

  lemma MulOrder(a: nat, b: nat, c: nat)
    requires a <= b
    ensures a * c <= b * c
  {}

  lemma TailAtMostAll(n: nat, r: int)
    requires 2 * r < n
    ensures 2 * Lower(n, r) <= Pow2(n)
  {
    TailAtMostHalf(n, r);
  }

  /** A tail that stays below the middle weighs at most half. */
  lemma TailAtMostHalf(n: nat, r: int)
    requires 2 * r < n
    ensures 2 * Lower(n, r) <= Pow2(n)
  {
    UpperTail(n, r);
    LowerRange(n, r, n - r - 1);
  }

  lemma {:induction false} LowerRange(n: nat, r: int, s: int)
    requires r <= s
    ensures Lower(n, r) <= Lower(n, s)
    decreases s - r
  {
    if r < s {
      LowerRange(n, r, s - 1);
      LowerMonotone(n, s);
    }
  }

  lemma WeightFloor(n: nat, f: nat)
    requires f <= n && n > 0
    ensures NoLikelier(n, f, n) >= 2
  {
    var g := if n <= 2 * f then f else n - f;
    PValueSymmetric(n, f, n);
    TwoSidedClosedForm(n, g);
    LowerRange(n, 0, n - g);
    assert Lower(n, 0) == Lower(n, -1) + Choose(n, 0);
  }

  /** `p` expressed as a number of flip sequences. */
  function TimesPow2(p: real, n: nat): real {
    p * (Pow2(n) as real)
  }

  /** No outcome of `n` flips is rarer than the two extremes together. */
  lemma PValueFloor(n: nat, f: nat)
    requires f <= n && n > 0
    ensures TimesPow2(PValue(n, f), n) >= 2.0
  {
    WeightFloor(n, f);
    TimesDenominator(NoLikelier(n, f, n), Pow2(n));
  }

  lemma TimesDenominator(a: nat, b: nat)
    requires b > 0
    ensures (a as real / b as real) * (b as real) == a as real
  {}
}
