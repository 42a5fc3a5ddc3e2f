/** Shares of the clustered population, and which continuing campaigns are surging
    (ai/campaign_evolution.py:68-130, 185-186). */
module EvolutionSurges {
  import opened Wrappers
  import opened Fractions
  import opened Evolution
  import opened EvolutionMeaning

  /** `a / b`, the float division of two counts; `None` where the source does not divide. */
  function Over(a: real, b: real): Option<real> {
    if b == 0.0 then None else Some(a / b)
  }

  /** `growth_ratio`. */
  function GrowthRatio(e: Continuing): Option<real> {
    Over(e.sizeAfter as real, e.sizeBefore as real)
  }

  /** `share_growth_ratio`. */
  function ShareGrowthRatio(e: Continuing): Option<real> {
    if e.shareBefore.None? || e.shareAfter.None? then None else Over(e.shareAfter.value, e.shareBefore.value)
  }

  /** `is_surging`. */
  predicate IsSurging(e: Continuing, ratio: real) {
    var growth := if ShareGrowthRatio(e).Some? then ShareGrowthRatio(e) else GrowthRatio(e);
    growth.Some? && growth.value >= ratio
  }

  /** `surging`. */
  function Surging(continuing: seq<Continuing>, ratio: real): seq<Continuing> {
    if continuing == [] then []
    else
      var rest, last := continuing[..|continuing| - 1], continuing[|continuing| - 1];
      Surging(rest, ratio) + if IsSurging(last, ratio) then [last] else []
  }

  // ---------------------------------------------------------------- one entry

  /** A share is known exactly for a population that is not empty, and of it makes the size. */
  lemma ShareMeans(size: int, population: Option<int>)
    ensures Share(size, population).Some? <==> population.Some? && population.value > 0
    ensures Share(size, population).Some? ==> Share(size, population).value * population.value as real == size as real
  {}

  ghost predicate Known(population: Option<int>) {
    population.Some? && population.value > 0
  }

  /** Growth by `ratio` without a division: of the shares if both populations are known, else of the sizes. */
  ghost predicate Grew(before: int, after: int, was: Option<int>, now: Option<int>, ratio: real) {
    if Known(was) && Known(now) then
      after as real * was.value as real >= ratio * (before as real * now.value as real)
    else
      after as real >= ratio * before as real
  }

  lemma SharesAgainst(a: real, b: real, p: real, q: real, x: real, y: real, ratio: real)
    requires p > 0.0 && q > 0.0 && b > 0.0 && x * q == a && y * p == b
    ensures y > 0.0
    ensures x / y >= ratio <==> a * p >= ratio * (b * q)
  {
    if y <= 0.0 {
      AtMostZero(y, p);
    }
    QuotientAgainst(x, y, ratio, ratio * y);
    var pq := p * q;
    Positive(p, q);
    Scaled(x, ratio * y, pq, a * p, ratio * (b * q)) by {
      assert x * pq == a * p by { Regroup(x, p, q); }
      assert ratio * y * pq == ratio * (b * q) by { Regroup4(ratio, y, p, q); }
    }
  }

  lemma AtMostZero(y: real, p: real)
    requires y <= 0.0 && p > 0.0
    ensures y * p <= 0.0
  {}

  lemma Regroup(x: real, p: real, q: real)
    ensures x * (p * q) == (x * q) * p
  {}

  lemma Regroup4(r: real, y: real, p: real, q: real)
    ensures r * y * (p * q) == r * ((y * p) * q)
  {
    assert y * (p * q) == (y * p) * q;
  }

  lemma OverNegated(a: real, b: real)
    requires b != 0.0
    ensures a / b == (-a) / (-b)
  {
    var q := a / b;
    assert q * b == a;
    assert q * (-b) == -a by { assert q * (-b) == -(q * b); }
  }

  /** Sizes and shares of the two snapshots. */
  ghost predicate Counted(e: Continuing, was: Option<int>, now: Option<int>) {
    e.shareBefore == Share(e.sizeBefore, was) && e.shareAfter == Share(e.sizeAfter, now)
  }

  /** The growth of shares decides where both populations are known, and a cluster of size 0 never surges. */
  lemma SurgingIff(e: Continuing, was: Option<int>, now: Option<int>, ratio: real)
    requires Counted(e, was, now)
    ensures e.sizeBefore == 0 ==> !IsSurging(e, ratio)
    ensures e.sizeBefore > 0 ==> (IsSurging(e, ratio) <==> Grew(e.sizeBefore, e.sizeAfter, was, now, ratio))
    ensures e.sizeBefore < 0 ==> (IsSurging(e, ratio) <==> Grew(-e.sizeBefore, -e.sizeAfter, was, now, ratio))
  {
    hide *;
    CountedIs(e, was, now);
    if Known(was) && Known(now) {
      SurgingByShare(e, was.value, now.value, ratio);
    } else {
      SurgingBySize(e, ratio);
    }
    GrewIs(e.sizeBefore, e.sizeAfter, was, now, ratio);
    GrewIs(-e.sizeBefore, -e.sizeAfter, was, now, ratio);
  }

  lemma CountedIs(e: Continuing, was: Option<int>, now: Option<int>)
    requires Counted(e, was, now)
    ensures e.shareBefore.Some? <==> Known(was)
    ensures e.shareAfter.Some? <==> Known(now)
    ensures Known(was) ==> was.Some? && was.value > 0 && e.shareBefore.value * was.value as real == e.sizeBefore as real
    ensures Known(now) ==> now.Some? && now.value > 0 && e.shareAfter.value * now.value as real == e.sizeAfter as real
  {
    ShareMeans(e.sizeBefore, was);
    ShareMeans(e.sizeAfter, now);
    hide Share;
  }

  lemma GrewIs(before: int, after: int, was: Option<int>, now: Option<int>, ratio: real)
    ensures Known(was) && Known(now) ==>
              (Grew(before, after, was, now, ratio) <==>
               after as real * was.value as real >= ratio * (before as real * now.value as real))
    ensures !(Known(was) && Known(now)) ==>
              (Grew(before, after, was, now, ratio) <==> after as real >= ratio * before as real)
  {}

  lemma SurgingByShare(e: Continuing, was: int, now: int, ratio: real)
    requires was > 0 && now > 0 && e.shareBefore.Some? && e.shareAfter.Some?
    requires e.shareBefore.value * was as real == e.sizeBefore as real
    requires e.shareAfter.value * now as real == e.sizeAfter as real
    ensures var a, b, p, q := e.sizeAfter as real, e.sizeBefore as real, was as real, now as real;
            && (b == 0.0 ==> !IsSurging(e, ratio))
            && (b > 0.0 ==> (IsSurging(e, ratio) <==> a * p >= ratio * (b * q)))
            && (b < 0.0 ==> (IsSurging(e, ratio) <==> (-a) * p >= ratio * ((-b) * q)))
  {
    var a, b, p, q := e.sizeAfter as real, e.sizeBefore as real, was as real, now as real;
    var x, y := e.shareAfter.value, e.shareBefore.value;
    if b > 0.0 {
      SharesAgainst(a, b, p, q, x, y, ratio);
    } else if b < 0.0 {
      NegatedTimes(x, q);
      NegatedTimes(y, p);
      SharesAgainst(-a, -b, p, q, -x, -y, ratio);
      OverNegated(x, y);
    } else {
      ZeroFactor(y, p);
    }
  }

  lemma SurgingBySize(e: Continuing, ratio: real)
    requires e.shareBefore.None? || e.shareAfter.None?
    ensures var a, b := e.sizeAfter as real, e.sizeBefore as real;
            && (b == 0.0 ==> !IsSurging(e, ratio))
            && (b > 0.0 ==> (IsSurging(e, ratio) <==> a >= ratio * b))
            && (b < 0.0 ==> (IsSurging(e, ratio) <==> -a >= ratio * (-b)))
  {
    var a, b := e.sizeAfter as real, e.sizeBefore as real;
    if b > 0.0 {
      QuotientAgainst(a, b, ratio, ratio * b);
    } else if b < 0.0 {
      OverNegated(a, b);
      QuotientAgainst(-a, -b, ratio, ratio * (-b));
    }
  }

  lemma NegatedTimes(x: real, q: real)
    ensures (-x) * q == -(x * q)
  {}

  lemma ZeroFactor(y: real, p: real)
    requires p > 0.0 && y * p == 0.0
    ensures y == 0.0
  {}

  // ---------------------------------------------------------------- the whole report

  lemma {:induction false} SurgingIsFilter(continuing: seq<Continuing>, ratio: real, e: Continuing)
    ensures e in Surging(continuing, ratio) <==> e in continuing && IsSurging(e, ratio)
  {
    hide IsSurging;
    if continuing != [] {
      var rest, last := continuing[..|continuing| - 1], continuing[|continuing| - 1];
      SurgingIsFilter(rest, ratio, e);
      assert continuing == rest + [last];
    }
  }

  /** Of the campaigns of two snapshots that continue, those surge whose slice of the population grew by the
      ratio; only where a population is not known it is their size that counts. */
  lemma SurgingMeans(c: Comparison, i: nat, j: nat, e: Continuing, ratio: real)
    requires c.Sensible() && i < |c.previous| && j < |c.current| && c.previous[i].size > 0
    requires e in c.TheReport().continuing && e.previousId == c.previous[i].id && e.currentId == c.current[j].id
    ensures e in Surging(c.TheReport().continuing, ratio) <==>
            Grew(c.previous[i].size, c.current[j].size, c.previousPopulation, c.currentPopulation, ratio)
  {
    ContinuingCarries(c, i, j, e);
    SurgingIsFilter(c.TheReport().continuing, ratio, e);
    SurgingIff(e, c.previousPopulation, c.currentPopulation, ratio) by {
      hide *;
      FiguresCount(c, i, j, e);
    }
    SizesAre(c, i, j, e);
    hide *;
  }

  lemma FiguresCount(c: Comparison, i: nat, j: nat, e: Continuing)
    requires i < |c.previous| && j < |c.current| && Figures(c, i, j, e)
    ensures Counted(e, c.previousPopulation, c.currentPopulation)
  {
    hide Share;
  }

  lemma SizesAre(c: Comparison, i: nat, j: nat, e: Continuing)
    requires i < |c.previous| && j < |c.current| && Figures(c, i, j, e)
    ensures e.sizeBefore == c.previous[i].size && e.sizeAfter == c.current[j].size
  {
    hide Share;
  }

  /** Topping up the dataset is no surge: where every count grows by the same factor, a campaign surges exactly
      if the ratio is at most 1.  By the sizes alone it would surge as soon as the factor reaches the ratio. */
  lemma TopUpIsNoSurge(size: int, population: int, factor: int, ratio: real)
    requires size > 0 && population > 0 && factor > 0
    ensures Grew(size, factor * size, Some(population), Some(factor * population), ratio) <==> ratio <= 1.0
    ensures Grew(size, factor * size, None, None, ratio) <==> factor as real >= ratio
  {
    hide *;
    var after, now := factor * size, factor * population;
    AsProduct(factor, size);
    AsProduct(factor, population);
    PositiveProduct(factor, population);
    KnownIs(population);
    KnownIs(now);
    GrewIs(size, after, Some(population), Some(now), ratio);
    GrewIs(size, after, None, None, ratio);
    SameFactor(size as real, population as real, factor as real, after as real, now as real, ratio);
  }

  lemma KnownIs(population: int)
    ensures Known(Some(population)) <==> population > 0
    ensures !Known(None)
  {}

  lemma SameFactor(s: real, p: real, f: real, fs: real, fp: real, ratio: real)
    requires s > 0.0 && p > 0.0 && f > 0.0 && fs == f * s && fp == f * p
    ensures fs * p >= ratio * (s * fp) <==> ratio <= 1.0
    ensures fs >= ratio * s <==> f >= ratio
  {
    var w := fs * p;
    Positive(f, s);
    Positive(fs, p);
    assert s * fp == w by { Regroup3(f, s, p); }
    Scaled(1.0, ratio, w, w, ratio * w);
    Scaled(f, ratio, s, fs, ratio * s);
  }

  lemma AsProduct(a: int, b: int)
    ensures (a * b) as real == a as real * b as real
  {}

  lemma PositiveProduct(a: int, b: int)
    requires a > 0 && b > 0
    ensures a * b > 0
  {}

  lemma Regroup3(f: real, s: real, p: real)
    ensures s * (f * p) == (f * s) * p
  {}
}
