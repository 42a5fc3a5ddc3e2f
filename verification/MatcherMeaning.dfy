/** What a match is, said of the message and the campaigns: shared words counted, domains in common, and the
    thresholds of the message's label (ai/service/campaign.py:318-424, ai/service/lexical.py:244-263,
    ai/service/campaign_space.py:130-159). */
module MatcherMeaning {
  import opened Wrappers
  import opened Vectors
  import opened Fractions
  import opened Matcher

  // ---------------------------------------------------------------- wording

  /** Enough words are shared, in counts: 9/40 of both sets together, with a profile of at least four. */
  ghost predicate Resembles(words: set<string>, p: Profile) {
    |p.shingles| >= 4 && 40 * |words * p.shingles| >= 9 * (|words| + |p.shingles|)
  }

  /** The overlap is the Dice coefficient: for a distinctive profile the shared words, twice, make that part of
      both sets together.  It is 1 exactly for equal sets, and the lexical gate is a bound on counts. */
  lemma LexicalIsDice(words: set<string>, p: Profile)
    ensures var lex, all := LexicalSimilarity(words, p), |words| + |p.shingles|;
            && 0.0 <= lex <= 1.0
            && (|p.shingles| < 4 ==> lex == 0.0)
            && (|p.shingles| >= 4 ==> lex * all as real == (2 * |words * p.shingles|) as real)
            && (lex == 1.0 <==> |p.shingles| >= 4 && words == p.shingles)
            && (lex >= LEXICAL_GATE <==> Resembles(words, p))
  {
    LexicalIs(words, p);
    Shared(words, p.shingles);
    hide LexicalSimilarity;
    if |p.shingles| >= 4 {
      var part, all := 2 * |words * p.shingles|, |words| + |p.shingles|;
      Portion(part, all);
      Gate(part, all);
    }
  }

  lemma LexicalIs(words: set<string>, p: Profile)
    ensures LexicalSimilarity(words, p)
         == if |p.shingles| < 4 then 0.0
            else (2 * |words * p.shingles|) as real / (|words| + |p.shingles|) as real
  {
    Shared(words, p.shingles);
    var shared := |words * p.shingles|;
    if |p.shingles| >= 4 && shared > 0 {
      DiceOf(shared as real, |words| as real, |p.shingles| as real);
    } else if |p.shingles| >= 4 {
      ZeroOver((|words| + |p.shingles|) as real);
    }
  }

  lemma ZeroOver(a: real)
    requires a > 0.0
    ensures 0.0 / a == 0.0
  {}

  lemma Shared(a: set<string>, b: set<string>)
    ensures |a * b| <= |a| && |a * b| <= |b|
    ensures 2 * |a * b| == |a| + |b| <==> a == b
    ensures a * b != {} ==> |a * b| > 0 && |a| > 0
  {
    Within(a * b, a);
    Within(a * b, b);
    if a == b {
      assert a * b == a;
    }
  }

  /** A subset is no larger, and equal if it is as large. */
  lemma Within(a: set<string>, b: set<string>)
    requires a <= b
    ensures |a| <= |b| && (|a| == |b| ==> a == b)
  {
    var rest := b - a;
    assert b == a + rest && a !! rest;
  }

  lemma Gate(part: nat, all: nat)
    requires all > 0
    ensures part as real / all as real >= LEXICAL_GATE <==> 20 * part >= 9 * all
  {
    QuotientAgainst(part as real, all as real, LEXICAL_GATE, LEXICAL_GATE * all as real);
  }

  /** The harmonic mean of the two shares of `s`. */
  lemma DiceOf(s: real, w: real, p: real)
    requires s > 0.0 && w > 0.0 && p > 0.0
    ensures s / p + s / w > 0.0
    ensures 2.0 * (s / p) * (s / w) / (s / p + s / w) == 2.0 * s / (w + p)
  {
    var c, d := s / p, s / w;
    assert c * p == s && d * w == s;
    QuotientAgainst(s, p, 0.0, 0.0);
    QuotientAgainst(s, w, 0.0, 0.0);
    NotZero(c, p, s);
    NotZero(d, w, s);
    var q := 2.0 * s / (w + p);
    assert q * (w + p) == 2.0 * s;
    Cross(c, d, w, p, s, q);
    var sum, top := c + d, 2.0 * c * d;
    assert q * sum == top;
    SameQuotient(top, sum, q);
  }

  lemma NotZero(c: real, p: real, s: real)
    requires c >= 0.0 && c * p == s && s > 0.0
    ensures c > 0.0
  {
    if c == 0.0 {
      assert c * p == 0.0 * p == 0.0;
    }
  }

  lemma Cross(c: real, d: real, w: real, p: real, s: real, q: real)
    requires c * p == s && d * w == s && w > 0.0 && p > 0.0 && q * (w + p) == 2.0 * s
    ensures q * (c + d) == 2.0 * c * d
  {
    assert c * d * (w + p) == d * (c * p) + c * (d * w) == s * (c + d);
    var x, y, sum := q * (c + d), 2.0 * c * d, w + p;
    assert x * sum == (q * sum) * (c + d) by { Swap(q, c + d, sum); }
    assert y * sum == 2.0 * (c * d * sum);
    assert x * sum == y * sum;
    Cancelled(x, y, sum);
  }

  lemma Swap(a: real, b: real, c: real)
    ensures (a * b) * c == (a * c) * b
  {}

  lemma Cancelled(x: real, y: real, c: real)
    requires c > 0.0 && x * c == y * c
    ensures x == y
  {}

  lemma SameQuotient(a: real, b: real, q: real)
    requires b != 0.0 && q * b == a
    ensures a / b == q
  {}

  // ---------------------------------------------------------------- thresholds

  /** `with_thresholds`. */
  function WithThresholds(s: TieredSpace, t: TierSet): (r: CalibratedSpace) {
    s.(threshold := Some(t.threshold), hybridGate := t.hybridGate, domainFloor := t.domainFloor)
  }

  /** `with_label_thresholds`. */
  function WithLabelThresholds(s: CalibratedSpace, messageLabel: string, t: TierSet): CalibratedSpace {
    s.(byLabel := s.byLabel[messageLabel := t])
  }

  /** What is set is what is read: the shared thresholds by every message without a label or whose label has
      none of its own, a label's own by the messages of that label and no others. */
  lemma ThresholdsRoundTrip(s: CalibratedSpace, t: TierSet, own: string, message: Option<string>)
    ensures var shared, labelled := WithThresholds(s, t), WithLabelThresholds(s, own, t);
            && shared.TiersFor(None) == t
            && (forall l :: shared.TiersFor(Some(l)) == if l in s.byLabel then s.TiersFor(Some(l)) else t)
            && labelled.TiersFor(Some(own)) == t
            && (message != Some(own) ==> labelled.TiersFor(message) == s.TiersFor(message))
  {}

  // ---------------------------------------------------------------- the rule

  /** The message links to a domain of the campaign. */
  ghost predicate SharesDomain(c: Centroid, text: Option<Wording>) {
    text.Some? && c.profile.Some? && exists d :: d in text.value.domains && d in c.profile.value.domains
  }

  /** The message is worded like the campaign. */
  ghost predicate WordedLike(c: Centroid, text: Option<Wording>) {
    text.Some? && c.profile.Some? && Resembles(text.value.shingles, c.profile.value)
  }

  /** A campaign some tier accepts: the shared domain lowers the similarity it needs, and so does the wording. */
  ghost predicate Supports(c: Centroid, sim: real, text: Option<Wording>, t: TierSet) {
    || (t.domainFloor.Some? && sim >= t.domainFloor.value && SharesDomain(c, text))
    || (t.hybridGate.Some? && sim >= t.hybridGate.value && WordedLike(c, text))
    || sim >= t.threshold
  }

  /** The three tiers, said of the message and the campaign. */
  lemma EligibleMeans(c: Centroid, sim: real, text: Option<Wording>, t: TierSet)
    ensures var s, bars := SignalOf(c, sim, text), TierValues(t);
            && (Eligible(DomainTier, s, bars) <==>
                  t.domainFloor.Some? && sim >= t.domainFloor.value && SharesDomain(c, text))
            && (Eligible(HybridTier, s, bars) <==>
                  t.hybridGate.Some? && sim >= t.hybridGate.value && WordedLike(c, text))
            && (Eligible(EmbeddingTier, s, bars) <==> sim >= t.threshold)
            && Key(DomainTier, s) == Key(EmbeddingTier, s) == sim
            && (text.Some? && c.profile.Some? ==>
                  Key(HybridTier, s) == LexicalSimilarity(text.value.shingles, c.profile.value))
  {
    if text.Some? && c.profile.Some? {
      LexicalIsDice(text.value.shingles, c.profile.value);
      CommonDomain(text.value.domains, c.profile.value);
    }
    hide LexicalSimilarity, Resembles, DomainsOverlap;
  }

  lemma CommonDomain(domains: set<string>, p: Profile)
    ensures DomainsOverlap(domains, p) <==> exists d :: d in domains && d in p.domains
  {
    if d :| d in domains && d in p.domains {
      assert d in domains * p.domains;
    }
  }

  /** A message is attached exactly if some campaign supports it, and then to one that does. */
  lemma AttachedIff(cs: seq<Centroid>, v: Vec, text: Option<Wording>, cosine: Cosine, t: TierSet)
    ensures var answer := Decide(SignalsOf(cs, v, text, cosine), TierValues(t));
            && (answer.Some? <==> exists c <- cs :: Supports(c, cosine(v, c.vector), text, t))
            && (answer.Some? ==>
                  answer.value < |cs| && Supports(cs[answer.value], cosine(v, cs[answer.value].vector), text, t))
  {
    var row, bars := SignalsOf(cs, v, text, cosine), TierValues(t);
    MatchesAreJustified(row, bars);
    forall j | 0 <= j < |cs|
      ensures Supports(cs[j], cosine(v, cs[j].vector), text, t) <==>
              Eligible(DomainTier, row[j], bars) || Eligible(HybridTier, row[j], bars) ||
              Eligible(EmbeddingTier, row[j], bars)
    {
      EligibleMeans(cs[j], cosine(v, cs[j].vector), text, t);
    }
    hide Supports, Eligible, Decide, TierValues, DecidingTier, Key;
    if c :| c in cs && Supports(c, cosine(v, c.vector), text, t) {
      var j :| 0 <= j < |cs| && cs[j] == c;
    }
  }

  /** Without a campaign space: 0.90 is enough with a shared domain, 0.99 with like wording, else the bar given. */
  lemma RawAttachedIff(cs: seq<Centroid>, v: Vec, text: Option<Wording>, cosine: Cosine, threshold: real)
    ensures Decide(SignalsOf(cs, v, text, cosine), RAW_BARS.(threshold := At(threshold))).Some? <==>
            exists c <- cs ::
              || (cosine(v, c.vector) >= 0.90 && SharesDomain(c, text))
              || (cosine(v, c.vector) >= 0.99 && WordedLike(c, text))
              || cosine(v, c.vector) >= threshold
  {
    var t := TierSet(threshold, Some(0.99), Some(0.90));
    RawTiers(threshold);
    AttachedIff(cs, v, text, cosine, t);
    hide SharesDomain, WordedLike, Decide, SignalsOf, TierValues;
    forall c: Centroid | c in cs
      ensures Supports(c, cosine(v, c.vector), text, t) <==>
              || (cosine(v, c.vector) >= 0.90 && SharesDomain(c, text))
              || (cosine(v, c.vector) >= 0.99 && WordedLike(c, text))
              || cosine(v, c.vector) >= threshold
    {}
    hide Supports;
  }

  lemma RawTiers(threshold: real)
    ensures TierValues(TierSet(threshold, Some(0.99), Some(0.90))) == RAW_BARS.(threshold := At(threshold))
  {}

  /** Thresholds set for one label decide the messages of that label, and change nothing for the rest. */
  lemma LabelDecides(s: CalibratedSpace, own: string, t: TierSet, cs: seq<Centroid>, v: Vec, text: Option<Wording>,
                     message: Option<string>, cosine: Cosine)
    ensures var labelled := WithLabelThresholds(s, own, t);
            var row := SignalsOf(cs, labelled.apply(v), text, cosine);
            && (message == Some(own) ==>
                 (Decide(row, TierValues(labelled.TiersFor(message))).Some? <==>
                   exists c <- cs :: Supports(c, cosine(s.apply(v), c.vector), text, t)))
            && (message != Some(own) ==>
                  Decide(row, TierValues(labelled.TiersFor(message))) ==
                  Decide(SignalsOf(cs, s.apply(v), text, cosine), TierValues(s.TiersFor(message))))
  {
    ThresholdsRoundTrip(s, t, own, message);
    AttachedIff(cs, s.apply(v), text, cosine, t);
    hide Supports, Decide, SignalsOf, TierValues;
  }

  // ---------------------------------------------------------------- which campaign

  /** `i` has the highest score of `who`, the first of those that have it. */
  ghost predicate Leads(who: set<nat>, score: map<nat, real>, i: nat)
    requires who <= score.Keys
  {
    i in who && forall j <- who :: score[j] <= score[i] && (j < i ==> score[j] < score[i])
  }

  ghost function Similarities(cs: seq<Centroid>, v: Vec, cosine: Cosine): map<nat, real> {
    map j: nat | j < |cs| :: cosine(v, cs[j].vector)
  }

  ghost function Wordings(cs: seq<Centroid>, text: Option<Wording>): map<nat, real> {
    map j: nat | j < |cs| ::
      if text.Some? && cs[j].profile.Some? then LexicalSimilarity(text.value.shingles, cs[j].profile.value) else 0.0
  }

  /** The campaigns each tier accepts. */
  ghost function ByDomain(cs: seq<Centroid>, sims: map<nat, real>, text: Option<Wording>, t: TierSet): set<nat>
    requires forall j :: 0 <= j < |cs| ==> j in sims
  {
    set j: nat | j < |cs| && t.domainFloor.Some? && sims[j] >= t.domainFloor.value && SharesDomain(cs[j], text)
  }

  ghost function ByWording(cs: seq<Centroid>, sims: map<nat, real>, text: Option<Wording>, t: TierSet): set<nat>
    requires forall j :: 0 <= j < |cs| ==> j in sims
  {
    set j: nat | j < |cs| && t.hybridGate.Some? && sims[j] >= t.hybridGate.value && WordedLike(cs[j], text)
  }

  ghost function BySimilarity(cs: seq<Centroid>, sims: map<nat, real>, t: TierSet): set<nat>
    requires forall j :: 0 <= j < |cs| ==> j in sims
  {
    set j: nat | j < |cs| && sims[j] >= t.threshold
  }

  /** The most similar of the campaigns with a shared domain is taken; without one, of those worded alike the one
      with the largest overlap; without one, the most similar of all that reach the bar. */
  lemma MatchMeans(cs: seq<Centroid>, v: Vec, text: Option<Wording>, cosine: Cosine, t: TierSet)
    ensures var sims, lexs := Similarities(cs, v, cosine), Wordings(cs, text);
            var answer := Decide(SignalsOf(cs, v, text, cosine), TierValues(t));
            if ByDomain(cs, sims, text, t) != {} then
              answer.Some? && Leads(ByDomain(cs, sims, text, t), sims, answer.value)
            else if ByWording(cs, sims, text, t) != {} then
              answer.Some? && Leads(ByWording(cs, sims, text, t), lexs, answer.value)
            else if BySimilarity(cs, sims, t) != {} then
              answer.Some? && Leads(BySimilarity(cs, sims, t), sims, answer.value)
            else answer == None
  {
    hide *;
    var row, bars := SignalsOf(cs, v, text, cosine), TierValues(t);
    Candidates(cs, v, text, cosine, t);
    MatchesAreJustified(row, bars);
    NoCandidate(DomainTier, row, bars);
    NoCandidate(HybridTier, row, bars);
    NoCandidate(EmbeddingTier, row, bars);
    if i :| Decide(row, bars) == Some(i) {
      FirstBestLeads(DecidingTier(row, bars), row, bars, i);
      match DecidingTier(row, bars)
      case DomainTier => SameScores(ByDomain(cs, Similarities(cs, v, cosine), text, t), Keys(DomainTier, row),
                                    Similarities(cs, v, cosine), i);
      case HybridTier => SameScores(ByWording(cs, Similarities(cs, v, cosine), text, t), Keys(HybridTier, row),
                                    Wordings(cs, text), i);
      case EmbeddingTier => SameScores(BySimilarity(cs, Similarities(cs, v, cosine), t), Keys(EmbeddingTier, row),
                                       Similarities(cs, v, cosine), i);
    }
  }

  ghost function Accepted(tier: Tier, row: seq<Signal>, bars: Bars): set<nat> {
    set j: nat | j < |row| && Eligible(tier, row[j], bars)
  }

  ghost function Keys(tier: Tier, row: seq<Signal>): map<nat, real> {
    map j: nat | j < |row| :: Key(tier, row[j])
  }

  lemma NoCandidate(tier: Tier, row: seq<Signal>, bars: Bars)
    ensures NoneEligible(tier, row, bars) <==> Accepted(tier, row, bars) == {}
  {
    hide Eligible;
    if j: nat :| j < |row| && Eligible(tier, row[j], bars) {
      assert j in Accepted(tier, row, bars);
    }
  }

  lemma FirstBestLeads(tier: Tier, row: seq<Signal>, bars: Bars, i: nat)
    requires FirstBest(tier, row, bars, i)
    ensures Accepted(tier, row, bars) <= Keys(tier, row).Keys
    ensures Leads(Accepted(tier, row, bars), Keys(tier, row), i)
  {
    hide Eligible, Key;
  }

  lemma SameScores(who: set<nat>, a: map<nat, real>, b: map<nat, real>, i: nat)
    requires who <= a.Keys && who <= b.Keys && Leads(who, a, i) && forall j <- who :: a[j] == b[j]
    ensures Leads(who, b, i)
  {}

  lemma Candidates(cs: seq<Centroid>, v: Vec, text: Option<Wording>, cosine: Cosine, t: TierSet)
    ensures var sims, row, bars := Similarities(cs, v, cosine), SignalsOf(cs, v, text, cosine), TierValues(t);
            && (forall j :: 0 <= j < |cs| ==> j in sims && j in Wordings(cs, text))
            && ByDomain(cs, sims, text, t) == Accepted(DomainTier, row, bars) <= sims.Keys
            && ByWording(cs, sims, text, t) == Accepted(HybridTier, row, bars) <= Wordings(cs, text).Keys
            && BySimilarity(cs, sims, t) == Accepted(EmbeddingTier, row, bars) <= sims.Keys
            && (forall tier :: Keys(tier, row).Keys == sims.Keys)
            && (forall j <- ByDomain(cs, sims, text, t) :: Keys(DomainTier, row)[j] == sims[j])
            && (forall j <- ByWording(cs, sims, text, t) :: Keys(HybridTier, row)[j] == Wordings(cs, text)[j])
            && (forall j <- BySimilarity(cs, sims, t) :: Keys(EmbeddingTier, row)[j] == sims[j])
  {
    var row, bars := SignalsOf(cs, v, text, cosine), TierValues(t);
    forall j: nat | j < |cs|
      ensures Eligible(DomainTier, row[j], bars) <==>
              t.domainFloor.Some? && cosine(v, cs[j].vector) >= t.domainFloor.value && SharesDomain(cs[j], text)
      ensures Eligible(HybridTier, row[j], bars) <==>
              t.hybridGate.Some? && cosine(v, cs[j].vector) >= t.hybridGate.value && WordedLike(cs[j], text)
      ensures Eligible(EmbeddingTier, row[j], bars) <==> cosine(v, cs[j].vector) >= t.threshold
      ensures Key(DomainTier, row[j]) == Key(EmbeddingTier, row[j]) == cosine(v, cs[j].vector)
      ensures WordedLike(cs[j], text) ==> Key(HybridTier, row[j]) == Wordings(cs, text)[j]
    {
      EligibleMeans(cs[j], cosine(v, cs[j].vector), text, t);
    }
    hide Eligible, TierValues, Key, SharesDomain, WordedLike, LexicalSimilarity, SignalsOf;
  }
}
