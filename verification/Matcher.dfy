/** Three-tier campaign matching, in its three forms: the service's one-pass loop
    (ai/service/campaign.py), the calibration script's vector rule and its precomputed
    `Tiers` (ai/scripts/calibrate_campaign_space.py). */
module Matcher {
  import opened Wrappers
  import opened Vectors

  const LEXICAL_GATE := 0.45
  const MIN_PROFILE_SHINGLES := 4

  /** A tier's bar; a tier that is switched off has an infinite one. */
  datatype Bar = Off | At(value: real)

  predicate Clears(x: real, bar: Bar) {
    bar.At? && x >= bar.value
  }

  datatype Bars = Bars(domainFloor: Bar, hybridGate: Bar, threshold: Bar)

  const RAW_BARS := Bars(At(0.90), At(0.99), At(0.999))

  /** `(embedding, hybrid_gate, domain_floor)` of a campaign space. */
  datatype TierSet = TierSet(threshold: real, hybridGate: Option<real>, domainFloor: Option<real>)

  function BarOf(gate: Option<real>): Bar {
    if gate.None? then Off else At(gate.value)
  }

  /** `_tier_values`. */
  function TierValues(t: TierSet): Bars {
    Bars(BarOf(t.domainFloor), BarOf(t.hybridGate), At(t.threshold))
  }

  /** What a matcher uses of a campaign space: its transform and its thresholds, of which the shared
      embedding threshold is missing until the space is calibrated. */
  datatype TieredSpace = TieredSpace(
    apply: Vec -> Vec,
    threshold: Option<real>,
    hybridGate: Option<real>,
    domainFloor: Option<real>,
    byLabel: map<string, TierSet>)
  {
    predicate Calibrated() {
      threshold.Some?
    }

    /** `tiers_for`. */
    function TiersFor(messageLabel: Option<string>): TierSet
      requires Calibrated()
    {
      if messageLabel.Some? && messageLabel.value in byLabel then byLabel[messageLabel.value]
      else TierSet(threshold.value, hybridGate, domainFloor)
    }
  }

  type CalibratedSpace = s: TieredSpace | s.Calibrated()
    witness TieredSpace(v => v, Some(0.0), None, None, map[])

  datatype Error = NotCalibrated

  datatype Profile = Profile(shingles: set<string>, domains: set<string>)

  /** What is read off a message text: its shingles and the domains it links to. */
  datatype Wording = Wording(shingles: set<string>, domains: set<string>)

  datatype Centroid = Centroid(id: string, vector: Vec, profile: Option<Profile>)

  // ---------------------------------------------------------------- signals

  /** One centroid seen from one message: cosine, wording overlap, shared domain. */
  datatype Signal = Signal(sim: real, lex: real, dom: bool)

  /** Dice overlap of a message with a profile (`similarity_from_shingles`). */
  function LexicalSimilarity(words: set<string>, p: Profile): real {
    var shared := |words * p.shingles|;
    if |p.shingles| < MIN_PROFILE_SHINGLES || words == {} || shared == 0 then 0.0
    else
      var coverage, precision := shared as real / |p.shingles| as real, shared as real / |words| as real;
      2.0 * coverage * precision / (coverage + precision)
  }

  predicate DomainsOverlap(domains: set<string>, p: Profile) {
    domains * p.domains != {}
  }

  function SignalOf(c: Centroid, sim: real, text: Option<Wording>): Signal {
    if text.None? || c.profile.None? then Signal(sim, 0.0, false)
    else Signal(sim, LexicalSimilarity(text.value.shingles, c.profile.value),
                DomainsOverlap(text.value.domains, c.profile.value))
  }

  /** How similar two vectors are, as `_cosine_similarity_with_norm` computes it. */
  type Cosine = (Vec, Vec) -> real

  function SignalsOf(cs: seq<Centroid>, v: Vec, text: Option<Wording>, cosine: Cosine): (s: seq<Signal>)
    ensures |s| == |cs|
    ensures forall i :: 0 <= i < |cs| ==> s[i] == SignalOf(cs[i], cosine(v, cs[i].vector), text)
  {
    seq(|cs|, i requires 0 <= i < |cs| => SignalOf(cs[i], cosine(v, cs[i].vector), text))
  }

  // ---------------------------------------------------------------- tiers

  datatype Tier = DomainTier | HybridTier | EmbeddingTier

  predicate Eligible(tier: Tier, s: Signal, bars: Bars) {
    match tier
    case DomainTier => s.dom && Clears(s.sim, bars.domainFloor)
    case HybridTier => Clears(s.sim, bars.hybridGate) && s.lex >= LEXICAL_GATE
    case EmbeddingTier => Clears(s.sim, bars.threshold)
  }

  /** What a tier ranks its candidates by: wording in the hybrid tier, cosine elsewhere. */
  function Key(tier: Tier, s: Signal): real {
    if tier == HybridTier then s.lex else s.sim
  }

  /** `i` is the first of the best candidates of a tier. */
  ghost predicate FirstBest(tier: Tier, row: seq<Signal>, bars: Bars, i: nat) {
    && i < |row| && Eligible(tier, row[i], bars)
    && forall j :: 0 <= j < |row| && Eligible(tier, row[j], bars) ==>
         Key(tier, row[j]) <= Key(tier, row[i]) && (j < i ==> Key(tier, row[j]) < Key(tier, row[i]))
  }

  ghost predicate NoneEligible(tier: Tier, row: seq<Signal>, bars: Bars) {
    forall j :: 0 <= j < |row| ==> !Eligible(tier, row[j], bars)
  }

  /** `p` is what a tier chooses on a row. */
  ghost predicate Chosen(tier: Tier, row: seq<Signal>, bars: Bars, p: Option<nat>) {
    if p.None? then NoneEligible(tier, row, bars) else FirstBest(tier, row, bars, p.value)
  }

  lemma ChosenUnique(tier: Tier, row: seq<Signal>, bars: Bars, p: Option<nat>, q: Option<nat>)
    requires Chosen(tier, row, bars, p) && Chosen(tier, row, bars, q)
    ensures p == q
  {}

  // ---------------------------------------------------------------- the vector rule

  /** `np.argmax` of one row, `None` standing for -inf: the first index of the maximum. */
  function ArgMax(xs: seq<Option<real>>): (i: nat)
    requires xs != []
    ensures i < |xs|
  {
    if |xs| == 1 then 0
    else
      var best := ArgMax(xs[..|xs| - 1]);
      if Above(xs[|xs| - 1], xs[best]) then |xs| - 1 else best
  }

  predicate Above(x: Option<real>, y: Option<real>) {
    x.Some? && (y.None? || x.value > y.value)
  }

  lemma {:induction false} ArgMaxIsFirstMaximum(xs: seq<Option<real>>)
    requires xs != []
    ensures forall j :: 0 <= j < |xs| ==> !Above(xs[j], xs[ArgMax(xs)])
    ensures forall j :: 0 <= j < ArgMax(xs) ==> Above(xs[ArgMax(xs)], xs[j]) || xs[ArgMax(xs)].None?
  {
    if |xs| > 1 {
      ArgMaxIsFirstMaximum(xs[..|xs| - 1]);
    }
  }

  /** `np.where(mask, key, -np.inf)`. */
  function Masked(tier: Tier, row: seq<Signal>, bars: Bars): (r: seq<Option<real>>)
    ensures |r| == |row|
  {
    seq(|row|, i requires 0 <= i < |row| => if Eligible(tier, row[i], bars) then Some(Key(tier, row[i])) else None)
  }

  /** `_pick` on one row. */
  function Pick(tier: Tier, row: seq<Signal>, bars: Bars): Option<nat> {
    if exists i :: 0 <= i < |row| && Eligible(tier, row[i], bars) then Some(ArgMax(Masked(tier, row, bars))) else None
  }

  lemma PickIsChosen(tier: Tier, row: seq<Signal>, bars: Bars)
    ensures Chosen(tier, row, bars, Pick(tier, row, bars))
  {
    if i :| 0 <= i < |row| && Eligible(tier, row[i], bars) {
      var masked := Masked(tier, row, bars);
      ArgMaxIsFirstMaximum(masked);
      assert !Above(masked[i], masked[ArgMax(masked)]);
      forall j | 0 <= j < |row| && Eligible(tier, row[j], bars)
        ensures Key(tier, row[j]) <= Key(tier, row[ArgMax(masked)])
        ensures j < ArgMax(masked) ==> Key(tier, row[j]) < Key(tier, row[ArgMax(masked)])
      {
        assert !Above(masked[j], masked[ArgMax(masked)]);
      }
    }
  }

  /** `decide` on one query: domain, else hybrid, else embedding. */
  function Decide(row: seq<Signal>, bars: Bars): Option<nat> {
    var domain, hybrid := Pick(DomainTier, row, bars), Pick(HybridTier, row, bars);
    if domain.Some? then domain else if hybrid.Some? then hybrid else Pick(EmbeddingTier, row, bars)
  }

  /** The tier `Decide` takes its answer from. */
  function DecidingTier(row: seq<Signal>, bars: Bars): Tier {
    if Pick(DomainTier, row, bars).Some? then DomainTier
    else if Pick(HybridTier, row, bars).Some? then HybridTier
    else EmbeddingTier
  }

  // ---------------------------------------------------------------- the one-pass loop

  datatype MatchResult = MatchResult(
    clusterId: Option<string>,
    similarity: real,
    matched: bool,
    shouldBuffer: bool,
    lexicalSimilarity: real,
    reason: Option<Tier>)

  datatype Hit = Hit(sim: real, lex: real, id: string)

  ghost predicate HitIs(tier: Tier, cs: seq<Centroid>, row: seq<Signal>, bars: Bars, hit: Option<Hit>, at: Option<nat>)
    requires |cs| == |row|
  {
    && Chosen(tier, row, bars, at)
    && hit.Some? == at.Some?
    && (at.Some? ==> hit.value == Hit(row[at.value].sim, row[at.value].lex, cs[at.value].id))
  }

  ghost predicate IsMaximum(x: real, row: seq<Signal>) {
    (exists i :: 0 <= i < |row| && row[i].sim == x) && forall i :: 0 <= i < |row| ==> row[i].sim <= x
  }

  class CampaignMatcher {
    var centroids: seq<Centroid>
    const space: Option<CalibratedSpace>
    const bars: Bars

    /** The constructor as callers see it: a space without thresholds is refused. */
    static method Build(centroids: seq<Centroid>, threshold: real, space: Option<TieredSpace>)
      returns (r: Result<CampaignMatcher, Error>)
      ensures r.Err? <==> space.Some? && space.value.threshold.None?
      ensures r.Ok? ==> fresh(r.value) && r.value.centroids == centroids && r.value.space == space
      ensures r.Ok? ==> r.value.bars == (if space.Some? then TierValues(space.value.TiersFor(None))
                                         else RAW_BARS.(threshold := At(threshold)))
    {
      if space.Some? && !space.value.Calibrated() {
        return Err(NotCalibrated);
      }
      var matcher := new CampaignMatcher(centroids, threshold, space);
      return Ok(matcher);
    }

    constructor (centroids: seq<Centroid>, threshold: real, space: Option<CalibratedSpace>)
      ensures this.centroids == centroids && this.space == space
      ensures bars == (if space.Some? then TierValues(space.value.TiersFor(None))
                       else RAW_BARS.(threshold := At(threshold)))
    {
      this.centroids := centroids;
      this.space := space;
      bars := if space.Some? then TierValues(space.value.TiersFor(None)) else RAW_BARS.(threshold := At(threshold));
    }

    method ReplaceCentroids(replacement: seq<Centroid>)
      modifies this
      ensures centroids == replacement
    {
      centroids := replacement;
    }

    /** The vector the message is compared with, and the bars it has to clear. */
    function Prepared(embedding: Vec, messageLabel: Option<string>): (Vec, Bars) {
      if space.Some? then (space.value.apply(embedding), TierValues(space.value.TiersFor(messageLabel)))
      else (embedding, bars)
    }

    /** The matrix row `score` builds for this message. */
    function Row(embedding: Vec, text: Option<Wording>, messageLabel: Option<string>, cosine: Cosine): (r: seq<Signal>)
      reads this
      ensures |r| == |centroids|
    {
      SignalsOf(centroids, Prepared(embedding, messageLabel).0, text, cosine)
    }

    /** `match`: whatever the centroids, the bars and the text, the loop attaches the message
        to exactly the campaign the vector rule picks. */
    method Match(embedding: Vec, text: Option<Wording>, messageLabel: Option<string>, cosine: Cosine)
      returns (r: MatchResult)
      requires forall a, b :: cosine(a, b) > -2.0
      ensures centroids == [] ==> r == MatchResult(None, 0.0, false, true, 0.0, None)
      ensures centroids != [] ==>
        var row, bars := Row(embedding, text, messageLabel, cosine), Prepared(embedding, messageLabel).1;
        match Decide(row, bars)
        case Some(i) =>
          i < |row| &&
          r == MatchResult(Some(centroids[i].id), row[i].sim, true, false, row[i].lex, Some(DecidingTier(row, bars)))
        case None => IsMaximum(r.similarity, row) && r == MatchResult(None, r.similarity, false, true, 0.0, None)
    {
      if centroids == [] {
        return MatchResult(None, 0.0, false, true, 0.0, None);
      }
      var (vector, bars) := Prepared(embedding, messageLabel);
      var hits := ScanCentroids(centroids, vector, bars, text, cosine);
      ghost var row := Row(embedding, text, messageLabel, cosine);
      assert row == SignalsOf(centroids, vector, text, cosine);
      HitIsPick(DomainTier, centroids, row, bars, hits.domain);
      HitIsPick(HybridTier, centroids, row, bars, hits.hybrid);
      HitIsPick(EmbeddingTier, centroids, row, bars, hits.embedding);
      hide Pick, HitExists, IsMaximum;
      if hits.domain.Some? {
        var hit := hits.domain.value;
        return MatchResult(Some(hit.id), hit.sim, true, false, hit.lex, Some(DomainTier));
      }
      if hits.hybrid.Some? {
        var hit := hits.hybrid.value;
        return MatchResult(Some(hit.id), hit.sim, true, false, hit.lex, Some(HybridTier));
      }
      if hits.embedding.Some? {
        var hit := hits.embedding.value;
        return MatchResult(Some(hit.id), hit.sim, true, false, hit.lex, Some(EmbeddingTier));
      }
      return MatchResult(None, hits.best, false, true, 0.0, None);
    }
  }

  /** The loop's local state: best similarity, and the best candidate of each tier. */
  datatype Hits = Hits(best: real, domain: Option<Hit>, hybrid: Option<Hit>, embedding: Option<Hit>)

  ghost predicate HitExists(tier: Tier, cs: seq<Centroid>, row: seq<Signal>, bars: Bars, hit: Option<Hit>)
    requires |cs| == |row|
  {
    exists at: Option<nat> :: HitIs(tier, cs, row, bars, hit, at)
  }

  /** The loop over all centroids. */
  method ScanCentroids(cs: seq<Centroid>, vector: Vec, bars: Bars, text: Option<Wording>, cosine: Cosine)
    returns (hits: Hits)
    requires cs != [] && forall a, b :: cosine(a, b) > -2.0
    ensures var row := SignalsOf(cs, vector, text, cosine);
            && HitExists(DomainTier, cs, row, bars, hits.domain)
            && HitExists(HybridTier, cs, row, bars, hits.hybrid)
            && HitExists(EmbeddingTier, cs, row, bars, hits.embedding)
            && IsMaximum(hits.best, row)
  {
    ghost var row := SignalsOf(cs, vector, text, cosine);
    hits := Hits(-2.0, None, None, None);
    NoHitYet(bars);
    assert cs[..0] == [] && row[..0] == [];
    hide HitExists, IsMaximum, Better;
    for i := 0 to |cs|
      invariant HitExists(DomainTier, cs[..i], row[..i], bars, hits.domain)
      invariant HitExists(HybridTier, cs[..i], row[..i], bars, hits.hybrid)
      invariant HitExists(EmbeddingTier, cs[..i], row[..i], bars, hits.embedding)
      invariant if i == 0 then hits.best == -2.0 else IsMaximum(hits.best, row[..i])
    {
      assert row[..i + 1] == row[..i] + [row[i]] && cs[..i + 1] == cs[..i] + [cs[i]];
      MaximumSoFar(row[..i], row[i], hits.best);
      HitStep(DomainTier, cs[..i], row[..i], bars, hits.domain, cs[i], row[i]);
      HitStep(HybridTier, cs[..i], row[..i], bars, hits.hybrid, cs[i], row[i]);
      HitStep(EmbeddingTier, cs[..i], row[..i], bars, hits.embedding, cs[i], row[i]);
      hits := VisitCentroid(hits, cs[i], cosine(vector, cs[i].vector), text, bars);
    }
    assert row[..|cs|] == row && cs[..|cs|] == cs;
  }

  /** The body of the loop. */
  method VisitCentroid(before: Hits, c: Centroid, sim: real, text: Option<Wording>, bars: Bars) returns (hits: Hits)
    ensures var s := SignalOf(c, sim, text);
            hits == Hits(if sim > before.best then sim else before.best,
                         Better(DomainTier, before.domain, s, c.id, bars),
                         Better(HybridTier, before.hybrid, s, c.id, bars),
                         Better(EmbeddingTier, before.embedding, s, c.id, bars))
  {
    hits := before;
    if sim > hits.best {
      hits := hits.(best := sim);
    }
    var lex := 0.0;
    if text.Some? && c.profile.Some? {
      lex := LexicalSimilarity(text.value.shingles, c.profile.value);
      if Clears(sim, bars.domainFloor) && DomainsOverlap(text.value.domains, c.profile.value) {
        if hits.domain.None? || sim > hits.domain.value.sim {
          hits := hits.(domain := Some(Hit(sim, lex, c.id)));
        }
      }
      if Clears(sim, bars.hybridGate) && lex >= LEXICAL_GATE {
        if hits.hybrid.None? || lex > hits.hybrid.value.lex {
          hits := hits.(hybrid := Some(Hit(sim, lex, c.id)));
        }
      }
    }
    if Clears(sim, bars.threshold) {
      if hits.embedding.None? || sim > hits.embedding.value.sim {
        hits := hits.(embedding := Some(Hit(sim, lex, c.id)));
      }
    }
  }

  lemma NoHitYet(bars: Bars)
    ensures forall tier :: HitExists(tier, [], [], bars, None)
  {
    forall tier ensures HitExists(tier, [], [], bars, None) {
      assert HitIs(tier, [], [], bars, None, None);
    }
  }

  lemma HitIsPick(tier: Tier, cs: seq<Centroid>, row: seq<Signal>, bars: Bars, hit: Option<Hit>)
    requires |cs| == |row| && HitExists(tier, cs, row, bars, hit)
    ensures var p := Pick(tier, row, bars);
            hit.Some? == p.Some? &&
            (p.Some? ==> p.value < |row| && hit.value == Hit(row[p.value].sim, row[p.value].lex, cs[p.value].id))
  {
    var at: Option<nat> :| HitIs(tier, cs, row, bars, hit, at);
    PickIsChosen(tier, row, bars);
    ChosenUnique(tier, row, bars, at, Pick(tier, row, bars));
  }

  /** A hit is replaced only by an eligible centroid with a strictly higher key. */
  function Better(tier: Tier, hit: Option<Hit>, s: Signal, id: string, bars: Bars): Option<Hit> {
    var key := if tier == HybridTier && hit.Some? then hit.value.lex else if hit.Some? then hit.value.sim else 0.0;
    if Eligible(tier, s, bars) && (hit.None? || Key(tier, s) > key) then Some(Hit(s.sim, s.lex, id)) else hit
  }

  lemma NextChosen(tier: Tier, row: seq<Signal>, bars: Bars, at: Option<nat>, s: Signal, next: Option<nat>)
    requires Chosen(tier, row, bars, at)
    requires next == (if Eligible(tier, s, bars) && (at.None? || Key(tier, s) > Key(tier, row[at.value]))
                      then Some(|row|) else at)
    ensures Chosen(tier, row + [s], bars, next)
  {
    hide Key, Eligible;
    var row' := row + [s];
    assert row'[|row|] == s && forall j :: 0 <= j < |row| ==> row'[j] == row[j];
  }

  lemma HitStep(tier: Tier, cs: seq<Centroid>, row: seq<Signal>, bars: Bars, hit: Option<Hit>, c: Centroid, s: Signal)
    requires |cs| == |row| && HitExists(tier, cs, row, bars, hit)
    ensures HitExists(tier, cs + [c], row + [s], bars, Better(tier, hit, s, c.id, bars))
  {
    var at: Option<nat> :| HitIs(tier, cs, row, bars, hit, at);
    var row' := row + [s];
    assert row'[|row|] == s;
    var next := if Eligible(tier, s, bars) && (at.None? || Key(tier, s) > Key(tier, row[at.value]))
                then Some(|row|) else at;
    NextChosen(tier, row, bars, at, s, next);
    hide Chosen;
    assert HitIs(tier, cs + [c], row', bars, Better(tier, hit, s, c.id, bars), next);
  }

  lemma MaximumSoFar(row: seq<Signal>, s: Signal, best: real)
    requires s.sim > -2.0
    requires if row == [] then best == -2.0 else IsMaximum(best, row)
    ensures IsMaximum(if s.sim > best then s.sim else best, row + [s])
  {
    var next := row + [s];
    assert next[|row|] == s;
    if row != [] {
      var i :| 0 <= i < |row| && row[i].sim == best;
      assert next[i].sim == best;
    }
  }

  // ---------------------------------------------------------------- the precomputed form

  /** `Tiers`: per gate, the choice for every query; plus every query's best cosine. */
  datatype Tiers = Tiers(
    domain: map<Option<real>, seq<Option<nat>>>,
    hybrid: map<Option<real>, seq<Option<nat>>>,
    best: seq<nat>,
    bestCos: seq<real>)

  function PickAll(tier: Tier, rows: seq<seq<Signal>>, bars: Bars): (r: seq<Option<nat>>)
    ensures |r| == |rows|
  {
    seq(|rows|, q requires 0 <= q < |rows| => Pick(tier, rows[q], bars))
  }

  function Cosines(row: seq<Signal>): (r: seq<Option<real>>)
    ensures |r| == |row|
  {
    seq(|row|, i requires 0 <= i < |row| => Some(row[i].sim))
  }

  /** `Tiers.__init__`. */
  function BuildTiers(rows: seq<seq<Signal>>, floors: set<Option<real>>, gates: set<Option<real>>): Tiers
    requires forall q :: 0 <= q < |rows| ==> rows[q] != []
  {
    Tiers(
      map f | f in floors :: PickAll(DomainTier, rows, Bars(BarOf(f), Off, Off)),
      map g | g in gates :: PickAll(HybridTier, rows, Bars(Off, BarOf(g), Off)),
      seq(|rows|, q requires 0 <= q < |rows| => ArgMax(Cosines(rows[q]))),
      seq(|rows|, q requires 0 <= q < |rows| => rows[q][ArgMax(Cosines(rows[q]))].sim))
  }

  /** `Tiers.decide` on query `q`. */
  function DecideFast(t: Tiers, f: Option<real>, g: Option<real>, threshold: real, q: nat): Option<nat>
    requires f in t.domain && g in t.hybrid
    requires q < |t.domain[f]| && q < |t.hybrid[g]| && q < |t.best| && q < |t.bestCos|
  {
    if t.domain[f][q].Some? then t.domain[f][q]
    else if t.hybrid[g][q].Some? then t.hybrid[g][q]
    else if t.bestCos[q] >= threshold then Some(t.best[q])
    else None
  }

  lemma {:induction false} PickOfCosine(row: seq<Signal>, bars: Bars)
    requires row != [] && bars.threshold.At?
    ensures var best := ArgMax(Cosines(row));
            Pick(EmbeddingTier, row, bars) == if row[best].sim >= bars.threshold.value then Some(best) else None
  {
    var best := ArgMax(Cosines(row));
    ArgMaxIsFirstMaximum(Cosines(row));
    forall j | 0 <= j < |row| ensures row[j].sim <= row[best].sim && (j < best ==> row[j].sim < row[best].sim) {
      assert !Above(Cosines(row)[j], Cosines(row)[best]);
    }
    var p := if row[best].sim >= bars.threshold.value then Some(best) else None;
    assert Chosen(EmbeddingTier, row, bars, p);
    PickIsChosen(EmbeddingTier, row, bars);
    ChosenUnique(EmbeddingTier, row, bars, p, Pick(EmbeddingTier, row, bars));
  }

  /** Each tier only reads its own bar. */
  lemma PickReadsOwnBar(tier: Tier, row: seq<Signal>, a: Bars, b: Bars)
    requires match tier
             case DomainTier => a.domainFloor == b.domainFloor
             case HybridTier => a.hybridGate == b.hybridGate
             case EmbeddingTier => a.threshold == b.threshold
    ensures Pick(tier, row, a) == Pick(tier, row, b)
  {
    PickIsChosen(tier, row, a);
    PickIsChosen(tier, row, b);
    assert Chosen(tier, row, b, Pick(tier, row, a)) by {
      forall j | 0 <= j < |row| ensures Eligible(tier, row[j], a) == Eligible(tier, row[j], b) {}
    }
    ChosenUnique(tier, row, b, Pick(tier, row, a), Pick(tier, row, b));
  }

  /** The precomputed search evaluates the rule the service runs: for every query, floor,
      gate and threshold, switched-off tiers included. */
  lemma FastFormIsVectorRule(rows: seq<seq<Signal>>, floors: set<Option<real>>, gates: set<Option<real>>,
                             f: Option<real>, g: Option<real>, threshold: real, q: nat)
    requires (forall r :: 0 <= r < |rows| ==> rows[r] != []) && f in floors && g in gates && q < |rows|
    ensures DecideFast(BuildTiers(rows, floors, gates), f, g, threshold, q)
         == Decide(rows[q], TierValues(TierSet(threshold, g, f)))
  {
    var bars := TierValues(TierSet(threshold, g, f));
    PickReadsOwnBar(DomainTier, rows[q], Bars(BarOf(f), Off, Off), bars);
    PickReadsOwnBar(HybridTier, rows[q], Bars(Off, BarOf(g), Off), bars);
    PickOfCosine(rows[q], bars);
    hide Pick, ArgMax;
  }

  // ---------------------------------------------------------------- what a match means

  /** A reported match meets the bar of the tier it names, is that tier's best candidate, and
      no stronger tier had a candidate at all. */
  lemma MatchesAreJustified(row: seq<Signal>, bars: Bars)
    ensures var tier := DecidingTier(row, bars);
            match Decide(row, bars)
            case None =>
              && NoneEligible(DomainTier, row, bars)
              && NoneEligible(HybridTier, row, bars)
              && NoneEligible(EmbeddingTier, row, bars)
            case Some(i) =>
              && FirstBest(tier, row, bars, i)
              && (tier != DomainTier ==> NoneEligible(DomainTier, row, bars))
              && (tier == EmbeddingTier ==> NoneEligible(HybridTier, row, bars))
  {
    PickIsChosen(DomainTier, row, bars);
    PickIsChosen(HybridTier, row, bars);
    PickIsChosen(EmbeddingTier, row, bars);
    hide Pick, NoneEligible, FirstBest;
  }

  /** Text only adds matches: what the embedding alone attaches is attached with any text,
      and without text only the embedding tier can answer. */
  lemma TextOnlyAddsMatches(cs: seq<Centroid>, v: Vec, text: Option<Wording>, cosine: Cosine, bars: Bars)
    ensures var bare, row := SignalsOf(cs, v, None, cosine), SignalsOf(cs, v, text, cosine);
            && (Decide(bare, bars).Some? ==> Decide(row, bars).Some? && DecidingTier(bare, bars) == EmbeddingTier)
            && (Decide(row, bars).Some? && DecidingTier(row, bars) == EmbeddingTier ==>
                  Decide(row, bars) == Decide(bare, bars))
  {
    var bare, row := SignalsOf(cs, v, None, cosine), SignalsOf(cs, v, text, cosine);
    hide Pick;
    MatchesAreJustified(bare, bars);
    MatchesAreJustified(row, bars);
    SameEmbeddingTier(bare, row, bars);
    forall j | 0 <= j < |bare| ensures !Eligible(DomainTier, bare[j], bars) && !Eligible(HybridTier, bare[j], bars) {}
  }

  lemma SameEmbeddingTier(a: seq<Signal>, b: seq<Signal>, bars: Bars)
    requires |a| == |b| && forall j :: 0 <= j < |a| ==> a[j].sim == b[j].sim
    ensures Pick(EmbeddingTier, a, bars) == Pick(EmbeddingTier, b, bars)
  {
    PickIsChosen(EmbeddingTier, a, bars);
    PickIsChosen(EmbeddingTier, b, bars);
    assert Chosen(EmbeddingTier, b, bars, Pick(EmbeddingTier, a, bars)) by {
      forall j | 0 <= j < |a| ensures Eligible(EmbeddingTier, a[j], bars) == Eligible(EmbeddingTier, b[j], bars) {}
    }
    ChosenUnique(EmbeddingTier, b, bars, Pick(EmbeddingTier, a, bars), Pick(EmbeddingTier, b, bars));
  }
}
