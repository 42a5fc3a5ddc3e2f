/** Comparing two clustering snapshots (ai/campaign_evolution.py): the nearest match, and every part
    of the report as a function of the two snapshots. */
module Evolution {
  import opened Wrappers
  import opened Collections
  import opened Ordering
  import opened Sorting
  import opened Grouping
  import opened Vectors

  /** Cosine similarity of two centroids. */
  type Similarity = (Vec, Vec) -> real

  ghost predicate IsSimilarity(sim: Similarity) {
    && (forall a, b :: sim(a, b) == sim(b, a))
    && (forall a, b :: sim(a, b) > -2.0)
  }

  datatype Entry = Entry(id: string, size: int, centroid: Vec, topDomains: seq<string>)

  datatype Continuing = Continuing(
    previousId: string,
    currentId: string,
    similarity: real,
    sizeBefore: int,
    sizeAfter: int,
    newDomains: seq<string>,
    shareBefore: Option<real>,
    shareAfter: Option<real>)

  datatype Merge = Merge(previousIds: seq<string>, currentId: string, sizeBeforeTotal: int, sizeAfter: int)

  datatype Split = Split(previousId: string, primaryId: string, offshootIds: seq<string>, sizeBefore: int,
                         sizeAfterTotal: int)

  datatype Report = Report(
    newCampaigns: seq<string>,
    dissolved: seq<string>,
    continuing: seq<Continuing>,
    merges: seq<Merge>,
    splits: seq<Split>,
    mergeCandidates: seq<(string, string, real)>)

  // ---------------------------------------------------------------- nearest match

  /** The first of the entries most similar to `v`. */
  function Closest(v: Vec, es: seq<Entry>, sim: Similarity): (r: Option<nat>)
    ensures r.Some? <==> es != []
    ensures r.Some? ==> r.value < |es|
  {
    if es == [] then None
    else
      var best := Closest(v, es[..|es| - 1], sim);
      if best.None? || sim(v, es[|es| - 1].centroid) > sim(v, es[best.value].centroid) then Some(|es| - 1) else best
  }

  /** `_best_match`: the closest entry, if it clears the threshold. */
  function BestMatch(v: Vec, es: seq<Entry>, threshold: real, sim: Similarity): (r: Option<nat>)
    ensures r.Some? ==> r.value < |es|
  {
    var best := Closest(v, es, sim);
    if best.Some? && sim(v, es[best.value].centroid) >= threshold then best else None
  }

  lemma {:induction false} ClosestIsMaximum(v: Vec, es: seq<Entry>, sim: Similarity)
    requires es != []
    ensures var i := Closest(v, es, sim).value;
            forall j :: 0 <= j < |es| ==> sim(v, es[j].centroid) <= sim(v, es[i].centroid) &&
                                          (j < i ==> sim(v, es[j].centroid) < sim(v, es[i].centroid))
  {
    if |es| > 1 {
      ClosestIsMaximum(v, es[..|es| - 1], sim);
    }
  }

  /** No match is reported only when nothing at all clears the threshold. */
  lemma NoMatchMeansNoneClears(v: Vec, es: seq<Entry>, threshold: real, sim: Similarity, j: nat)
    requires j < |es| && sim(v, es[j].centroid) >= threshold
    ensures BestMatch(v, es, threshold, sim).Some?
    ensures sim(v, es[BestMatch(v, es, threshold, sim).value].centroid) >= sim(v, es[j].centroid)
  {
    ClosestIsMaximum(v, es, sim);
  }

  method FindBestMatch(v: Vec, es: seq<Entry>, threshold: real, sim: Similarity) returns (r: Option<nat>)
    requires IsSimilarity(sim)
    ensures r == BestMatch(v, es, threshold, sim)
  {
    var best: Option<nat>, bestSim := None, -2.0;
    for i := 0 to |es|
      invariant best == Closest(v, es[..i], sim)
      invariant bestSim == if best.None? then -2.0 else sim(v, es[best.value].centroid)
    {
      assert es[..i + 1][..i] == es[..i];
      var s := sim(v, es[i].centroid);
      if s > bestSim {
        bestSim, best := s, Some(i);
      }
    }
    assert es[..|es|] == es;
    if best.Some? && bestSim >= threshold {
      return best;
    }
    return None;
  }

  // ---------------------------------------------------------------- the report, part by part

  function Ids(es: seq<Entry>): (r: seq<string>)
    ensures |r| == |es| && forall i :: 0 <= i < |es| ==> r[i] == es[i].id
  {
    seq(|es|, i requires 0 <= i < |es| => es[i].id)
  }

  /** `{e.cluster_id: e for e in entries}`. */
  function ById(es: seq<Entry>): map<string, Entry> {
    if es == [] then map[] else ById(es[..|es| - 1])[es[|es| - 1].id := es[|es| - 1]]
  }

  lemma {:induction false} ByIdFinds(es: seq<Entry>)
    requires Distinct(Ids(es))
    ensures forall i :: 0 <= i < |es| ==> es[i].id in ById(es) && ById(es)[es[i].id] == es[i]
    ensures forall x :: x in ById(es) <==> x in Ids(es)
  {
    if es != [] {
      var rest := es[..|es| - 1];
      assert Ids(es) == Ids(rest) + [es[|es| - 1].id];
      assert forall i :: 0 <= i < |rest| ==> Ids(es)[i] == Ids(rest)[i];
      ByIdFinds(rest);
      assert Ids(es)[|es| - 1] == es[|es| - 1].id;
    }
  }

  /** Sum of the sizes recorded for a list of ids. */
  function TotalSize(ids: seq<string>, entries: map<string, Entry>): int {
    if ids == [] then 0
    else
      var last := ids[|ids| - 1];
      TotalSize(ids[..|ids| - 1], entries) + if last in entries then entries[last].size else 0
  }

  function Share(size: int, population: Option<int>): Option<real> {
    if population.None? || population.value <= 0 then None else Some(size as real / population.value as real)
  }

  datatype Comparison = Comparison(
    previous: seq<Entry>,
    current: seq<Entry>,
    threshold: real,
    sim: Similarity,
    previousPopulation: Option<int>,
    currentPopulation: Option<int>)
  {
    ghost predicate Sensible() {
      Distinct(Ids(previous)) && Distinct(Ids(current)) && IsSimilarity(sim)
    }

    /** The current cluster a previous one matched, and the other way round. */
    function Claim(p: Entry): (r: Option<nat>)
      ensures r.Some? ==> r.value < |current|
    {
      BestMatch(p.centroid, current, threshold, sim)
    }

    function Parent(c: Entry): (r: Option<nat>)
      ensures r.Some? ==> r.value < |previous|
    {
      BestMatch(c.centroid, previous, threshold, sim)
    }

    /** `prev_matches` after the first `n` previous entries. */
    function MatchMap(n: nat): map<string, (Entry, real)>
      requires n <= |previous|
    {
      if n == 0 then map[]
      else
        var p := previous[n - 1];
        if Claim(p).None? then MatchMap(n - 1)
        else MatchMap(n - 1)[p.id := (current[Claim(p).value], sim(p.centroid, current[Claim(p).value].centroid))]
    }

    /** (current id, previous id) for every match, in previous order. */
    function ClaimPairs(n: nat): seq<(string, string)>
      requires n <= |previous|
    {
      if n == 0 then []
      else
        var p := previous[n - 1];
        if Claim(p).None? then ClaimPairs(n - 1) else ClaimPairs(n - 1) + [(current[Claim(p).value].id, p.id)]
    }

    function Claims(): Groups<string, string> {
      GroupAll(ClaimPairs(|previous|))
    }

    function Dissolved(n: nat): seq<string>
      requires n <= |previous|
    {
      if n == 0 then []
      else if Claim(previous[n - 1]).Some? then Dissolved(n - 1)
      else Dissolved(n - 1) + [previous[n - 1].id]
    }

    function Unclaimed(n: nat): seq<Entry>
      requires n <= |current|
    {
      if n == 0 then []
      else if current[n - 1].id in Claims().lists then Unclaimed(n - 1)
      else Unclaimed(n - 1) + [current[n - 1]]
    }

    function NewCampaigns(unclaimed: seq<Entry>): seq<string> {
      if unclaimed == [] then []
      else
        var rest, last := unclaimed[..|unclaimed| - 1], unclaimed[|unclaimed| - 1];
        if Parent(last).Some? then NewCampaigns(rest) else NewCampaigns(rest) + [last.id]
    }

    /** (previous id, offshoot id) for every unclaimed cluster that still has a parent. */
    function OffshootPairs(unclaimed: seq<Entry>): seq<(string, string)> {
      if unclaimed == [] then []
      else
        var rest, last := unclaimed[..|unclaimed| - 1], unclaimed[|unclaimed| - 1];
        if Parent(last).None? then OffshootPairs(rest)
        else OffshootPairs(rest) + [(previous[Parent(last).value].id, last.id)]
    }

    function Offshoots(): Groups<string, string> {
      GroupAll(OffshootPairs(Unclaimed(|current|)))
    }

    ghost function ContinuingEntry(p: Entry, c: Entry): Continuing {
      Continuing(p.id, c.id, sim(p.centroid, c.centroid), p.size, c.size,
                 Sorted(Elements(c.topDomains) - Elements(p.topDomains)),
                 Share(p.size, previousPopulation), Share(c.size, currentPopulation))
    }

    ghost function MergeEntry(ps: seq<string>, c: Entry): Merge {
      Merge(Sort(ps, Less), c.id, TotalSize(ps, ById(previous)), c.size)
    }

    /** The claims of one current cluster: a single claimant continues it. */
    ghost function ContinuingOf(claims: Groups<string, string>, n: nat): seq<Continuing>
      requires n <= |claims.keys|
    {
      if n == 0 then []
      else
        var c := claims.keys[n - 1];
        var ps := ListAt(claims, c);
        if |ps| != 1 then ContinuingOf(claims, n - 1)
        else ContinuingOf(claims, n - 1) + [ContinuingEntry(EntryOf(ById(previous), ps[0]), EntryOf(ById(current), c))]
    }

    /** Several claimants merge into it. */
    ghost function MergesOf(claims: Groups<string, string>, n: nat): seq<Merge>
      requires n <= |claims.keys|
    {
      if n == 0 then []
      else
        var c := claims.keys[n - 1];
        var ps := ListAt(claims, c);
        if |ps| == 1 then MergesOf(claims, n - 1)
        else MergesOf(claims, n - 1) + [MergeEntry(ps, EntryOf(ById(current), c))]
    }

    ghost function SplitsOf(offshoots: Groups<string, string>, n: nat): seq<Split>
      requires n <= |offshoots.keys|
    {
      if n == 0 then []
      else
        var p := offshoots.keys[n - 1];
        SplitsOf(offshoots, n - 1) + [SplitEntry(p, PrimaryOf(p), ListAt(offshoots, p))]
    }

    ghost function SplitEntry(p: string, primary: string, fragments: seq<string>): Split {
      Split(p, primary, Sort(fragments, Less), EntryOf(ById(previous), p).size,
            TotalSize([primary] + fragments, ById(current)))
    }

    /** The fragment a previous campaign itself matched. */
    ghost function PrimaryOf(p: string): string {
      var claim := Claim(EntryOf(ById(previous), p));
      if claim.None? then "" else current[claim.value].id
    }

    function CandidatesOf(i: nat, j: nat): seq<(string, string, real)>
      requires i < |current| && j <= |current|
    {
      if j <= i + 1 then []
      else
        var s := sim(current[i].centroid, current[j - 1].centroid);
        if s < threshold then CandidatesOf(i, j - 1)
        else CandidatesOf(i, j - 1) + [(current[i].id, current[j - 1].id, s)]
    }

    function MergeCandidates(n: nat): seq<(string, string, real)>
      requires n <= |current|
    {
      if n == 0 then [] else MergeCandidates(n - 1) + CandidatesOf(n - 1, |current|)
    }

    ghost function TheReport(): Report {
      Report(NewCampaigns(Unclaimed(|current|)), Dissolved(|previous|),
             ContinuingOf(Claims(), |Claims().keys|), MergesOf(Claims(), |Claims().keys|),
             SplitsOf(Offshoots(), |Offshoots().keys|), MergeCandidates(|current|))
    }
  }

  function ListAt(g: Groups<string, string>, k: string): seq<string> {
    if k in g.lists then g.lists[k] else []
  }

  function EntryOf(m: map<string, Entry>, id: string): Entry {
    if id in m then m[id] else Entry(id, 0, [], [])
  }

  // ---------------------------------------------------------------- every lookup is defined

  lemma {:induction false} MatchMapFinds(c: Comparison, n: nat)
    requires Distinct(Ids(c.previous)) && n <= |c.previous|
    ensures forall x :: x in c.MatchMap(n) ==> exists i :: 0 <= i < n && c.previous[i].id == x
    ensures forall i :: 0 <= i < n ==> MatchRecorded(c, c.MatchMap(n), c.previous[i])
  {
    hide BestMatch;
    if n > 0 {
      MatchMapFinds(c, n - 1);
      var before, last := c.MatchMap(n - 1), c.previous[n - 1];
      assert last.id !in before by {
        OnlyOnce(c.previous, n - 1);
      }
      OnlyOnce(c.previous, n - 1);
      hide Ids, Distinct;
      forall i | 0 <= i < n - 1 ensures MatchRecorded(c, c.MatchMap(n), c.previous[i]) {
        assert MatchRecorded(c, before, c.previous[i]);
      }
      assert MatchRecorded(c, c.MatchMap(n), c.previous[n - 1]);
    }
  }

  lemma OnlyOnce(es: seq<Entry>, n: nat)
    requires Distinct(Ids(es)) && n < |es|
    ensures forall i :: 0 <= i < n ==> es[i].id != es[n].id
  {
    forall i | 0 <= i < n ensures es[i].id != es[n].id {
      assert Ids(es)[i] != Ids(es)[n];
    }
  }

  ghost predicate MatchRecorded(c: Comparison, matches: map<string, (Entry, real)>, p: Entry) {
    match c.Claim(p)
    case None => p.id !in matches
    case Some(m) => p.id in matches && matches[p.id] == (c.current[m], c.sim(p.centroid, c.current[m].centroid))
  }

  lemma {:induction false} ClaimPairsAre(c: Comparison, n: nat)
    requires n <= |c.previous|
    ensures forall k :: 0 <= k < |c.ClaimPairs(n)| ==> IsClaim(c, n, c.ClaimPairs(n)[k])
  {
    if n > 0 {
      ClaimPairsAre(c, n - 1);
      hide BestMatch;
      forall k | 0 <= k < |c.ClaimPairs(n)| ensures IsClaim(c, n, c.ClaimPairs(n)[k]) {
        if k < |c.ClaimPairs(n - 1)| {
          assert IsClaim(c, n - 1, c.ClaimPairs(n - 1)[k]);
        }
      }
    }
  }

  ghost predicate IsClaim(c: Comparison, n: nat, pair: (string, string))
    requires n <= |c.previous|
  {
    exists i :: 0 <= i < n && c.Claim(c.previous[i]).Some? &&
                pair == (c.current[c.Claim(c.previous[i]).value].id, c.previous[i].id)
  }

  /** Every claim refers to known clusters and to the recorded match. */
  lemma ClaimKnown(c: Comparison, k: string, x: string)
    requires c.Sensible() && (k, x) in c.ClaimPairs(|c.previous|)
    ensures k in ById(c.current) && x in ById(c.previous)
    ensures x in c.MatchMap(|c.previous|)
    ensures c.MatchMap(|c.previous|)[x] ==
            (ById(c.current)[k], c.sim(ById(c.previous)[x].centroid, ById(c.current)[k].centroid))
    ensures ById(c.current)[k].id == k && ById(c.previous)[x].id == x
  {
    hide BestMatch, ById;
    var n := |c.previous|;
    ClaimPairsAre(c, n);
    MatchMapFinds(c, n);
    ByIdFinds(c.previous);
    ByIdFinds(c.current);
    var j :| 0 <= j < |c.ClaimPairs(n)| && c.ClaimPairs(n)[j] == (k, x);
    assert IsClaim(c, n, c.ClaimPairs(n)[j]);
    var i :| 0 <= i < n && c.Claim(c.previous[i]).Some? &&
             (k, x) == (c.current[c.Claim(c.previous[i]).value].id, c.previous[i].id);
    assert MatchRecorded(c, c.MatchMap(n), c.previous[i]);
  }

  lemma ClaimsAreKnown(c: Comparison, k: string)
    requires c.Sensible() && k in c.Claims().keys
    ensures k in c.Claims().lists && c.Claims().lists[k] != []
    ensures k in ById(c.current) && ById(c.current)[k].id == k
    ensures forall x <- c.Claims().lists[k] ::
      && x in ById(c.previous) && ById(c.previous)[x].id == x && x in c.MatchMap(|c.previous|)
      && c.MatchMap(|c.previous|)[x] ==
         (ById(c.current)[k], c.sim(ById(c.previous)[x].centroid, ById(c.current)[k].centroid))
  {
    var pairs := c.ClaimPairs(|c.previous|);
    KeyHoldsItsValues(pairs, k);
    hide GroupAll, ById, BestMatch;
    var list := c.Claims().lists[k];
    forall x | x in list
      ensures k in ById(c.current) && ById(c.current)[k].id == k
      ensures x in ById(c.previous) && ById(c.previous)[x].id == x && x in c.MatchMap(|c.previous|)
      ensures c.MatchMap(|c.previous|)[x] ==
              (ById(c.current)[k], c.sim(ById(c.previous)[x].centroid, ById(c.current)[k].centroid))
    {
      ClaimKnown(c, k, x);
    }
    assert list[0] in list;
  }

  /** A previous campaign that is the parent of an unclaimed cluster has a match itself: the
      argument behind the unguarded lookup `prev_matches[prev_id]`. */
  lemma ParentIsMatched(c: Comparison, m: Entry)
    requires IsSimilarity(c.sim) && m in c.current && c.Parent(m).Some?
    ensures c.Claim(c.previous[c.Parent(m).value]).Some?
  {
    var p := c.previous[c.Parent(m).value];
    var j :| 0 <= j < |c.current| && c.current[j] == m;
    assert c.sim(p.centroid, m.centroid) == c.sim(m.centroid, p.centroid) >= c.threshold;
    NoMatchMeansNoneClears(p.centroid, c.current, c.threshold, c.sim, j);
  }

  lemma UnmatchedIsUnrecorded(c: Comparison, i: nat)
    requires c.Sensible() && i < |c.previous|
    ensures c.previous[i].id in c.MatchMap(|c.previous|) <==> c.Claim(c.previous[i]).Some?
  {
    hide BestMatch;
    MatchMapFinds(c, |c.previous|);
    assert MatchRecorded(c, c.MatchMap(|c.previous|), c.previous[i]);
  }

  lemma {:induction false} UnclaimedAre(c: Comparison, n: nat)
    requires n <= |c.current|
    ensures forall m <- c.Unclaimed(n) :: m in c.current && m.id !in c.Claims().lists
  {
    if n > 0 {
      UnclaimedAre(c, n - 1);
    }
  }

  lemma OneMoreUnclaimed(c: Comparison, unclaimed: seq<Entry>, m: Entry)
    ensures c.NewCampaigns(unclaimed + [m]) ==
            if c.Parent(m).Some? then c.NewCampaigns(unclaimed) else c.NewCampaigns(unclaimed) + [m.id]
    ensures c.OffshootPairs(unclaimed + [m]) ==
            if c.Parent(m).None? then c.OffshootPairs(unclaimed)
            else c.OffshootPairs(unclaimed) + [(c.previous[c.Parent(m).value].id, m.id)]
  {
    assert (unclaimed + [m])[..|unclaimed|] == unclaimed;
  }

  lemma {:induction false} OffshootPairsAre(c: Comparison, unclaimed: seq<Entry>, p: string, x: string)
    requires (p, x) in c.OffshootPairs(unclaimed)
    ensures exists m :: m in unclaimed && m.id == x && c.Parent(m).Some? && c.previous[c.Parent(m).value].id == p
  {
    hide BestMatch;
    var rest, last := unclaimed[..|unclaimed| - 1], unclaimed[|unclaimed| - 1];
    if (p, x) in c.OffshootPairs(rest) {
      OffshootPairsAre(c, rest, p, x);
      var m :| m in rest && m.id == x && c.Parent(m).Some? && c.previous[c.Parent(m).value].id == p;
      assert m in unclaimed;
    }
  }

  /** Every dictionary lookup of the split loop is defined. */
  lemma OffshootsAreKnown(c: Comparison, p: string)
    requires c.Sensible() && p in c.Offshoots().keys
    ensures p in c.Offshoots().lists
    ensures p in ById(c.previous) && p in c.MatchMap(|c.previous|)
    ensures c.MatchMap(|c.previous|)[p].0.id == c.PrimaryOf(p) && c.PrimaryOf(p) in ById(c.current)
    ensures forall x <- c.Offshoots().lists[p] :: x in ById(c.current)
  {
    var unclaimed := c.Unclaimed(|c.current|);
    KeyHoldsItsValues(c.OffshootPairs(unclaimed), p);
    hide GroupAll;
    UnclaimedAre(c, |c.current|);
    ByIdFinds(c.current);
    var list := c.Offshoots().lists[p];
    forall x | x in list ensures x in ById(c.current) {
      OffshootPairsAre(c, unclaimed, p, x);
      var m :| m in unclaimed && m.id == x;
      assert m in c.current;
      var j :| 0 <= j < |c.current| && c.current[j] == m;
      assert Ids(c.current)[j] == x;
    }
    assert list[0] in list;
    OffshootPairsAre(c, unclaimed, p, list[0]);
    var m :| m in unclaimed && c.Parent(m).Some? && c.previous[c.Parent(m).value].id == p;
    ParentIsKnown(c, m);
  }

  lemma ParentIsKnown(c: Comparison, m: Entry)
    requires c.Sensible() && m in c.current && c.Parent(m).Some?
    ensures var p := c.previous[c.Parent(m).value].id;
            && p in ById(c.previous) && p in c.MatchMap(|c.previous|)
            && c.MatchMap(|c.previous|)[p].0.id == c.PrimaryOf(p) && c.PrimaryOf(p) in ById(c.current)
  {
    ParentIsMatched(c, m);
    hide BestMatch;
    var i := c.Parent(m).value;
    MatchMapFinds(c, |c.previous|);
    ByIdFinds(c.previous);
    ByIdFinds(c.current);
    assert MatchRecorded(c, c.MatchMap(|c.previous|), c.previous[i]);
  }
}
