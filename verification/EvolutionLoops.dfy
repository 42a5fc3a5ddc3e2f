/** `detect_evolution` as the source runs it, over dictionaries keyed by cluster id
    (ai/campaign_evolution.py:275-388).

    A dictionary remembers where a key was first written and what was written last, so a snapshot
    that repeats an id is compared in a way of its own: `DictionaryReport`.  Without repeated ids
    that is `TheReport`. */
module EvolutionLoops {
  import opened Wrappers
  import opened Collections
  import opened Ordering
  import opened Sorting
  import opened Grouping
  import opened Evolution

  // ---------------------------------------------------------------- what the dictionaries hold

  /** `prev_matches`. */
  function Matches(c: Comparison): map<string, (Entry, real)> {
    c.MatchMap(|c.previous|)
  }

  /** The keys of `prev_matches` after the first `n` previous entries, as first written. */
  function MatchOrder(c: Comparison, n: nat): seq<string>
    requires n <= |c.previous|
  {
    if n == 0 then []
    else
      var p := c.previous[n - 1];
      if c.Claim(p).None? || p.id in c.MatchMap(n - 1) then MatchOrder(c, n - 1) else MatchOrder(c, n - 1) + [p.id]
  }

  ghost predicate AllRecorded(matches: map<string, (Entry, real)>, keys: seq<string>) {
    forall i :: 0 <= i < |keys| ==> keys[i] in matches
  }

  /** (current id, previous id) for every recorded match. */
  ghost function PairsFor(matches: map<string, (Entry, real)>, keys: seq<string>): (pairs: seq<(string, string)>)
    requires AllRecorded(matches, keys)
    ensures |pairs| == |keys| && forall i :: 0 <= i < |keys| ==> pairs[i] == (matches[keys[i]].0.id, keys[i])
  {
    seq(|keys|, i requires 0 <= i < |keys| => (matches[keys[i]].0.id, keys[i]))
  }

  /** `claims`. */
  ghost function ClaimsOf(c: Comparison): Groups<string, string> {
    OrderIsRecorded(c, |c.previous|);
    GroupAll(PairsFor(Matches(c), MatchOrder(c, |c.previous|)))
  }

  /** `continuing`: the similarity is the recorded one. */
  ghost function ContinuingBy(c: Comparison, claims: Groups<string, string>, n: nat): seq<Continuing>
    requires n <= |claims.keys|
  {
    if n == 0 then []
    else
      var k := claims.keys[n - 1];
      var ps := ListAt(claims, k);
      if |ps| != 1 then ContinuingBy(c, claims, n - 1) else ContinuingBy(c, claims, n - 1) + [ContinuedAs(c, ps[0], k)]
  }

  ghost function ContinuedAs(c: Comparison, p: string, k: string): Continuing {
    var entry := c.ContinuingEntry(EntryOf(ById(c.previous), p), EntryOf(ById(c.current), k));
    entry.(similarity := if p in Matches(c) then Matches(c)[p].1 else 0.0)
  }

  function DissolvedBy(c: Comparison, n: nat): seq<string>
    requires n <= |c.previous|
  {
    if n == 0 then []
    else if c.previous[n - 1].id in Matches(c) then DissolvedBy(c, n - 1)
    else DissolvedBy(c, n - 1) + [c.previous[n - 1].id]
  }

  function UnclaimedBy(c: Comparison, claims: Groups<string, string>, n: nat): seq<Entry>
    requires n <= |c.current|
  {
    if n == 0 then []
    else if c.current[n - 1].id in claims.lists then UnclaimedBy(c, claims, n - 1)
    else UnclaimedBy(c, claims, n - 1) + [c.current[n - 1]]
  }

  ghost function OffshootsOf(c: Comparison): Groups<string, string> {
    GroupAll(c.OffshootPairs(UnclaimedBy(c, ClaimsOf(c), |c.current|)))
  }

  ghost function RecordedPrimary(c: Comparison, p: string): string {
    if p in Matches(c) then Matches(c)[p].0.id else ""
  }

  ghost function SplitsBy(c: Comparison, offshoots: Groups<string, string>, n: nat): seq<Split>
    requires n <= |offshoots.keys|
  {
    if n == 0 then []
    else
      var p := offshoots.keys[n - 1];
      SplitsBy(c, offshoots, n - 1) + [c.SplitEntry(p, RecordedPrimary(c, p), ListAt(offshoots, p))]
  }

  ghost function DictionaryReport(c: Comparison): Report {
    var claims, offshoots := ClaimsOf(c), OffshootsOf(c);
    Report(c.NewCampaigns(UnclaimedBy(c, claims, |c.current|)), DissolvedBy(c, |c.previous|),
           ContinuingBy(c, claims, |claims.keys|), c.MergesOf(claims, |claims.keys|),
           SplitsBy(c, offshoots, |offshoots.keys|), c.MergeCandidates(|c.current|))
  }

  // ---------------------------------------------------------------- every lookup is defined

  lemma {:induction false} ByIdHolds(es: seq<Entry>)
    ensures forall x :: x in ById(es) ==> ById(es)[x].id == x && ById(es)[x] in es
    ensures forall e <- es :: e.id in ById(es)
  {
    if es != [] {
      ByIdHolds(es[..|es| - 1]);
    }
  }

  ghost predicate MatchedEntry(c: Comparison, n: nat, x: string)
    requires n <= |c.previous|
  {
    exists i :: 0 <= i < n && c.Claim(c.previous[i]).Some? && c.previous[i].id == x
  }

  lemma {:induction false} RecordedAre(c: Comparison, n: nat)
    requires n <= |c.previous|
    ensures forall x :: x in c.MatchMap(n) <==> MatchedEntry(c, n, x)
    ensures forall x :: x in c.MatchMap(n) ==> c.MatchMap(n)[x].0 in c.current
  {
    hide BestMatch;
    if n > 0 {
      RecordedAre(c, n - 1);
      var p := c.previous[n - 1];
      forall x ensures MatchedEntry(c, n, x) <==> MatchedEntry(c, n - 1, x) || (c.Claim(p).Some? && p.id == x) {
        if MatchedEntry(c, n - 1, x) {
          var i :| 0 <= i < n - 1 && c.Claim(c.previous[i]).Some? && c.previous[i].id == x;
        }
      }
    }
  }

  /** Each key once. */
  lemma {:induction false} OrderIsKeys(c: Comparison, n: nat)
    requires n <= |c.previous|
    ensures Distinct(MatchOrder(c, n))
    ensures forall x :: x in MatchOrder(c, n) <==> x in c.MatchMap(n)
  {
    if n > 0 {
      OrderIsKeys(c, n - 1);
      hide BestMatch;
    }
  }

  lemma OrderIsRecorded(c: Comparison, n: nat)
    requires n <= |c.previous|
    ensures AllRecorded(c.MatchMap(n), MatchOrder(c, n))
  {
    OrderIsKeys(c, n);
    var keys := MatchOrder(c, n);
    hide MatchOrder, Comparison.MatchMap;
    forall i | 0 <= i < |keys| ensures keys[i] in c.MatchMap(n) {
      assert keys[i] in keys;
    }
  }

  lemma RecordedIsKnown(c: Comparison, x: string)
    requires x in Matches(c)
    ensures x in ById(c.previous) && Matches(c)[x].0.id in ById(c.current)
  {
    RecordedAre(c, |c.previous|);
    ByIdHolds(c.previous);
    ByIdHolds(c.current);
    hide ById, BestMatch, Comparison.MatchMap;
    assert MatchedEntry(c, |c.previous|, x);
  }

  lemma ClaimedAreKnown(c: Comparison, k: string)
    requires k in ClaimsOf(c).keys
    ensures k in ClaimsOf(c).lists && ClaimsOf(c).lists[k] != [] && k in ById(c.current)
    ensures forall x <- ClaimsOf(c).lists[k] :: x in Matches(c) && x in ById(c.previous)
  {
    OrderIsRecorded(c, |c.previous|);
    var keys := MatchOrder(c, |c.previous|);
    var pairs := PairsFor(Matches(c), keys);
    KeyHoldsItsValues(pairs, k);
    hide GroupAll, MatchOrder, ById, Comparison.MatchMap;
    var list := ClaimsOf(c).lists[k];
    forall x | x in list ensures x in Matches(c) && x in ById(c.previous) && k in ById(c.current) {
      var i :| 0 <= i < |pairs| && pairs[i] == (k, x);
      assert pairs[i] == (Matches(c)[keys[i]].0.id, keys[i]);
      RecordedIsKnown(c, x);
    }
    assert list[0] in list;
  }

  lemma {:induction false} UnclaimedAreCurrent(c: Comparison, claims: Groups<string, string>, n: nat)
    requires n <= |c.current|
    ensures forall m <- UnclaimedBy(c, claims, n) :: m in c.current
  {
    if n > 0 {
      UnclaimedAreCurrent(c, claims, n - 1);
    }
  }

  lemma OffshootsAreRecorded(c: Comparison, p: string)
    requires IsSimilarity(c.sim) && p in OffshootsOf(c).keys
    ensures p in OffshootsOf(c).lists && p in Matches(c) && p in ById(c.previous)
    ensures Matches(c)[p].0.id in ById(c.current) && forall x <- OffshootsOf(c).lists[p] :: x in ById(c.current)
  {
    var unclaimed := UnclaimedBy(c, ClaimsOf(c), |c.current|);
    KeyHoldsItsValues(c.OffshootPairs(unclaimed), p);
    UnclaimedAreCurrent(c, ClaimsOf(c), |c.current|);
    RecordedAre(c, |c.previous|);
    ByIdHolds(c.previous);
    ByIdHolds(c.current);
    hide GroupAll, ById, Comparison.MatchMap, Comparison.OffshootPairs, UnclaimedBy, BestMatch, IsSimilarity;
    var list := OffshootsOf(c).lists[p];
    forall x | x in list ensures x in ById(c.current) && p in Matches(c) && p in ById(c.previous) {
      OffshootPairsAre(c, unclaimed, p, x);
      var m :| m in unclaimed && m.id == x && c.Parent(m).Some? && c.previous[c.Parent(m).value].id == p;
      ParentIsMatched(c, m);
      assert MatchedEntry(c, |c.previous|, p);
    }
    assert list[0] in list;
  }

  // ---------------------------------------------------------------- the loops

  /** `prev_matches`. */
  method MatchPrevious(c: Comparison) returns (matches: map<string, (Entry, real)>, order: seq<string>)
    requires IsSimilarity(c.sim)
    ensures matches == Matches(c) && order == MatchOrder(c, |c.previous|)
  {
    hide *;
    NoMatchYet(c);
    matches, order := map[], [];
    for i := 0 to |c.previous|
      invariant matches == c.MatchMap(i) && order == MatchOrder(c, i)
    {
      var p := c.previous[i];
      MatchStep(c, i);
      var best := FindBestMatch(p.centroid, c.current, c.threshold, c.sim);
      if best.Some? {
        var m := c.current[best.value];
        if p.id !in matches {
          order := order + [p.id];
        }
        matches := matches[p.id := (m, c.sim(p.centroid, m.centroid))];
      }
    }
  }

  lemma MatchStep(c: Comparison, n: nat)
    requires n < |c.previous|
    ensures var p := c.previous[n];
            match BestMatch(p.centroid, c.current, c.threshold, c.sim)
            case None => c.MatchMap(n + 1) == c.MatchMap(n) && MatchOrder(c, n + 1) == MatchOrder(c, n)
            case Some(j) =>
              && c.MatchMap(n + 1) == c.MatchMap(n)[p.id := (c.current[j], c.sim(p.centroid, c.current[j].centroid))]
              && MatchOrder(c, n + 1) == if p.id in c.MatchMap(n) then MatchOrder(c, n) else MatchOrder(c, n) + [p.id]
  {
    hide BestMatch;
  }

  lemma NoMatchYet(c: Comparison)
    ensures c.MatchMap(0) == map[] && MatchOrder(c, 0) == []
    ensures Matches(c) == c.MatchMap(|c.previous|)
  {}

  /** `claims`. */
  method ClaimCurrent(c: Comparison, matches: map<string, (Entry, real)>, order: seq<string>)
    returns (claims: Groups<string, string>)
    requires matches == Matches(c) && order == MatchOrder(c, |c.previous|)
    ensures claims == ClaimsOf(c)
  {
    OrderIsRecorded(c, |c.previous|);
    hide GroupAll, MatchOrder, Comparison.MatchMap;
    ghost var pairs := PairsFor(matches, order);
    claims := NoGroups();
    assert GroupAll(pairs[..0]) == NoGroups() by { NoPairs(pairs); }
    for i := 0 to |order|
      invariant claims == GroupAll(pairs[..i])
    {
      assert pairs[..i + 1] == pairs[..i] + [pairs[i]];
      GroupAllStep(pairs[..i], pairs[i].0, pairs[i].1);
      claims := claims.Add(matches[order[i]].0.id, order[i]);
    }
    assert pairs[..|order|] == pairs;
  }

  lemma NoPairs(pairs: seq<(string, string)>)
    ensures GroupAll(pairs[..0]) == NoGroups()
  {}

  /** `continuing` and `merges`, by the number of claimants of each current cluster. */
  method ReportClaims(c: Comparison, matches: map<string, (Entry, real)>, claims: Groups<string, string>,
                      previousById: map<string, Entry>, currentById: map<string, Entry>)
    returns (continuing: seq<Continuing>, merges: seq<Merge>)
    requires matches == Matches(c) && claims == ClaimsOf(c)
    requires previousById == ById(c.previous) && currentById == ById(c.current)
    ensures continuing == ContinuingBy(c, claims, |claims.keys|)
    ensures merges == c.MergesOf(claims, |claims.keys|)
  {
    hide GroupAll, ById, Matches, ClaimsOf, ContinuedAs, Comparison.MergeEntry;
    continuing, merges := [], [];
    for i := 0 to |claims.keys|
      invariant continuing == ContinuingBy(c, claims, i)
      invariant merges == c.MergesOf(claims, i)
    {
      var currentId := claims.keys[i];
      ClaimedAreKnown(c, currentId);
      var previousIds := claims.lists[currentId];
      var currentEntry := currentById[currentId];
      if |previousIds| == 1 {
        var p := previousIds[0];
        var entry := BuildContinuing(c, p, currentId, previousById[p], currentEntry, matches[p].1);
        continuing := continuing + [entry];
      } else {
        var entry := BuildMerge(c, previousById, previousIds, currentEntry);
        merges := merges + [entry];
      }
    }
  }

  method BuildContinuing(c: Comparison, previousId: string, currentId: string, p: Entry, m: Entry, similarity: real)
    returns (r: Continuing)
    requires previousId in Matches(c) && similarity == Matches(c)[previousId].1
    requires previousId in ById(c.previous) && p == ById(c.previous)[previousId]
    requires currentId in ById(c.current) && m == ById(c.current)[currentId]
    ensures r == ContinuedAs(c, previousId, currentId)
  {
    ByIdHolds(c.previous);
    ByIdHolds(c.current);
    hide ById, Matches;
    var added := (set d | d in m.topDomains) - (set d | d in p.topDomains);
    assert added == Elements(m.topDomains) - Elements(p.topDomains);
    var newDomains := SortSet(added);
    r := Continuing(previousId, currentId, similarity, p.size, m.size, newDomains,
                    Share(p.size, c.previousPopulation), Share(m.size, c.currentPopulation));
  }

  method BuildMerge(c: Comparison, previousById: map<string, Entry>, previousIds: seq<string>, m: Entry)
    returns (r: Merge)
    requires previousById == ById(c.previous) && forall p <- previousIds :: p in previousById
    ensures r == c.MergeEntry(previousIds, m)
  {
    r := Merge(Sort(previousIds, Less), m.id, TotalSize(previousIds, previousById), m.size);
  }

  /** `unclaimed`, `new_campaigns` and `offshoots`. */
  method SortUnclaimed(c: Comparison, claims: Groups<string, string>)
    returns (newCampaigns: seq<string>, offshoots: Groups<string, string>)
    requires IsSimilarity(c.sim)
    ensures newCampaigns == c.NewCampaigns(UnclaimedBy(c, claims, |c.current|))
    ensures offshoots == GroupAll(c.OffshootPairs(UnclaimedBy(c, claims, |c.current|)))
  {
    hide *;
    NothingUnclaimed(c, claims);
    newCampaigns, offshoots := [], NoGroups();
    for i := 0 to |c.current|
      invariant newCampaigns == c.NewCampaigns(UnclaimedBy(c, claims, i))
      invariant offshoots == GroupAll(c.OffshootPairs(UnclaimedBy(c, claims, i)))
    {
      UnclaimedStep(c, claims, i);
      if c.current[i].id !in claims.lists {
        newCampaigns, offshoots :=
          PlaceUnclaimed(c, newCampaigns, offshoots, UnclaimedBy(c, claims, i), c.current[i]);
      }
    }
  }

  lemma NothingUnclaimed(c: Comparison, claims: Groups<string, string>)
    ensures c.NewCampaigns(UnclaimedBy(c, claims, 0)) == []
    ensures GroupAll(c.OffshootPairs(UnclaimedBy(c, claims, 0))) == NoGroups()
  {
    assert c.OffshootPairs([]) == [];
  }

  lemma UnclaimedStep(c: Comparison, claims: Groups<string, string>, i: nat)
    requires i < |c.current|
    ensures UnclaimedBy(c, claims, i + 1) ==
            if c.current[i].id in claims.lists then UnclaimedBy(c, claims, i)
            else UnclaimedBy(c, claims, i) + [c.current[i]]
  {}

  /** An unclaimed cluster is new, or an offshoot of its closest previous campaign. */
  method PlaceUnclaimed(c: Comparison, news: seq<string>, offs: Groups<string, string>,
                        ghost unclaimed: seq<Entry>, m: Entry)
    returns (newCampaigns: seq<string>, offshoots: Groups<string, string>)
    requires IsSimilarity(c.sim)
    requires news == c.NewCampaigns(unclaimed) && offs == GroupAll(c.OffshootPairs(unclaimed))
    ensures newCampaigns == c.NewCampaigns(unclaimed + [m])
    ensures offshoots == GroupAll(c.OffshootPairs(unclaimed + [m]))
  {
    OneMoreUnclaimed(c, unclaimed, m);
    hide GroupAll, BestMatch, IsSimilarity, Comparison.NewCampaigns, Comparison.OffshootPairs;
    var parent := FindBestMatch(m.centroid, c.previous, c.threshold, c.sim);
    if parent.None? {
      return news + [m.id], offs;
    }
    var p := c.previous[parent.value];
    GroupAllStep(c.OffshootPairs(unclaimed), p.id, m.id);
    return news, offs.Add(p.id, m.id);
  }

  method CollectDissolved(c: Comparison, matches: map<string, (Entry, real)>) returns (dissolved: seq<string>)
    requires matches == Matches(c)
    ensures dissolved == DissolvedBy(c, |c.previous|)
  {
    hide Matches;
    dissolved := [];
    for i := 0 to |c.previous|
      invariant dissolved == DissolvedBy(c, i)
    {
      if c.previous[i].id !in matches {
        dissolved := dissolved + [c.previous[i].id];
      }
    }
  }

  /** `splits`. */
  method ReportSplits(c: Comparison, matches: map<string, (Entry, real)>, offshoots: Groups<string, string>,
                      previousById: map<string, Entry>, currentById: map<string, Entry>) returns (splits: seq<Split>)
    requires IsSimilarity(c.sim) && matches == Matches(c) && offshoots == OffshootsOf(c)
    requires previousById == ById(c.previous) && currentById == ById(c.current)
    ensures splits == SplitsBy(c, offshoots, |offshoots.keys|)
  {
    hide GroupAll, ById, BestMatch, IsSimilarity, Matches, OffshootsOf, Comparison.SplitEntry;
    splits := [];
    for i := 0 to |offshoots.keys|
      invariant splits == SplitsBy(c, offshoots, i)
    {
      var previousId := offshoots.keys[i];
      OffshootsAreRecorded(c, previousId);
      var (primaryEntry, _) := matches[previousId];
      var entry := BuildSplit(c, previousById, currentById, previousId, primaryEntry.id, offshoots.lists[previousId]);
      splits := splits + [entry];
    }
  }

  method BuildSplit(c: Comparison, previousById: map<string, Entry>, currentById: map<string, Entry>,
                    previousId: string, primaryId: string, fragments: seq<string>) returns (r: Split)
    requires previousById == ById(c.previous) && currentById == ById(c.current) && previousId in previousById
    requires primaryId in currentById && forall f <- fragments :: f in currentById
    ensures r == c.SplitEntry(previousId, primaryId, fragments)
  {
    r := Split(previousId, primaryId, Sort(fragments, Less), previousById[previousId].size,
               TotalSize([primaryId] + fragments, currentById));
  }

  /** `_find_merge_candidates`. */
  method FindMergeCandidates(c: Comparison) returns (candidates: seq<(string, string, real)>)
    ensures candidates == c.MergeCandidates(|c.current|)
  {
    candidates := [];
    for i := 0 to |c.current|
      invariant candidates == c.MergeCandidates(i)
    {
      ghost var before := candidates;
      for j := i + 1 to |c.current|
        invariant candidates == before + c.CandidatesOf(i, j)
      {
        var s := c.sim(c.current[i].centroid, c.current[j].centroid);
        if s >= c.threshold {
          candidates := candidates + [(c.current[i].id, c.current[j].id, s)];
        }
      }
    }
  }

  /** `detect_evolution`: every lookup it makes is defined, whatever ids the snapshots repeat. */
  method DetectEvolution(c: Comparison) returns (report: Report)
    requires IsSimilarity(c.sim)
    ensures report == DictionaryReport(c)
    ensures Distinct(Ids(c.previous)) && Distinct(Ids(c.current)) ==> report == c.TheReport()
  {
    hide *;
    var previousById, currentById := ById(c.previous), ById(c.current);
    var matches, order := MatchPrevious(c);
    var claims := ClaimCurrent(c, matches, order);
    var continuing, merges := ReportClaims(c, matches, claims, previousById, currentById);
    var dissolved := CollectDissolved(c, matches);
    var newCampaigns, offshoots := SortUnclaimed(c, claims);
    OffshootsAre(c);
    var splits := ReportSplits(c, matches, offshoots, previousById, currentById);
    var candidates := FindMergeCandidates(c);
    report := Report(newCampaigns, dissolved, continuing, merges, splits, candidates);
    ReportIs(c, report);
    IdsOnce(c);
    if c.Sensible() {
      DistinctIdsAreReported(c);
    }
  }

  lemma IdsOnce(c: Comparison)
    ensures c.Sensible() <==> Distinct(Ids(c.previous)) && Distinct(Ids(c.current)) && IsSimilarity(c.sim)
  {}

  lemma OffshootsAre(c: Comparison)
    ensures OffshootsOf(c) == GroupAll(c.OffshootPairs(UnclaimedBy(c, ClaimsOf(c), |c.current|)))
  {}

  lemma ReportIs(c: Comparison, r: Report)
    requires r.newCampaigns == c.NewCampaigns(UnclaimedBy(c, ClaimsOf(c), |c.current|))
    requires r.dissolved == DissolvedBy(c, |c.previous|)
    requires r.continuing == ContinuingBy(c, ClaimsOf(c), |ClaimsOf(c).keys|)
    requires r.merges == c.MergesOf(ClaimsOf(c), |ClaimsOf(c).keys|)
    requires r.splits == SplitsBy(c, OffshootsOf(c), |OffshootsOf(c).keys|)
    requires r.mergeCandidates == c.MergeCandidates(|c.current|)
    ensures r == DictionaryReport(c)
  {}

  // ---------------------------------------------------------------- without repeated ids

  lemma OneMorePair(matches: map<string, (Entry, real)>, keys: seq<string>, k: string)
    requires AllRecorded(matches, keys) && k in matches
    ensures AllRecorded(matches, keys + [k])
    ensures PairsFor(matches, keys + [k]) == PairsFor(matches, keys) + [(matches[k].0.id, k)]
  {}

  /** Without repeated ids every match is a key of its own, and stays as it was written. */
  lemma OneMoreMatch(c: Comparison, n: nat)
    requires Distinct(Ids(c.previous)) && n < |c.previous|
    ensures var p := c.previous[n];
            if c.Claim(p).None? then
              MatchOrder(c, n + 1) == MatchOrder(c, n) && c.ClaimPairs(n + 1) == c.ClaimPairs(n)
            else
              && MatchOrder(c, n + 1) == MatchOrder(c, n) + [p.id] && p.id in Matches(c)
              && c.ClaimPairs(n + 1) == c.ClaimPairs(n) + [(Matches(c)[p.id].0.id, p.id)]
  {
    MatchMapFinds(c, n);
    OnlyOnce(c.previous, n);
    MatchMapFinds(c, |c.previous|);
    hide BestMatch, Ids, Distinct, Comparison.MatchMap;
    assert c.previous[n].id !in c.MatchMap(n);
    assert MatchRecorded(c, Matches(c), c.previous[n]);
  }

  lemma {:induction false} PairsAreClaims(c: Comparison, n: nat)
    requires Distinct(Ids(c.previous)) && n <= |c.previous|
    ensures AllRecorded(Matches(c), MatchOrder(c, n))
    ensures PairsFor(Matches(c), MatchOrder(c, n)) == c.ClaimPairs(n)
  {
    if n > 0 {
      hide *;
      var last: nat := n - 1;
      PairsAreClaims(c, last);
      OneMoreMatch(c, last);
      if c.Claim(c.previous[last]).Some? {
        OneMorePair(Matches(c), MatchOrder(c, last), c.previous[last].id);
      }
    }
  }

  lemma SameClaims(c: Comparison)
    requires Distinct(Ids(c.previous))
    ensures ClaimsOf(c) == c.Claims()
  {
    OrderIsRecorded(c, |c.previous|);
    PairsAreClaims(c, |c.previous|);
    hide GroupAll;
  }

  lemma {:induction false} SameContinuing(c: Comparison, n: nat)
    requires c.Sensible() && n <= |c.Claims().keys|
    ensures ContinuingBy(c, c.Claims(), n) == c.ContinuingOf(c.Claims(), n)
  {
    hide Comparison.Sensible, Comparison.Claims, Comparison.MatchMap, ById;
    if n > 0 {
      SameContinuing(c, n - 1);
      ClaimsAreKnown(c, c.Claims().keys[n - 1]);
    }
  }

  lemma {:induction false} SameDissolved(c: Comparison, n: nat)
    requires c.Sensible() && n <= |c.previous|
    ensures DissolvedBy(c, n) == c.Dissolved(n)
  {
    hide Comparison.Sensible, Comparison.MatchMap, BestMatch;
    if n > 0 {
      SameDissolved(c, n - 1);
      UnmatchedIsUnrecorded(c, n - 1);
    }
  }

  lemma {:induction false} SameUnclaimed(c: Comparison, n: nat)
    requires n <= |c.current|
    ensures UnclaimedBy(c, c.Claims(), n) == c.Unclaimed(n)
  {
    if n > 0 {
      SameUnclaimed(c, n - 1);
    }
  }

  lemma {:induction false} SameSplits(c: Comparison, n: nat)
    requires c.Sensible() && n <= |c.Offshoots().keys|
    ensures SplitsBy(c, c.Offshoots(), n) == c.SplitsOf(c.Offshoots(), n)
  {
    hide Comparison.Sensible, Comparison.MatchMap, Comparison.PrimaryOf, Comparison.SplitEntry, Comparison.Offshoots,
         ById;
    if n > 0 {
      SameSplits(c, n - 1);
      OffshootsAreKnown(c, c.Offshoots().keys[n - 1]);
    }
  }

  /** Between snapshots that repeat no id, the dictionaries report what the two lists say. */
  lemma DistinctIdsAreReported(c: Comparison)
    requires c.Sensible()
    ensures DictionaryReport(c) == c.TheReport()
  {
    SameClaims(c);
    SameContinuing(c, |c.Claims().keys|);
    SameDissolved(c, |c.previous|);
    SameUnclaimed(c, |c.current|);
    hide *;
    OffshootsAre(c);
    SameOffshoots(c);
    SameSplits(c, |c.Offshoots().keys|);
    ReportsAre(c);
  }

  lemma SameOffshoots(c: Comparison)
    requires UnclaimedBy(c, ClaimsOf(c), |c.current|) == c.Unclaimed(|c.current|)
    ensures OffshootsOf(c) == c.Offshoots()
  {
    hide GroupAll, UnclaimedBy, ClaimsOf, Comparison.Unclaimed;
  }

  lemma ReportsAre(c: Comparison)
    requires ClaimsOf(c) == c.Claims() && OffshootsOf(c) == c.Offshoots()
    requires UnclaimedBy(c, c.Claims(), |c.current|) == c.Unclaimed(|c.current|)
    requires DissolvedBy(c, |c.previous|) == c.Dissolved(|c.previous|)
    requires ContinuingBy(c, c.Claims(), |c.Claims().keys|) == c.ContinuingOf(c.Claims(), |c.Claims().keys|)
    requires SplitsBy(c, c.Offshoots(), |c.Offshoots().keys|) == c.SplitsOf(c.Offshoots(), |c.Offshoots().keys|)
    ensures DictionaryReport(c) == c.TheReport()
  {
    hide ClaimsOf, OffshootsOf, UnclaimedBy, DissolvedBy, ContinuingBy, SplitsBy, GroupAll, BestMatch,
         Comparison.Claims, Comparison.Offshoots, Comparison.Unclaimed, Comparison.Dissolved, Comparison.ContinuingOf,
         Comparison.SplitsOf, Comparison.MergesOf, Comparison.NewCampaigns, Comparison.MergeCandidates;
  }
}
