/** What a reported split says: its primary fragment, its sizes, and that there is one for each
    previous cluster (ai/campaign_evolution.py:145-166 and :326-357). */
module EvolutionSplits {
  import opened Wrappers
  import opened Collections
  import opened Grouping
  import opened Evolution
  import opened EvolutionPartition
  import opened EvolutionMeaning
  import opened Vectors

  // ---------------------------------------------------------------- one split for each previous cluster

  lemma {:induction false} SplitKeys(c: Comparison, offshoots: Groups<string, string>, n: nat)
    requires n <= |offshoots.keys|
    ensures var splits := c.SplitsOf(offshoots, n);
            |splits| == n && forall a :: 0 <= a < n ==> splits[a].previousId == offshoots.keys[a]
  {
    hide Comparison.SplitEntry, Comparison.PrimaryOf;
    if n > 0 {
      SplitKeys(c, offshoots, n - 1);
      SplitEntryKey(c, offshoots.keys[n - 1], c.PrimaryOf(offshoots.keys[n - 1]),
                    ListAt(offshoots, offshoots.keys[n - 1]));
    }
  }

  lemma SplitEntryKey(c: Comparison, p: string, primary: string, fragments: seq<string>)
    ensures c.SplitEntry(p, primary, fragments).previousId == p
  {
    hide TotalSize, ById;
  }

  /** No previous cluster is split twice. */
  lemma OneSplitEach(c: Comparison, a: nat, b: nat)
    requires a < b < |c.TheReport().splits|
    ensures c.TheReport().splits[a].previousId != c.TheReport().splits[b].previousId
  {
    hide Comparison.SplitsOf, Comparison.ContinuingOf, Comparison.MergesOf, GroupAll, Comparison.Unclaimed,
         Comparison.OffshootPairs;
    GroupAllIsByKey(c.OffshootPairs(c.Unclaimed(|c.current|)));
    SplitKeys(c, c.Offshoots(), |c.Offshoots().keys|);
  }

  // ---------------------------------------------------------------- its fragments

  /** The sizes of the first `n` current clusters that broke off from previous cluster `i`. */
  ghost function OffshootSizes(c: Comparison, i: nat, n: nat): int
    requires n <= |c.current|
  {
    if n == 0 then 0 else OffshootSizes(c, i, n - 1) + if BrokeOff(c, i, n - 1) then c.current[n - 1].size else 0
  }

  lemma TotalSizeOfAppend(ids: seq<string>, x: string, m: map<string, Entry>)
    ensures TotalSize(ids + [x], m) == TotalSize(ids, m) + if x in m then m[x].size else 0
  {
    assert (ids + [x])[..|ids|] == ids;
  }

  lemma ValuesOfAppend(pairs: seq<(string, string)>, pair: (string, string), k: string)
    ensures ValuesOf(pairs + [pair], k) == ValuesOf(pairs, k) + if pair.0 == k then [pair.1] else []
  {
    assert (pairs + [pair])[..|pairs|] == pairs;
  }

  /** What the current cluster after the first `n` adds to the offshoots of previous cluster `i`. */
  lemma OneMoreOffshoot(c: Comparison, i: nat, n: nat)
    requires c.Sensible() && i < |c.previous| && n < |c.current|
    ensures var p := c.previous[i].id;
            ValuesOf(c.OffshootPairs(c.Unclaimed(n + 1)), p) ==
            ValuesOf(c.OffshootPairs(c.Unclaimed(n)), p) + if BrokeOff(c, i, n) then [c.current[n].id] else []
  {
    var m, p := c.current[n], c.previous[i].id;
    UnmatchedHasNoList(c, n);
    hide Unmatched, Ids, BestMatch, Comparison.Claims, Comparison.OffshootPairs, Comparison.NewCampaigns, ValuesOf;
    OneMoreUnclaimed(c, c.Unclaimed(n), m);
    if c.Parent(m).Some? {
      var parent := c.Parent(m).value;
      ValuesOfAppend(c.OffshootPairs(c.Unclaimed(n)), (c.previous[parent].id, m.id), p);
      if c.previous[parent].id == p {
        SameId(c.previous, parent, i);
      }
    }
  }

  lemma {:induction false} OffshootsWeigh(c: Comparison, i: nat, n: nat)
    requires c.Sensible() && i < |c.previous| && n <= |c.current|
    ensures TotalSize(ValuesOf(c.OffshootPairs(c.Unclaimed(n)), c.previous[i].id), ById(c.current)) ==
            OffshootSizes(c, i, n)
  {
    hide *;
    if n == 0 {
      NoOffshootYet(c, i);
    } else {
      var last: nat := n - 1;
      var before := ValuesOf(c.OffshootPairs(c.Unclaimed(last)), c.previous[i].id);
      OffshootsWeigh(c, i, last);
      OneMoreOffshoot(c, i, last);
      SizeOfCurrent(c, last);
      OneMoreSize(c, i, last);
      TotalSizeOfAppend(before, c.current[last].id, ById(c.current));
      assert before + [] == before;
    }
  }

  lemma NoOffshootYet(c: Comparison, i: nat)
    requires i < |c.previous|
    ensures OffshootSizes(c, i, 0) == 0
    ensures TotalSize(ValuesOf(c.OffshootPairs(c.Unclaimed(0)), c.previous[i].id), ById(c.current)) == 0
  {}

  lemma OneMoreSize(c: Comparison, i: nat, n: nat)
    requires n < |c.current|
    ensures OffshootSizes(c, i, n + 1) == OffshootSizes(c, i, n) + if BrokeOff(c, i, n) then c.current[n].size else 0
  {}

  lemma SizeOfCurrent(c: Comparison, j: nat)
    requires c.Sensible() && j < |c.current|
    ensures c.current[j].id in ById(c.current) && ById(c.current)[c.current[j].id].size == c.current[j].size
  {
    ByIdFinds(c.current);
  }

  lemma FragmentsWeigh(primary: string, fragments: seq<string>, m: map<string, Entry>)
    requires primary in m
    ensures TotalSize([primary] + fragments, m) == m[primary].size + TotalSize(fragments, m)
  {
    TotalSizeIsWeight([primary] + fragments, m);
    TotalSizeIsWeight(fragments, m);
    TotalSizeIsWeight([primary], m);
    WeightOfConcat([primary], fragments, SizeIn(m));
    hide Weight;
    assert [primary][..0] == [];
    assert TotalSize([primary], m) == TotalSize([], m) + m[primary].size;
  }

  // ---------------------------------------------------------------- what a split carries

  lemma SplitIs(c: Comparison, s: Split)
    requires s in c.TheReport().splits
    ensures s.previousId in c.Offshoots().keys
    ensures s == c.SplitEntry(s.previousId, c.PrimaryOf(s.previousId), ListAt(c.Offshoots(), s.previousId))
  {
    hide Comparison.ContinuingOf, Comparison.MergesOf, Comparison.SplitsOf, Comparison.PrimaryOf, Comparison.Offshoots;
    SplitAt(c, c.Offshoots(), |c.Offshoots().keys|, s);
  }

  lemma OffshootsListed(c: Comparison, p: string)
    ensures ListAt(c.Offshoots(), p) == ValuesOf(c.OffshootPairs(c.Unclaimed(|c.current|)), p)
  {
    GroupAllIsByKey(c.OffshootPairs(c.Unclaimed(|c.current|)));
    hide GroupAll, ValuesOf, Comparison.OffshootPairs;
  }

  /** A split's primary fragment is the current cluster its previous cluster matched; its sizes are
      that of the previous cluster, and those of the primary and of every cluster that broke off. */
  lemma SplitCarries(c: Comparison, i: nat, s: Split) returns (j: nat)
    requires c.Sensible() && i < |c.previous|
    requires s in c.TheReport().splits && s.previousId == c.previous[i].id
    ensures Matched(c, i, j) && s.primaryId == c.current[j].id && s.sizeBefore == c.previous[i].size
    ensures s.sizeAfterTotal == c.current[j].size + OffshootSizes(c, i, |c.current|)
  {
    hide *;
    var p := s.previousId;
    SplitIs(c, s);
    OffshootsListed(c, p);
    j := PrimaryIs(c, i);
    FragmentsWeigh(c.PrimaryOf(p), ListAt(c.Offshoots(), p), ById(c.current));
    OffshootsWeigh(c, i, |c.current|);
    SplitFigures(c, i, ListAt(c.Offshoots(), p));
  }

  lemma PrimaryIs(c: Comparison, i: nat) returns (j: nat)
    requires c.Sensible() && i < |c.previous| && c.previous[i].id in c.Offshoots().keys
    ensures Matched(c, i, j) && c.PrimaryOf(c.previous[i].id) == c.current[j].id
    ensures c.PrimaryOf(c.previous[i].id) in ById(c.current)
    ensures ById(c.current)[c.PrimaryOf(c.previous[i].id)].size == c.current[j].size
  {
    OffshootsAreKnown(c, c.previous[i].id);
    UnmatchedIsUnrecorded(c, i);
    ByIdFinds(c.previous);
    hide BestMatch, ById, Comparison.MatchMap, Comparison.Offshoots;
    j := c.Claim(c.previous[i]).value;
    SizeOfCurrent(c, j);
  }

  lemma SplitFigures(c: Comparison, i: nat, fragments: seq<string>)
    requires c.Sensible() && i < |c.previous|
    ensures var p := c.previous[i].id;
            var s := c.SplitEntry(p, c.PrimaryOf(p), fragments);
            && s.primaryId == c.PrimaryOf(p) && s.sizeBefore == c.previous[i].size
            && s.sizeAfterTotal == TotalSize([c.PrimaryOf(p)] + fragments, ById(c.current))
  {
    ByIdFinds(c.previous);
    hide ById, TotalSize, Comparison.PrimaryOf;
  }

  /** That fragment is also reported as continuing, and then as the continuation of the split
      cluster, exactly if no other previous cluster matched it; otherwise it is a merge target. */
  lemma PrimaryContinuesIff(c: Comparison, i: nat, s: Split) returns (j: nat)
    requires c.Sensible() && i < |c.previous|
    requires s in c.TheReport().splits && s.previousId == c.previous[i].id
    ensures Matched(c, i, j) && s.primaryId == c.current[j].id
    ensures (exists e :: e in c.TheReport().continuing &&
                         e.previousId == s.previousId && e.currentId == s.primaryId) <==>
            OnlyMatch(c, i, j)
    ensures (exists e :: e in c.TheReport().merges && e.currentId == s.primaryId) <==> !OnlyMatch(c, i, j)
  {
    hide *;
    j := SplitCarries(c, i, s);
    MatchedIsCurrent(c, i, j);
    ContinuingMeans(c, i, j);
    MergeMeans(c, j);
    SeveralOrOne(c, i, j);
  }

  lemma MatchedIsCurrent(c: Comparison, i: nat, j: nat)
    requires Matched(c, i, j)
    ensures i < |c.previous| && j < |c.current|
  {}

  // ---------------------------------------------------------------- a primary fragment that does not continue

  const EARLIER := [Entry("p", 10, [1.0, 0.0], []), Entry("q", 10, [0.6, 0.8], [])]
  const LATER := [Entry("r", 10, [0.96, 0.28], []), Entry("s", 10, [0.8, -0.6], [])]

  /** The dot product of vectors in the plane, kept between -1 and 1: cosine similarity of unit vectors. */
  function PlaneCosine(a: Vec, b: Vec): real {
    if |a| != 2 || |b| != 2 then 0.0
    else
      var d := a[0] * b[0] + a[1] * b[1];
      if d > 1.0 then 1.0 else if d < -1.0 then -1.0 else d
  }

  /** Both earlier clusters match "r", and "s" broke off from "p". */
  const SPLIT_AND_MERGED := Comparison(EARLIER, LATER, 0.75, PlaneCosine, None, None)

  lemma ClosestOfTwo(v: Vec, a: Entry, b: Entry, sim: Similarity)
    ensures Closest(v, [a, b], sim) == Some(if sim(v, b.centroid) > sim(v, a.centroid) then 1 else 0)
  {
    assert [a, b][..1] == [a];
    assert [a][..0] == [];
    assert Closest(v, [], sim) == None;
  }

  lemma BestOfTwo(v: Vec, a: Entry, b: Entry, threshold: real, sim: Similarity)
    ensures BestMatch(v, [a, b], threshold, sim) ==
            (if sim(v, b.centroid) > sim(v, a.centroid) then if sim(v, b.centroid) >= threshold then Some(1) else None
             else if sim(v, a.centroid) >= threshold then Some(0) else None)
  {
    ClosestOfTwo(v, a, b, sim);
    hide Closest;
  }

  lemma FourCosines()
    ensures PlaneCosine([1.0, 0.0], [0.96, 0.28]) == 0.96 && PlaneCosine([1.0, 0.0], [0.8, -0.6]) == 0.8
    ensures PlaneCosine([0.6, 0.8], [0.96, 0.28]) == 0.8 && PlaneCosine([0.6, 0.8], [0.8, -0.6]) == 0.0
    ensures PlaneCosine([0.8, -0.6], [1.0, 0.0]) == 0.8 && PlaneCosine([0.8, -0.6], [0.6, 0.8]) == 0.0
  {}

  lemma WhoMatchesWhom()
    ensures var c := SPLIT_AND_MERGED;
            && c.Claim(c.previous[0]) == Some(0) && c.Claim(c.previous[1]) == Some(0)
            && c.Parent(c.current[1]) == Some(0)
  {
    FourCosines();
    hide Closest, BestMatch, PlaneCosine;
    var c := SPLIT_AND_MERGED;
    BestOfTwo(c.previous[0].centroid, LATER[0], LATER[1], 0.75, PlaneCosine);
    BestOfTwo(c.previous[1].centroid, LATER[0], LATER[1], 0.75, PlaneCosine);
    BestOfTwo(c.current[1].centroid, EARLIER[0], EARLIER[1], 0.75, PlaneCosine);
  }

  lemma ItIsSensible()
    ensures SPLIT_AND_MERGED.Sensible()
    ensures |SPLIT_AND_MERGED.previous| == |SPLIT_AND_MERGED.current| == 2
    ensures SPLIT_AND_MERGED.previous[0].id == "p" && SPLIT_AND_MERGED.current[0].id == "r"
  {}

  /** Here a split's primary fragment is not continuing: another cluster matched it as well. */
  lemma PrimaryMayBeMerged() returns (s: Split)
    ensures var c := SPLIT_AND_MERGED;
            && c.Sensible()
            && s in c.TheReport().splits && s.previousId == "p" && s.primaryId == "r"
            && (forall e :: e in c.TheReport().continuing ==>
                  e.previousId != s.previousId || e.currentId != s.primaryId)
            && (exists e :: e in c.TheReport().merges && e.currentId == s.primaryId)
  {
    var c := SPLIT_AND_MERGED;
    ItIsSensible();
    WhoMatchesWhom();
    hide *;
    MatchesAre(c);
    SplitMeans(c, 0, 1);
    var t :| t in c.TheReport().splits && t.previousId == c.previous[0].id;
    s := t;
    var j := PrimaryContinuesIff(c, 0, s);
  }

  lemma MatchesAre(c: Comparison)
    requires |c.previous| == |c.current| == 2
    requires c.Claim(c.previous[0]) == Some(0) && c.Claim(c.previous[1]) == Some(0) && c.Parent(c.current[1]) == Some(0)
    ensures BrokeOff(c, 0, 1) && !OnlyMatch(c, 0, 0) && forall j: nat :: Matched(c, 0, j) ==> j == 0
  {
    hide BestMatch;
    assert Matched(c, 1, 0);
    forall i: nat ensures !Matched(c, i, 1) {
      if i < 2 {
        assert i == 0 || i == 1;
      }
    }
  }
}
