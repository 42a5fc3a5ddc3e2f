/** What an evolution report accounts for: it partitions both snapshots and conserves sizes
    (ai/campaign_evolution.py:279-357). */
module EvolutionPartition {
  import opened Wrappers
  import opened Collections
  import opened Ordering
  import opened Sorting
  import opened Grouping
  import opened Evolution

  // ---------------------------------------------------------------- ids named by a report

  function PreviousIdsOf(cs: seq<Continuing>): seq<string> {
    if cs == [] then [] else PreviousIdsOf(cs[..|cs| - 1]) + [cs[|cs| - 1].previousId]
  }

  function CurrentIdsOf(cs: seq<Continuing>): seq<string> {
    if cs == [] then [] else CurrentIdsOf(cs[..|cs| - 1]) + [cs[|cs| - 1].currentId]
  }

  function MergedIds(ms: seq<Merge>): seq<string> {
    if ms == [] then [] else MergedIds(ms[..|ms| - 1]) + ms[|ms| - 1].previousIds
  }

  function TargetIds(ms: seq<Merge>): seq<string> {
    if ms == [] then [] else TargetIds(ms[..|ms| - 1]) + [ms[|ms| - 1].currentId]
  }

  function OffshootIds(ss: seq<Split>): seq<string> {
    if ss == [] then [] else OffshootIds(ss[..|ss| - 1]) + ss[|ss| - 1].offshootIds
  }

  function SizesBefore(cs: seq<Continuing>): int {
    if cs == [] then 0 else SizesBefore(cs[..|cs| - 1]) + cs[|cs| - 1].sizeBefore
  }

  function TotalsBefore(ms: seq<Merge>): int {
    if ms == [] then 0 else TotalsBefore(ms[..|ms| - 1]) + ms[|ms| - 1].sizeBeforeTotal
  }

  // ---------------------------------------------------------------- distinct ids stay distinct

  lemma {:induction false} ClaimantsAreDistinct(c: Comparison, n: nat)
    requires Distinct(Ids(c.previous)) && n <= |c.previous|
    ensures Distinct(Seconds(c.ClaimPairs(n)))
    ensures forall x <- Seconds(c.ClaimPairs(n)) :: IdBelow(c.previous, n, x)
  {
    hide *;
    if n == 0 {
      NoClaimants(c);
    } else {
      ClaimantsAreDistinct(c, n - 1);
      ClaimantsStep(c, n - 1);
      IdsBelow(c.previous, n - 1);
      DistinctAppend(Seconds(c.ClaimPairs(n - 1)), c.previous[n - 1].id);
    }
  }

  ghost predicate IdBelow(es: seq<Entry>, n: nat, x: string) {
    exists i :: 0 <= i < n && i < |es| && es[i].id == x
  }

  lemma IdsBelow(es: seq<Entry>, n: nat)
    requires Distinct(Ids(es)) && n < |es|
    ensures !IdBelow(es, n, es[n].id) && IdBelow(es, n + 1, es[n].id)
    ensures forall x :: IdBelow(es, n, x) ==> IdBelow(es, n + 1, x)
  {
    OnlyOnce(es, n);
  }

  lemma NoClaimants(c: Comparison)
    ensures Seconds(c.ClaimPairs(0)) == [] && Distinct(Seconds(c.ClaimPairs(0)))
  {}

  lemma ClaimantsStep(c: Comparison, n: nat)
    requires n < |c.previous|
    ensures var before, after := Seconds(c.ClaimPairs(n)), Seconds(c.ClaimPairs(n + 1));
            after == before || after == before + [c.previous[n].id]
  {
    hide BestMatch;
    var p := c.previous[n];
    if c.Claim(p).Some? {
      SecondsOfAppend(c.ClaimPairs(n), (c.current[c.Claim(p).value].id, p.id));
    }
  }

  lemma SecondsOfAppend<K, V>(pairs: seq<(K, V)>, p: (K, V))
    ensures Seconds(pairs + [p]) == Seconds(pairs) + [p.1]
  {
    assert (pairs + [p])[..|pairs|] == pairs;
  }

  lemma DistinctAppend<T>(s: seq<T>, x: T)
    ensures Distinct(s + [x]) <==> Distinct(s) && x !in s
  {
    var t := s + [x];
    assert forall i :: 0 <= i < |s| ==> t[i] == s[i];
    assert t[|s|] == x;
    if Distinct(t) {
      forall i, j | 0 <= i < j < |s| ensures s[i] != s[j] {
        assert t[i] != t[j];
      }
      forall i | 0 <= i < |s| ensures s[i] != x {
        assert t[i] != t[|s|];
      }
    }
  }

  lemma IdsOfAppend(es: seq<Entry>, e: Entry)
    ensures Ids(es + [e]) == Ids(es) + [e.id]
  {}

  // ---------------------------------------------------------------- previous snapshot

  lemma IdsStep(es: seq<Entry>, n: nat, w: string -> int)
    requires n < |es|
    ensures Weight(Ids(es[..n + 1]), w) == Weight(Ids(es[..n]), w) + w(es[n].id)
  {
    hide Ids, Weight;
    assert es[..n + 1] == es[..n] + [es[n]];
    IdsOfAppend(es[..n], es[n]);
    WeightOfAppend(Ids(es[..n]), es[n].id, w);
  }

  lemma MatchedStep(c: Comparison, n: nat, w: string -> int)
    requires n < |c.previous|
    ensures Weight(Seconds(c.ClaimPairs(n + 1)), w) + Weight(c.Dissolved(n + 1), w)
         == Weight(Seconds(c.ClaimPairs(n)), w) + Weight(c.Dissolved(n), w) + w(c.previous[n].id)
  {
    hide BestMatch, Weight, Seconds;
    var p := c.previous[n];
    if c.Claim(p).Some? {
      SecondsOfAppend(c.ClaimPairs(n), (c.current[c.Claim(p).value].id, p.id));
      WeightOfAppend(Seconds(c.ClaimPairs(n)), p.id, w);
    } else {
      WeightOfAppend(c.Dissolved(n), p.id, w);
    }
  }

  lemma NoneMatchedYet(c: Comparison, w: string -> int)
    ensures Weight(Ids(c.previous[..0]), w) == 0
    ensures Weight(Seconds(c.ClaimPairs(0)), w) == Weight(c.Dissolved(0), w) == 0
  {}

  lemma {:induction false} MatchedOrDissolved(c: Comparison, n: nat, w: string -> int)
    requires n <= |c.previous|
    ensures Weight(Ids(c.previous[..n]), w) == Weight(Seconds(c.ClaimPairs(n)), w) + Weight(c.Dissolved(n), w)
  {
    hide *;
    if n == 0 {
      NoneMatchedYet(c, w);
    } else {
      MatchedOrDissolved(c, n - 1, w);
      MatchedStep(c, n - 1, w);
      IdsStep(c.previous, n - 1, w);
    }
  }

  lemma NoWeight(w: string -> int)
    ensures Weight([], w) == 0
  {}

  /** What one key of `claims` contributes. */
  lemma ClaimListFacts(c: Comparison, i: nat)
    requires c.Sensible() && i < |c.Claims().keys|
    ensures ListAt(c.Claims(), c.Claims().keys[i]) != [] && Distinct(ListAt(c.Claims(), c.Claims().keys[i]))
    ensures EntryOf(ById(c.current), c.Claims().keys[i]).id == c.Claims().keys[i]
    ensures EntryOf(ById(c.previous), ListAt(c.Claims(), c.Claims().keys[i])[0]).id ==
            ListAt(c.Claims(), c.Claims().keys[i])[0]
  {
    var k := c.Claims().keys[i];
    ClaimsAreKnown(c, k);
    ClaimantsAreDistinct(c, |c.previous|);
    var pairs := c.ClaimPairs(|c.previous|);
    GroupAllIsByKey(pairs);
    ValuesDistinct(pairs, k);
    hide GroupAll, ById;
    assert ListAt(c.Claims(), k)[0] in c.Claims().lists[k];
  }

  lemma FlattenStep(g: Groups<string, string>, n: nat, w: string -> int)
    requires n < |g.keys|
    ensures Weight(Flatten(g.keys[..n + 1], g.lists), w) ==
            Weight(Flatten(g.keys[..n], g.lists), w) + Weight(ListAt(g, g.keys[n]), w)
  {
    assert g.keys[..n + 1][..n] == g.keys[..n];
    WeightOfConcat(Flatten(g.keys[..n], g.lists), ListAt(g, g.keys[n]), w);
  }

  lemma FlattenNothing(g: Groups<string, string>, w: string -> int)
    ensures Weight(Flatten(g.keys[..0], g.lists), w) == 0
  {}

  lemma AddContinuing(cs: seq<Continuing>, e: Continuing)
    ensures PreviousIdsOf(cs + [e]) == PreviousIdsOf(cs) + [e.previousId]
    ensures CurrentIdsOf(cs + [e]) == CurrentIdsOf(cs) + [e.currentId]
    ensures SizesBefore(cs + [e]) == SizesBefore(cs) + e.sizeBefore
  {
    assert (cs + [e])[..|cs|] == cs;
  }

  lemma AddMerge(ms: seq<Merge>, e: Merge)
    ensures MergedIds(ms + [e]) == MergedIds(ms) + e.previousIds
    ensures TargetIds(ms + [e]) == TargetIds(ms) + [e.currentId]
    ensures TotalsBefore(ms + [e]) == TotalsBefore(ms) + e.sizeBeforeTotal
  {
    assert (ms + [e])[..|ms|] == ms;
  }

  lemma AddSplit(ss: seq<Split>, e: Split)
    ensures OffshootIds(ss + [e]) == OffshootIds(ss) + e.offshootIds
  {
    assert (ss + [e])[..|ss|] == ss;
  }

  ghost function ContinuingAt(c: Comparison, claims: Groups<string, string>, n: nat): Continuing
    requires n < |claims.keys|
  {
    var list := ListAt(claims, claims.keys[n]);
    c.ContinuingEntry(EntryOf(ById(c.previous), if list == [] then "" else list[0]),
                      EntryOf(ById(c.current), claims.keys[n]))
  }

  ghost function MergeAt(c: Comparison, claims: Groups<string, string>, n: nat): Merge
    requires n < |claims.keys|
  {
    c.MergeEntry(ListAt(claims, claims.keys[n]), EntryOf(ById(c.current), claims.keys[n]))
  }

  /** One more key of `claims` adds one continuing entry or one merge. */
  lemma ClaimStep(c: Comparison, claims: Groups<string, string>, n: nat)
    requires n < |claims.keys|
    ensures |ListAt(claims, claims.keys[n])| == 1 ==>
      && c.ContinuingOf(claims, n + 1) == c.ContinuingOf(claims, n) + [ContinuingAt(c, claims, n)]
      && c.MergesOf(claims, n + 1) == c.MergesOf(claims, n)
    ensures |ListAt(claims, claims.keys[n])| != 1 ==>
      && c.ContinuingOf(claims, n + 1) == c.ContinuingOf(claims, n)
      && c.MergesOf(claims, n + 1) == c.MergesOf(claims, n) + [MergeAt(c, claims, n)]
  {
    hide ById, Sort;
  }

  /** The two reports of the first `n` keys, as lists. */
  ghost function ContinuingUpTo(c: Comparison, n: nat): seq<Continuing>
    requires n <= |c.Claims().keys|
  {
    c.ContinuingOf(c.Claims(), n)
  }

  ghost function MergesUpTo(c: Comparison, n: nat): seq<Merge>
    requires n <= |c.Claims().keys|
  {
    c.MergesOf(c.Claims(), n)
  }

  /** What the n-th key adds to the report: its claimants, its id, its claimants' sizes. */
  lemma ClaimStepWeights(c: Comparison, n: nat, w: string -> int)
    requires c.Sensible() && n < |c.Claims().keys|
    ensures Weight(PreviousIdsOf(ContinuingUpTo(c, n + 1)), w) + Weight(MergedIds(MergesUpTo(c, n + 1)), w)
         == Weight(PreviousIdsOf(ContinuingUpTo(c, n)), w) + Weight(MergedIds(MergesUpTo(c, n)), w)
          + Weight(ListAt(c.Claims(), c.Claims().keys[n]), w)
    ensures Weight(CurrentIdsOf(ContinuingUpTo(c, n + 1)), w) + Weight(TargetIds(MergesUpTo(c, n + 1)), w)
         == Weight(CurrentIdsOf(ContinuingUpTo(c, n)), w) + Weight(TargetIds(MergesUpTo(c, n)), w)
          + w(c.Claims().keys[n])
    ensures SizesBefore(ContinuingUpTo(c, n + 1)) + TotalsBefore(MergesUpTo(c, n + 1))
         == SizesBefore(ContinuingUpTo(c, n)) + TotalsBefore(MergesUpTo(c, n))
          + TotalSize(ListAt(c.Claims(), c.Claims().keys[n]), ById(c.previous))
  {
    var claims := c.Claims();
    var list := ListAt(claims, claims.keys[n]);
    ClaimListFacts(c, n);
    ClaimStep(c, claims, n);
    var cs, ms := ContinuingUpTo(c, n), MergesUpTo(c, n);
    if |list| == 1 {
      ContinuingWeights(c, claims, n, cs, w);
    } else {
      MergeWeights(c, claims, n, ms, w);
    }
    hide *;
  }

  lemma ContinuingWeights(c: Comparison, claims: Groups<string, string>, n: nat, cs: seq<Continuing>, w: string -> int)
    requires n < |claims.keys| && |ListAt(claims, claims.keys[n])| == 1
    requires EntryOf(ById(c.current), claims.keys[n]).id == claims.keys[n]
    requires EntryOf(ById(c.previous), ListAt(claims, claims.keys[n])[0]).id == ListAt(claims, claims.keys[n])[0]
    ensures var longer := cs + [ContinuingAt(c, claims, n)];
            && Weight(PreviousIdsOf(longer), w) ==
               Weight(PreviousIdsOf(cs), w) + Weight(ListAt(claims, claims.keys[n]), w)
            && Weight(CurrentIdsOf(longer), w) == Weight(CurrentIdsOf(cs), w) + w(claims.keys[n])
            && SizesBefore(longer) == SizesBefore(cs) + TotalSize(ListAt(claims, claims.keys[n]), ById(c.previous))
  {
    hide ById, Sorted, PreviousIdsOf, CurrentIdsOf, SizesBefore, Weight, TotalSize;
    var k, list, e := claims.keys[n], ListAt(claims, claims.keys[n]), ContinuingAt(c, claims, n);
    AddContinuing(cs, e);
    WeightOfAppend(PreviousIdsOf(cs), list[0], w);
    WeightOfAppend(CurrentIdsOf(cs), k, w);
    WeightOfOne(list, w);
    TotalSizeOfOne(list, ById(c.previous));
  }

  lemma WeightOfOne(list: seq<string>, w: string -> int)
    requires |list| == 1
    ensures Weight(list, w) == w(list[0])
  {}

  lemma TotalSizeOfOne(list: seq<string>, m: map<string, Entry>)
    requires |list| == 1
    ensures TotalSize(list, m) == EntryOf(m, list[0]).size
  {}

  lemma MergeWeights(c: Comparison, claims: Groups<string, string>, n: nat, ms: seq<Merge>, w: string -> int)
    requires n < |claims.keys| && EntryOf(ById(c.current), claims.keys[n]).id == claims.keys[n]
    ensures var longer := ms + [MergeAt(c, claims, n)];
            && Weight(MergedIds(longer), w) == Weight(MergedIds(ms), w) + Weight(ListAt(claims, claims.keys[n]), w)
            && Weight(TargetIds(longer), w) == Weight(TargetIds(ms), w) + w(claims.keys[n])
            && TotalsBefore(longer) == TotalsBefore(ms) + TotalSize(ListAt(claims, claims.keys[n]), ById(c.previous))
  {
    hide ById, Sorted, MergedIds, TargetIds, TotalsBefore, Weight, TotalSize, Distinct;
    var k, list, e := claims.keys[n], ListAt(claims, claims.keys[n]), MergeAt(c, claims, n);
    AddMerge(ms, e);
    SortKeepsWeight(list, Less, w);
    WeightOfConcat(MergedIds(ms), e.previousIds, w);
    WeightOfAppend(TargetIds(ms), k, w);
  }

  lemma NothingReportedYet(c: Comparison, w: string -> int)
    ensures Weight(PreviousIdsOf(ContinuingUpTo(c, 0)), w) == Weight(MergedIds(MergesUpTo(c, 0)), w) == 0
    ensures Weight(CurrentIdsOf(ContinuingUpTo(c, 0)), w) == Weight(TargetIds(MergesUpTo(c, 0)), w) == 0
    ensures SizesBefore(ContinuingUpTo(c, 0)) == TotalsBefore(MergesUpTo(c, 0)) == 0
  {
    hide Comparison.Claims;
  }

  /** Claimed ids are split between continuing entries and merges. */
  lemma {:induction false} ClaimantsReported(c: Comparison, n: nat, w: string -> int)
    requires c.Sensible() && n <= |c.Claims().keys|
    ensures Weight(Flatten(c.Claims().keys[..n], c.Claims().lists), w)
         == Weight(PreviousIdsOf(ContinuingUpTo(c, n)), w) + Weight(MergedIds(MergesUpTo(c, n)), w)
  {
    hide *;
    if n == 0 {
      NothingReportedYet(c, w);
      FlattenNothing(c.Claims(), w);
    } else {
      ClaimantsReported(c, n - 1, w);
      ClaimStepWeights(c, n - 1, w);
      FlattenStep(c.Claims(), n - 1, w);
    }
  }

  /** Every previous campaign is, exactly once, continuing, part of one merge, or dissolved:
      however ids are weighed, the report weighs what the snapshot weighs. */
  lemma PreviousIsPartitioned(c: Comparison, w: string -> int)
    requires c.Sensible()
    ensures Weight(Ids(c.previous), w)
         == Weight(PreviousIdsOf(c.TheReport().continuing), w) + Weight(MergedIds(c.TheReport().merges), w)
          + Weight(c.TheReport().dissolved, w)
  {
    var n := |c.previous|;
    MatchedOrDissolved(c, n, w);
    assert c.previous[..n] == c.previous;
    GroupingKeepsWeight(c.ClaimPairs(n), w);
    ClaimantsReported(c, |c.Claims().keys|, w);
    assert c.Claims().keys[..|c.Claims().keys|] == c.Claims().keys;
  }

  /** The same with a count: each previous id appears in exactly one place of the report. */
  lemma PreviousExactlyOnce(c: Comparison, i: nat)
    requires c.Sensible() && i < |c.previous|
    ensures var x := c.previous[i].id;
            Count(PreviousIdsOf(c.TheReport().continuing), x) + Count(MergedIds(c.TheReport().merges), x)
            + Count(c.TheReport().dissolved, x) == 1
  {
    var x := c.previous[i].id;
    PreviousIsPartitioned(c, IndicatorOf(x));
    CountInDistinct(Ids(c.previous), x);
    assert Ids(c.previous)[i] == x;
    hide Weight, Comparison.TheReport;
  }

  // ---------------------------------------------------------------- current snapshot

  ghost function ClaimedIds(c: Comparison, n: nat): seq<string>
    requires n <= |c.current|
  {
    if n == 0 then []
    else if c.current[n - 1].id in c.Claims().lists then ClaimedIds(c, n - 1) + [c.current[n - 1].id]
    else ClaimedIds(c, n - 1)
  }

  lemma {:induction false} ClaimedOrUnclaimed(c: Comparison, n: nat, w: string -> int)
    requires n <= |c.current|
    ensures Weight(Ids(c.current[..n]), w) == Weight(ClaimedIds(c, n), w) + Weight(Ids(c.Unclaimed(n)), w)
  {
    hide Comparison.Claims, Weight;
    if n == 0 {
      assert Ids(c.current[..0]) == [] && Ids([]) == [];
      NoWeight(w);
    } else {
      ClaimedOrUnclaimed(c, n - 1, w);
      var m := c.current[n - 1];
      assert c.current[..n] == c.current[..n - 1] + [m];
      IdsOfAppend(c.current[..n - 1], m);
      WeightOfAppend(Ids(c.current[..n - 1]), m.id, w);
      if m.id in c.Claims().lists {
        WeightOfAppend(ClaimedIds(c, n - 1), m.id, w);
      } else {
        IdsOfAppend(c.Unclaimed(n - 1), m);
        WeightOfAppend(Ids(c.Unclaimed(n - 1)), m.id, w);
      }
    }
  }

  ghost predicate HasId(c: Comparison, n: nat, x: string)
    requires n <= |c.current|
  {
    exists i :: 0 <= i < n && c.current[i].id == x
  }

  lemma NextId(c: Comparison, n: nat)
    requires Distinct(Ids(c.current)) && n < |c.current|
    ensures !HasId(c, n, c.current[n].id)
    ensures forall x :: HasId(c, n + 1, x) <==> HasId(c, n, x) || x == c.current[n].id
  {
    OnlyOnce(c.current, n);
    hide Ids;
    forall x | HasId(c, n, x) ensures HasId(c, n + 1, x) {
      var i :| 0 <= i < n && c.current[i].id == x;
    }
  }

  lemma {:induction false} ClaimedIdsAre(c: Comparison, n: nat)
    requires Distinct(Ids(c.current)) && n <= |c.current|
    ensures Distinct(ClaimedIds(c, n))
    ensures forall x :: x in ClaimedIds(c, n) <==> x in c.Claims().lists && HasId(c, n, x)
  {
    if n > 0 {
      var m: nat := n - 1;
      ClaimedIdsAre(c, m);
      NextId(c, m);
      DistinctAppend(ClaimedIds(c, m), c.current[m].id);
      hide HasId, Ids, Distinct, Comparison.Claims;
    }
  }

  /** The keys of `claims` are exactly the claimed current ids. */
  lemma KeysAreClaimed(c: Comparison, w: string -> int)
    requires c.Sensible()
    ensures Weight(c.Claims().keys, w) == Weight(ClaimedIds(c, |c.current|), w)
  {
    var n := |c.current|;
    ClaimedIdsAre(c, n);
    GroupAllIsByKey(c.ClaimPairs(|c.previous|));
    hide GroupAll, ClaimedIds, Weight;
    var keys := c.Claims().keys;
    forall x | x in keys ensures x in ClaimedIds(c, n) {
      ClaimsAreKnown(c, x);
      KnownCurrent(c, x);
    }
    assert Elements(keys) == Elements(ClaimedIds(c, n));
    SameElementsSameWeight(keys, ClaimedIds(c, n), w);
  }

  lemma KnownCurrent(c: Comparison, x: string)
    requires c.Sensible() && x in ById(c.current)
    ensures HasId(c, |c.current|, x)
  {
    ByIdFinds(c.current);
    var i :| 0 <= i < |c.current| && Ids(c.current)[i] == x;
    assert c.current[i].id == x;
  }

  lemma {:induction false} TargetsReported(c: Comparison, n: nat, w: string -> int)
    requires c.Sensible() && n <= |c.Claims().keys|
    ensures Weight(c.Claims().keys[..n], w)
         == Weight(CurrentIdsOf(ContinuingUpTo(c, n)), w) + Weight(TargetIds(MergesUpTo(c, n)), w)
  {
    hide *;
    var keys := c.Claims().keys;
    if n == 0 {
      NothingReportedYet(c, w);
      assert keys[..0] == [];
      NoWeight(w);
    } else {
      TargetsReported(c, n - 1, w);
      ClaimStepWeights(c, n - 1, w);
      assert keys[..n] == keys[..n - 1] + [keys[n - 1]];
      WeightOfAppend(keys[..n - 1], keys[n - 1], w);
    }
  }

  lemma {:induction false} NewOrOffshoot(c: Comparison, unclaimed: seq<Entry>, w: string -> int)
    ensures Weight(Ids(unclaimed), w) ==
            Weight(c.NewCampaigns(unclaimed), w) + Weight(Seconds(c.OffshootPairs(unclaimed)), w)
  {
    hide BestMatch, Weight;
    if unclaimed == [] {
      assert Ids(unclaimed) == [];
      NoWeight(w);
    } else {
      var rest, last := unclaimed[..|unclaimed| - 1], unclaimed[|unclaimed| - 1];
      NewOrOffshoot(c, rest, w);
      assert unclaimed == rest + [last];
      IdsOfAppend(rest, last);
      WeightOfAppend(Ids(rest), last.id, w);
      if c.Parent(last).None? {
        WeightOfAppend(c.NewCampaigns(rest), last.id, w);
      } else {
        SecondsOfAppend(c.OffshootPairs(rest), (c.previous[c.Parent(last).value].id, last.id));
        WeightOfAppend(Seconds(c.OffshootPairs(rest)), last.id, w);
      }
    }
  }

  ghost function SplitsUpTo(c: Comparison, n: nat): seq<Split>
    requires n <= |c.Offshoots().keys|
  {
    c.SplitsOf(c.Offshoots(), n)
  }

  lemma SplitStepWeight(c: Comparison, n: nat, w: string -> int)
    requires c.Sensible() && n < |c.Offshoots().keys|
    ensures Weight(OffshootIds(SplitsUpTo(c, n + 1)), w)
         == Weight(OffshootIds(SplitsUpTo(c, n)), w) + Weight(ListAt(c.Offshoots(), c.Offshoots().keys[n]), w)
  {
    var p := c.Offshoots().keys[n];
    hide Comparison.Offshoots, Comparison.Sensible, Comparison.PrimaryOf, ById, Sorted, Distinct, Weight, OffshootIds,
         TotalSize;
    var list := ListAt(c.Offshoots(), p);
    var e := c.SplitEntry(p, c.PrimaryOf(p), list);
    AddSplit(SplitsUpTo(c, n), e);
    SortKeepsWeight(list, Less, w);
    WeightOfConcat(OffshootIds(SplitsUpTo(c, n)), e.offshootIds, w);
  }

  lemma NoSplitYet(c: Comparison, w: string -> int)
    ensures Weight(OffshootIds(SplitsUpTo(c, 0)), w) == 0
  {
    hide Comparison.Offshoots;
  }

  lemma {:induction false} OffshootsReported(c: Comparison, n: nat, w: string -> int)
    requires c.Sensible() && n <= |c.Offshoots().keys|
    ensures Weight(Flatten(c.Offshoots().keys[..n], c.Offshoots().lists), w) == Weight(OffshootIds(SplitsUpTo(c, n)), w)
  {
    hide *;
    if n == 0 {
      NoSplitYet(c, w);
      FlattenNothing(c.Offshoots(), w);
    } else {
      OffshootsReported(c, n - 1, w);
      SplitStepWeight(c, n - 1, w);
      FlattenStep(c.Offshoots(), n - 1, w);
    }
  }

  /** Every current campaign is, exactly once, continuing, a merge target, new, or one
      split's offshoot. */
  lemma CurrentIsPartitioned(c: Comparison, w: string -> int)
    requires c.Sensible()
    ensures Weight(Ids(c.current), w)
         == Weight(CurrentIdsOf(c.TheReport().continuing), w) + Weight(TargetIds(c.TheReport().merges), w)
          + Weight(c.TheReport().newCampaigns, w) + Weight(OffshootIds(c.TheReport().splits), w)
  {
    hide Weight;
    var n := |c.current|;
    ClaimedOrUnclaimed(c, n, w);
    assert c.current[..n] == c.current;
    KeysAreClaimed(c, w);
    TargetsReported(c, |c.Claims().keys|, w);
    assert c.Claims().keys[..|c.Claims().keys|] == c.Claims().keys;
    UnclaimedAccounted(c, w);
    hide Comparison.Claims, Comparison.Sensible, Comparison.Offshoots, Comparison.ContinuingOf, Comparison.MergesOf,
         Comparison.SplitsOf, Comparison.NewCampaigns, Ids;
  }

  lemma UnclaimedAccounted(c: Comparison, w: string -> int)
    requires c.Sensible()
    ensures Weight(Ids(c.Unclaimed(|c.current|)), w)
         == Weight(c.TheReport().newCampaigns, w) + Weight(OffshootIds(c.TheReport().splits), w)
  {
    hide Weight;
    NewOrOffshoot(c, c.Unclaimed(|c.current|), w);
    GroupingKeepsWeight(c.OffshootPairs(c.Unclaimed(|c.current|)), w);
    OffshootsReported(c, |c.Offshoots().keys|, w);
    assert c.Offshoots().keys[..|c.Offshoots().keys|] == c.Offshoots().keys;
  }

  lemma CurrentExactlyOnce(c: Comparison, i: nat)
    requires c.Sensible() && i < |c.current|
    ensures var x := c.current[i].id;
            Count(CurrentIdsOf(c.TheReport().continuing), x) + Count(TargetIds(c.TheReport().merges), x)
            + Count(c.TheReport().newCampaigns, x) + Count(OffshootIds(c.TheReport().splits), x) == 1
  {
    var x := c.current[i].id;
    CurrentIsPartitioned(c, IndicatorOf(x));
    CountInDistinct(Ids(c.current), x);
    assert Ids(c.current)[i] == x;
    hide Weight, Comparison.TheReport;
  }

  // ---------------------------------------------------------------- sizes

  ghost function SizeIn(m: map<string, Entry>): string -> int {
    (x: string) => EntryOf(m, x).size
  }

  lemma {:induction false} TotalSizeIsWeight(ids: seq<string>, m: map<string, Entry>)
    ensures TotalSize(ids, m) == Weight(ids, SizeIn(m))
  {
    if ids != [] {
      TotalSizeIsWeight(ids[..|ids| - 1], m);
    }
  }

  lemma {:induction false} SizesReported(c: Comparison, n: nat)
    requires c.Sensible() && n <= |c.Claims().keys|
    ensures Weight(Flatten(c.Claims().keys[..n], c.Claims().lists), SizeIn(ById(c.previous)))
         == SizesBefore(ContinuingUpTo(c, n)) + TotalsBefore(MergesUpTo(c, n))
  {
    hide *;
    var w := SizeIn(ById(c.previous));
    if n == 0 {
      NothingReportedYet(c, w);
      FlattenNothing(c.Claims(), w);
    } else {
      SizesReported(c, n - 1);
      ClaimStepWeights(c, n - 1, w);
      FlattenStep(c.Claims(), n - 1, w);
      TotalSizeIsWeight(ListAt(c.Claims(), c.Claims().keys[n - 1]), ById(c.previous));
    }
  }

  /** No message of the previous snapshot is lost or counted twice: its sizes are the sizes
      before of the continuing campaigns, the merge totals, and the dissolved campaigns. */
  lemma PreviousSizesConserved(c: Comparison)
    requires c.Sensible()
    ensures TotalSize(Ids(c.previous), ById(c.previous))
         == SizesBefore(c.TheReport().continuing) + TotalsBefore(c.TheReport().merges)
          + TotalSize(c.TheReport().dissolved, ById(c.previous))
  {
    var n, m := |c.previous|, ById(c.previous);
    hide ById, Weight;
    MatchedOrDissolved(c, n, SizeIn(m));
    assert c.previous[..n] == c.previous;
    GroupingKeepsWeight(c.ClaimPairs(n), SizeIn(m));
    SizesReported(c, |c.Claims().keys|);
    assert c.Claims().keys[..|c.Claims().keys|] == c.Claims().keys;
    TotalSizeIsWeight(Ids(c.previous), m);
    TotalSizeIsWeight(c.Dissolved(n), m);
  }
}
