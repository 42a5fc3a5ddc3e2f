/** What a report says when a snapshot repeats an id (ai/campaign_evolution.py:279-357): the meaning of
    each part in terms of the recorded matches, and how often each id is reported. */
module EvolutionRepeats {
  import opened Wrappers
  import opened Collections
  import opened Ordering
  import opened Sorting
  import opened Grouping
  import opened Evolution
  import opened EvolutionLoops
  import opened EvolutionPartition
  import EvolutionMeaning

  // ---------------------------------------------------------------- recorded matches

  /** Previous id `p` is recorded as matching current id `k`. */
  ghost predicate RecordedAs(c: Comparison, p: string, k: string) {
    p in Matches(c) && Matches(c)[p].0.id == k
  }

  ghost predicate Claimed(c: Comparison, k: string) {
    exists p :: RecordedAs(c, p, k)
  }

  /** Entry `i` is the last of the first `n` with id `p` that matched anything. */
  ghost predicate LastToMatch(c: Comparison, n: nat, i: nat, p: string) {
    && i < n <= |c.previous| && c.previous[i].id == p && c.Claim(c.previous[i]).Some?
    && forall j :: i < j < n && c.previous[j].id == p ==> c.Claim(c.previous[j]).None?
  }

  ghost function MatchOf(c: Comparison, i: nat): (Entry, real)
    requires i < |c.previous| && c.Claim(c.previous[i]).Some?
  {
    var m := c.current[c.Claim(c.previous[i]).value];
    (m, c.sim(c.previous[i].centroid, m.centroid))
  }

  lemma {:induction false} RecordedUpTo(c: Comparison, n: nat, p: string)
    requires n <= |c.previous|
    ensures p in c.MatchMap(n) <==> exists i :: LastToMatch(c, n, i, p)
    ensures p in c.MatchMap(n) ==> exists i :: LastToMatch(c, n, i, p) && c.MatchMap(n)[p] == MatchOf(c, i)
  {
    hide BestMatch;
    if n > 0 {
      var m: nat := n - 1;
      RecordedUpTo(c, m, p);
      var last := c.previous[m];
      if last.id == p && c.Claim(last).Some? {
        assert LastToMatch(c, n, m, p);
      } else {
        SameLast(c, m, p);
        hide LastToMatch, Comparison.MatchMap;
        if p in c.MatchMap(m) {
          var i: nat :| LastToMatch(c, m, i, p) && c.MatchMap(m)[p] == MatchOf(c, i);
          assert LastToMatch(c, n, i, p);
        }
        if i: nat :| LastToMatch(c, n, i, p) {
          assert LastToMatch(c, m, i, p);
        }
      }
    }
  }

  lemma SameLast(c: Comparison, n: nat, p: string)
    requires n < |c.previous| && !(c.previous[n].id == p && c.Claim(c.previous[n]).Some?)
    ensures forall i: nat :: LastToMatch(c, n + 1, i, p) <==> LastToMatch(c, n, i, p)
    ensures p in c.MatchMap(n + 1) <==> p in c.MatchMap(n)
    ensures p in c.MatchMap(n) ==> c.MatchMap(n + 1)[p] == c.MatchMap(n)[p]
  {
    hide BestMatch;
  }

  /** An id's recorded match is that of the last previous cluster of this id that matched anything. */
  lemma RecordedIsLast(c: Comparison, p: string)
    ensures p in Matches(c) <==> exists i :: LastToMatch(c, |c.previous|, i, p)
    ensures p in Matches(c) ==> exists i :: LastToMatch(c, |c.previous|, i, p) && Matches(c)[p] == MatchOf(c, i)
  {
    RecordedUpTo(c, |c.previous|, p);
  }

  // ---------------------------------------------------------------- claimants

  /** The claimants of a current id are the previous ids recorded for it, each once. */
  lemma ClaimantsOf(c: Comparison, k: string)
    ensures Distinct(ListAt(ClaimsOf(c), k))
    ensures forall p :: p in ListAt(ClaimsOf(c), k) <==> RecordedAs(c, p, k)
    ensures k in ClaimsOf(c).keys <==> Claimed(c, k)
    ensures k in ClaimsOf(c).lists <==> Claimed(c, k)
  {
    var keys := MatchOrder(c, |c.previous|);
    OrderIsRecorded(c, |c.previous|);
    OrderIsKeys(c, |c.previous|);
    var pairs := PairsFor(Matches(c), keys);
    GroupAllIsByKey(pairs);
    SecondsArePrevious(c);
    ValuesDistinct(pairs, k);
    KeyHoldsItsValues(pairs, k);
    hide GroupAll, MatchOrder, ValuesOf, Seconds, Matches;
    var list := ListAt(ClaimsOf(c), k);
    forall p ensures p in list <==> RecordedAs(c, p, k) {
      if p in list {
        var i :| 0 <= i < |pairs| && pairs[i] == (k, p);
      }
      if RecordedAs(c, p, k) {
        var i :| 0 <= i < |keys| && keys[i] == p;
        assert pairs[i] == (k, p);
        assert HasKey(pairs, k);
      }
    }
    if list != [] {
      assert RecordedAs(c, list[0], k);
    }
  }

  lemma SecondsArePrevious(c: Comparison)
    ensures AllRecorded(Matches(c), MatchOrder(c, |c.previous|))
    ensures Seconds(PairsFor(Matches(c), MatchOrder(c, |c.previous|))) == MatchOrder(c, |c.previous|)
  {
    OrderIsRecorded(c, |c.previous|);
    hide MatchOrder, Matches;
    SecondsOf(Matches(c), MatchOrder(c, |c.previous|));
  }

  lemma {:induction false} SecondsOf(matches: map<string, (Entry, real)>, keys: seq<string>)
    requires AllRecorded(matches, keys)
    ensures Seconds(PairsFor(matches, keys)) == keys
  {
    if keys != [] {
      var rest := keys[..|keys| - 1];
      SecondsOf(matches, rest);
      assert PairsFor(matches, keys)[..|rest|] == PairsFor(matches, rest);
    }
  }

  ghost predicate OnlyRecorded(c: Comparison, p: string, k: string) {
    RecordedAs(c, p, k) && forall q :: RecordedAs(c, q, k) ==> q == p
  }

  ghost predicate SeveralRecorded(c: Comparison, k: string) {
    exists p, q :: p != q && RecordedAs(c, p, k) && RecordedAs(c, q, k)
  }

  lemma OneClaimant(c: Comparison, k: string)
    requires Claimed(c, k)
    ensures var list := ListAt(ClaimsOf(c), k);
            list != [] && (|list| == 1 <==> OnlyRecorded(c, list[0], k)) && (|list| != 1 <==> SeveralRecorded(c, k))
  {
    ClaimantsOf(c, k);
    hide RecordedAs, ClaimsOf;
    var p :| RecordedAs(c, p, k);
    var list := ListAt(ClaimsOf(c), k);
    assert list[0] in list;
    if |list| > 1 {
      assert list[1] in list;
      assert RecordedAs(c, list[0], k) && RecordedAs(c, list[1], k);
    }
  }

  // ---------------------------------------------------------------- continuing and merged

  lemma {:induction false} ContinuingFrom(c: Comparison, claims: Groups<string, string>, n: nat, e: Continuing)
    requires n <= |claims.keys|
    ensures e in ContinuingBy(c, claims, n) <==>
            exists a :: 0 <= a < n && |ListAt(claims, claims.keys[a])| == 1 &&
                        e == ContinuedAs(c, ListAt(claims, claims.keys[a])[0], claims.keys[a])
  {
    hide ContinuedAs;
    if n > 0 {
      ContinuingFrom(c, claims, n - 1, e);
    }
  }

  lemma ContinuedIds(c: Comparison, p: string, k: string)
    requires RecordedAs(c, p, k)
    ensures var e := ContinuedAs(c, p, k);
            e.previousId == p && e.currentId == k && e.similarity == Matches(c)[p].1
  {
    RecordedIsKnown(c, p);
    ByIdHolds(c.previous);
    ByIdHolds(c.current);
    hide ById, Matches;
  }

  lemma ReportParts(c: Comparison)
    ensures DictionaryReport(c).continuing == ContinuingBy(c, ClaimsOf(c), |ClaimsOf(c).keys|)
    ensures DictionaryReport(c).merges == c.MergesOf(ClaimsOf(c), |ClaimsOf(c).keys|)
    ensures DictionaryReport(c).dissolved == DissolvedBy(c, |c.previous|)
    ensures DictionaryReport(c).newCampaigns == c.NewCampaigns(UnclaimedBy(c, ClaimsOf(c), |c.current|))
    ensures DictionaryReport(c).splits == SplitsBy(c, OffshootsOf(c), |OffshootsOf(c).keys|)
  {}

  /** Previous id `p` continues as current id `k` exactly if `k` is recorded for it and for no other. */
  lemma ContinuingMeans(c: Comparison, p: string, k: string)
    ensures (exists e :: e in DictionaryReport(c).continuing && e.previousId == p && e.currentId == k) <==>
            OnlyRecorded(c, p, k)
  {
    hide *;
    ReportParts(c);
    var claims, n := ClaimsOf(c), |ClaimsOf(c).keys|;
    if OnlyRecorded(c, p, k) {
      OnlyRecordedIs(c, p, k);
      ClaimantsOf(c, k);
      OneClaimant(c, k);
      OnlyRecordedOne(c, p, ListAt(claims, k)[0], k);
      var a :| 0 <= a < n && claims.keys[a] == k;
      ContinuedIds(c, p, k);
      ContinuingFrom(c, claims, n, ContinuedAs(c, p, k));
    }
    forall e | e in DictionaryReport(c).continuing && e.previousId == p && e.currentId == k
      ensures OnlyRecorded(c, p, k)
    {
      ContinuingFrom(c, claims, n, e);
      var a :| 0 <= a < n && |ListAt(claims, claims.keys[a])| == 1 &&
               e == ContinuedAs(c, ListAt(claims, claims.keys[a])[0], claims.keys[a]);
      SoleClaimant(c, claims.keys[a]);
      ContinuedIds(c, ListAt(claims, claims.keys[a])[0], claims.keys[a]);
    }
  }

  lemma OnlyRecordedIs(c: Comparison, p: string, k: string)
    requires OnlyRecorded(c, p, k)
    ensures RecordedAs(c, p, k) && Claimed(c, k)
  {
    hide RecordedAs;
  }

  lemma OnlyRecordedOne(c: Comparison, p: string, q: string, k: string)
    requires OnlyRecorded(c, p, k)
    requires q in ListAt(ClaimsOf(c), k) && forall p :: p in ListAt(ClaimsOf(c), k) <==> RecordedAs(c, p, k)
    ensures p == q && OnlyRecorded(c, q, k)
  {
    hide RecordedAs, ClaimsOf;
  }

  lemma SoleClaimant(c: Comparison, k: string)
    requires k in ClaimsOf(c).keys && |ListAt(ClaimsOf(c), k)| == 1
    ensures var p := ListAt(ClaimsOf(c), k)[0];
            RecordedAs(c, p, k) && OnlyRecorded(c, p, k)
  {
    ClaimantsOf(c, k);
    hide RecordedAs, ClaimsOf, Claimed;
    OneClaimant(c, k);
  }

  lemma MergeIds(c: Comparison, a: nat)
    requires a < |ClaimsOf(c).keys|
    ensures var k, e := ClaimsOf(c).keys[a], MergeAt(c, ClaimsOf(c), a);
            e.currentId == k && forall x :: x in e.previousIds <==> RecordedAs(c, x, k)
  {
    var k := ClaimsOf(c).keys[a];
    ClaimedAreKnown(c, k);
    ClaimantsOf(c, k);
    ByIdHolds(c.current);
    hide ById, ClaimsOf, Sort, RecordedAs, TotalSize;
    var list := ListAt(ClaimsOf(c), k);
    forall x ensures x in Sort(list, Less) <==> x in list {
      SortMembers(list, Less, x);
    }
  }

  /** Current id `k` is the target of a merge exactly if it is recorded for several previous ids. */
  lemma MergeMeans(c: Comparison, k: string)
    ensures (exists e :: e in DictionaryReport(c).merges && e.currentId == k) <==> SeveralRecorded(c, k)
  {
    hide *;
    ReportParts(c);
    ClaimantsOf(c, k);
    var claims, n := ClaimsOf(c), |ClaimsOf(c).keys|;
    if SeveralRecorded(c, k) {
      SeveralIsClaimed(c, k);
      OneClaimant(c, k);
      var a :| 0 <= a < n && claims.keys[a] == k;
      MergeIds(c, a);
      EvolutionMeaning.MergedFrom(c, claims, n, MergeAt(c, claims, a));
    }
    forall e | e in DictionaryReport(c).merges && e.currentId == k ensures SeveralRecorded(c, k) {
      EvolutionMeaning.MergedFrom(c, claims, n, e);
      var a :| 0 <= a < n && |ListAt(claims, claims.keys[a])| != 1 && e == MergeAt(c, claims, a);
      MergeIds(c, a);
      OneClaimant(c, k);
    }
  }

  lemma SeveralIsClaimed(c: Comparison, k: string)
    requires SeveralRecorded(c, k)
    ensures Claimed(c, k)
  {
    hide RecordedAs;
  }

  /** And it names exactly those. */
  lemma MergeNamesItsSources(c: Comparison, x: string, e: Merge)
    requires e in DictionaryReport(c).merges
    ensures x in e.previousIds <==> RecordedAs(c, x, e.currentId)
  {
    hide *;
    ReportParts(c);
    var claims, n := ClaimsOf(c), |ClaimsOf(c).keys|;
    EvolutionMeaning.MergedFrom(c, claims, n, e);
    var a :| 0 <= a < n && |ListAt(claims, claims.keys[a])| != 1 && e == MergeAt(c, claims, a);
    MergeIds(c, a);
  }

  // ---------------------------------------------------------------- dissolved, new, and split

  lemma {:induction false} DissolvedUpTo(c: Comparison, n: nat, x: string)
    requires n <= |c.previous|
    ensures Count(DissolvedBy(c, n), x) == if x in Matches(c) then 0 else Count(Ids(c.previous[..n]), x)
  {
    hide Matches, Weight;
    if n == 0 {
      NoneCounted(c.previous, x);
      NoWeight(IndicatorOf(x));
    } else {
      var last := c.previous[n - 1];
      DissolvedUpTo(c, n - 1, x);
      IdsStep(c.previous, n - 1, IndicatorOf(x));
      WeightOfAppend(DissolvedBy(c, n - 1), last.id, IndicatorOf(x));
    }
  }

  lemma NoneCounted(es: seq<Entry>, x: string)
    ensures Count(Ids(es[..0]), x) == 0
  {}

  lemma {:induction false} NewAmong(c: Comparison, claims: Groups<string, string>, n: nat, x: string)
    requires n <= |c.current|
    ensures x in c.NewCampaigns(UnclaimedBy(c, claims, n)) <==>
            x !in claims.lists && exists j :: 0 <= j < n && c.current[j].id == x && c.Parent(c.current[j]).None?
  {
    hide *;
    if n == 0 {
      NothingUnclaimed(c, claims);
    } else {
      var m: nat := n - 1;
      NewAmong(c, claims, m, x);
      UnclaimedStep(c, claims, m);
      OneMoreUnclaimed(c, UnclaimedBy(c, claims, m), c.current[m]);
    }
  }

  /** An id is new exactly if it is recorded for no previous id and some cluster of this id resembles
      no previous cluster. */
  lemma NewMeans(c: Comparison, x: string)
    ensures x in DictionaryReport(c).newCampaigns <==>
            !Claimed(c, x) && exists j :: 0 <= j < |c.current| && c.current[j].id == x && c.Parent(c.current[j]).None?
  {
    hide *;
    ReportParts(c);
    NewAmong(c, ClaimsOf(c), |c.current|, x);
    ClaimantsOf(c, x);
  }

  /** Some cluster called `x`, an id nothing is recorded for, resembles a cluster called `p` most. */
  ghost predicate BrokeOffFrom(c: Comparison, n: nat, p: string, x: string)
    requires n <= |c.current|
  {
    exists j :: 0 <= j < n && c.current[j].id == x &&
                c.Parent(c.current[j]).Some? && c.previous[c.Parent(c.current[j]).value].id == p
  }

  lemma {:induction false} OffshootAmong(c: Comparison, claims: Groups<string, string>, n: nat, p: string, x: string)
    requires n <= |c.current|
    ensures (p, x) in c.OffshootPairs(UnclaimedBy(c, claims, n)) <==> x !in claims.lists && BrokeOffFrom(c, n, p, x)
  {
    hide *;
    if n == 0 {
      NothingBroken(c, claims, p, x);
    } else {
      var m: nat := n - 1;
      OffshootAmong(c, claims, m, p, x);
      UnclaimedStep(c, claims, m);
      OneMoreUnclaimed(c, UnclaimedBy(c, claims, m), c.current[m]);
      OneMoreBreak(c, m, p, x);
    }
  }

  lemma NothingBroken(c: Comparison, claims: Groups<string, string>, p: string, x: string)
    ensures c.OffshootPairs(UnclaimedBy(c, claims, 0)) == [] && !BrokeOffFrom(c, 0, p, x)
  {}

  lemma OneMoreBreak(c: Comparison, n: nat, p: string, x: string)
    requires n < |c.current|
    ensures BrokeOffFrom(c, n + 1, p, x) <==>
            BrokeOffFrom(c, n, p, x) ||
            (c.current[n].id == x && c.Parent(c.current[n]).Some? && c.previous[c.Parent(c.current[n]).value].id == p)
  {
    hide BestMatch;
  }

  lemma {:induction false} SplitAt(c: Comparison, offshoots: Groups<string, string>, n: nat, s: Split)
    requires n <= |offshoots.keys|
    ensures s in SplitsBy(c, offshoots, n) <==>
            exists a :: 0 <= a < n &&
              var p := offshoots.keys[a];
              s == c.SplitEntry(p, RecordedPrimary(c, p), ListAt(offshoots, p))
  {
    hide Comparison.SplitEntry, RecordedPrimary;
    if n > 0 {
      SplitAt(c, offshoots, n - 1, s);
    }
  }

  /** `x` is an offshoot of `p` exactly if nothing is recorded for `x` and a cluster called `x` is most
      similar to one called `p`, above the threshold. */
  lemma SplitMeans(c: Comparison, p: string, x: string)
    ensures (exists s :: s in DictionaryReport(c).splits && s.previousId == p && x in s.offshootIds) <==>
            !Claimed(c, x) && BrokeOffFrom(c, |c.current|, p, x)
  {
    hide *;
    ReportParts(c);
    OffshootAmong(c, ClaimsOf(c), |c.current|, p, x);
    ClaimantsOf(c, x);
    OffshootList(c, p, x);
    var offshoots := OffshootsOf(c);
    var n := |offshoots.keys|;
    var s := c.SplitEntry(p, RecordedPrimary(c, p), ListAt(offshoots, p));
    FragmentsSorted(c, p, RecordedPrimary(c, p), ListAt(offshoots, p), x);
    if x in ListAt(offshoots, p) {
      var a :| 0 <= a < n && offshoots.keys[a] == p;
      SplitAt(c, offshoots, n, s);
    }
    forall t | t in DictionaryReport(c).splits && t.previousId == p && x in t.offshootIds
      ensures x in ListAt(offshoots, p)
    {
      SplitAt(c, offshoots, n, t);
      var a :| 0 <= a < n && t == c.SplitEntry(offshoots.keys[a], RecordedPrimary(c, offshoots.keys[a]),
                                               ListAt(offshoots, offshoots.keys[a]));
      FragmentsSorted(c, offshoots.keys[a], RecordedPrimary(c, offshoots.keys[a]),
                      ListAt(offshoots, offshoots.keys[a]), x);
    }
  }

  lemma OffshootList(c: Comparison, p: string, x: string)
    ensures x in ListAt(OffshootsOf(c), p) <==>
            (p, x) in c.OffshootPairs(UnclaimedBy(c, ClaimsOf(c), |c.current|))
    ensures x in ListAt(OffshootsOf(c), p) ==> p in OffshootsOf(c).keys
  {
    var pairs := c.OffshootPairs(UnclaimedBy(c, ClaimsOf(c), |c.current|));
    KeyHoldsItsValues(pairs, p);
    hide GroupAll, ClaimsOf, UnclaimedBy, Comparison.OffshootPairs;
    if (p, x) in pairs {
      var i :| 0 <= i < |pairs| && pairs[i] == (p, x);
      assert HasKey(pairs, p);
    }
  }

  lemma FragmentsSorted(c: Comparison, p: string, primary: string, fragments: seq<string>, x: string)
    ensures c.SplitEntry(p, primary, fragments).previousId == p
    ensures c.SplitEntry(p, primary, fragments).offshootIds == Sort(fragments, Less)
    ensures x in c.SplitEntry(p, primary, fragments).offshootIds <==> x in fragments
  {
    SortMembers(fragments, Less, x);
    hide Sort, TotalSize, ById;
  }

  // ---------------------------------------------------------------- how often an id is reported

  ghost function ContinuingUpTo(c: Comparison, n: nat): seq<Continuing>
    requires n <= |ClaimsOf(c).keys|
  {
    ContinuingBy(c, ClaimsOf(c), n)
  }

  ghost function MergesUpTo(c: Comparison, n: nat): seq<Merge>
    requires n <= |ClaimsOf(c).keys|
  {
    c.MergesOf(ClaimsOf(c), n)
  }

  /** One more key of `claims` adds one continuing entry or one merge. */
  lemma OneMoreClaim(c: Comparison, n: nat)
    requires n < |ClaimsOf(c).keys|
    ensures var k := ClaimsOf(c).keys[n];
            var list := ListAt(ClaimsOf(c), k);
            if |list| == 1 then
              && ContinuingUpTo(c, n + 1) == ContinuingUpTo(c, n) + [ContinuedAs(c, list[0], k)]
              && MergesUpTo(c, n + 1) == MergesUpTo(c, n)
            else
              && ContinuingUpTo(c, n + 1) == ContinuingUpTo(c, n)
              && MergesUpTo(c, n + 1) == MergesUpTo(c, n) + [MergeAt(c, ClaimsOf(c), n)]
  {
    hide ContinuedAs, ClaimsOf, ById, Comparison.MergeEntry;
  }

  /** What the n-th key adds to the report: its claimants, and itself. */
  lemma ClaimWeighs(c: Comparison, n: nat, w: string -> int)
    requires n < |ClaimsOf(c).keys|
    ensures Weight(PreviousIdsOf(ContinuingUpTo(c, n + 1)), w) + Weight(MergedIds(MergesUpTo(c, n + 1)), w)
         == Weight(PreviousIdsOf(ContinuingUpTo(c, n)), w) + Weight(MergedIds(MergesUpTo(c, n)), w)
          + Weight(ListAt(ClaimsOf(c), ClaimsOf(c).keys[n]), w)
    ensures Weight(CurrentIdsOf(ContinuingUpTo(c, n + 1)), w) + Weight(TargetIds(MergesUpTo(c, n + 1)), w)
         == Weight(CurrentIdsOf(ContinuingUpTo(c, n)), w) + Weight(TargetIds(MergesUpTo(c, n)), w)
          + w(ClaimsOf(c).keys[n])
  {
    hide *;
    var k := ClaimsOf(c).keys[n];
    var list, cs, ms := ListAt(ClaimsOf(c), k), ContinuingUpTo(c, n), MergesUpTo(c, n);
    OneMoreClaim(c, n);
    if |list| == 1 {
      SoleClaimant(c, k);
      ContinuedIds(c, list[0], k);
      AddContinuing(cs, ContinuedAs(c, list[0], k));
      WeightOfAppend(PreviousIdsOf(cs), list[0], w);
      WeightOfAppend(CurrentIdsOf(cs), k, w);
      WeightOfOne(list, w);
    } else {
      var e := MergeAt(c, ClaimsOf(c), n);
      MergeIds(c, n);
      MergeSources(c, n);
      AddMerge(ms, e);
      WeightOfConcat(MergedIds(ms), e.previousIds, w);
      SortKeepsWeight(list, Less, w);
      WeightOfAppend(TargetIds(ms), k, w);
    }
  }

  lemma MergeSources(c: Comparison, n: nat)
    requires n < |ClaimsOf(c).keys|
    ensures MergeAt(c, ClaimsOf(c), n).previousIds == Sort(ListAt(ClaimsOf(c), ClaimsOf(c).keys[n]), Less)
  {
    hide ClaimsOf, Sort, ById;
  }

  lemma NothingClaimed(c: Comparison, w: string -> int)
    ensures Weight(PreviousIdsOf(ContinuingUpTo(c, 0)), w) == Weight(MergedIds(MergesUpTo(c, 0)), w) == 0
    ensures Weight(CurrentIdsOf(ContinuingUpTo(c, 0)), w) == Weight(TargetIds(MergesUpTo(c, 0)), w) == 0
  {
    hide ClaimsOf;
  }

  lemma {:induction false} ClaimsWeigh(c: Comparison, n: nat, w: string -> int)
    requires n <= |ClaimsOf(c).keys|
    ensures Weight(PreviousIdsOf(ContinuingUpTo(c, n)), w) + Weight(MergedIds(MergesUpTo(c, n)), w)
         == Weight(Flatten(ClaimsOf(c).keys[..n], ClaimsOf(c).lists), w)
    ensures Weight(CurrentIdsOf(ContinuingUpTo(c, n)), w) + Weight(TargetIds(MergesUpTo(c, n)), w)
         == Weight(ClaimsOf(c).keys[..n], w)
  {
    hide *;
    var keys := ClaimsOf(c).keys;
    if n == 0 {
      NothingClaimed(c, w);
      FlattenNothing(ClaimsOf(c), w);
      assert keys[..0] == [];
      NoWeight(w);
    } else {
      var m: nat := n - 1;
      ClaimsWeigh(c, m, w);
      ClaimWeighs(c, m, w);
      FlattenStep(ClaimsOf(c), m, w);
      assert keys[..n] == keys[..m] + [keys[m]];
      WeightOfAppend(keys[..m], keys[m], w);
    }
  }

  /** Each recorded previous id is reported once, as continuing or in a merge; and so is each id that is
      recorded for one. */
  lemma RecordedWeigh(c: Comparison, w: string -> int)
    ensures var r := DictionaryReport(c);
            && Weight(PreviousIdsOf(r.continuing), w) + Weight(MergedIds(r.merges), w)
               == Weight(MatchOrder(c, |c.previous|), w)
            && Weight(CurrentIdsOf(r.continuing), w) + Weight(TargetIds(r.merges), w) == Weight(ClaimsOf(c).keys, w)
  {
    hide *;
    ClaimantsWeigh(c, w);
    var n := |ClaimsOf(c).keys|;
    ClaimsWeigh(c, n, w);
    assert ClaimsOf(c).keys[..n] == ClaimsOf(c).keys;
    ReportUpTo(c);
  }

  lemma ClaimantsWeigh(c: Comparison, w: string -> int)
    ensures Weight(Flatten(ClaimsOf(c).keys, ClaimsOf(c).lists), w) == Weight(MatchOrder(c, |c.previous|), w)
  {
    hide *;
    ClaimsAre(c);
    SecondsArePrevious(c);
    GroupingKeepsWeight(PairsFor(Matches(c), MatchOrder(c, |c.previous|)), w);
  }

  lemma ClaimsAre(c: Comparison)
    ensures AllRecorded(Matches(c), MatchOrder(c, |c.previous|))
    ensures ClaimsOf(c) == GroupAll(PairsFor(Matches(c), MatchOrder(c, |c.previous|)))
  {
    OrderIsRecorded(c, |c.previous|);
  }

  lemma ReportUpTo(c: Comparison)
    ensures ContinuingUpTo(c, |ClaimsOf(c).keys|) == DictionaryReport(c).continuing
    ensures MergesUpTo(c, |ClaimsOf(c).keys|) == DictionaryReport(c).merges
  {
    hide ClaimsOf, OffshootsOf;
  }

  lemma {:induction false} OffshootsWeigh(c: Comparison, n: nat, w: string -> int)
    requires n <= |OffshootsOf(c).keys|
    ensures Weight(OffshootIds(SplitsBy(c, OffshootsOf(c), n)), w)
         == Weight(Flatten(OffshootsOf(c).keys[..n], OffshootsOf(c).lists), w)
  {
    hide *;
    var offshoots := OffshootsOf(c);
    if n == 0 {
      NoSplit(c, offshoots, w);
      FlattenNothing(offshoots, w);
    } else {
      var m: nat := n - 1;
      var p := offshoots.keys[m];
      var before, e := SplitsBy(c, offshoots, m), c.SplitEntry(p, RecordedPrimary(c, p), ListAt(offshoots, p));
      OffshootsWeigh(c, m, w);
      OneMoreSplit(c, offshoots, m);
      AddSplit(before, e);
      FragmentsSorted(c, p, RecordedPrimary(c, p), ListAt(offshoots, p), "");
      WeightOfConcat(OffshootIds(before), e.offshootIds, w);
      SortKeepsWeight(ListAt(offshoots, p), Less, w);
      FlattenStep(offshoots, m, w);
    }
  }

  lemma NoSplit(c: Comparison, offshoots: Groups<string, string>, w: string -> int)
    ensures Weight(OffshootIds(SplitsBy(c, offshoots, 0)), w) == 0
  {}

  lemma OneMoreSplit(c: Comparison, offshoots: Groups<string, string>, n: nat)
    requires n < |offshoots.keys|
    ensures var p := offshoots.keys[n];
            SplitsBy(c, offshoots, n + 1) ==
            SplitsBy(c, offshoots, n) + [c.SplitEntry(p, RecordedPrimary(c, p), ListAt(offshoots, p))]
  {}

  /** Each unclaimed current cluster is reported as new or as an offshoot, as often as it occurs. */
  lemma UnclaimedWeigh(c: Comparison, w: string -> int)
    ensures Weight(DictionaryReport(c).newCampaigns, w) + Weight(OffshootIds(DictionaryReport(c).splits), w)
         == Weight(Ids(UnclaimedBy(c, ClaimsOf(c), |c.current|)), w)
  {
    var unclaimed := UnclaimedBy(c, ClaimsOf(c), |c.current|);
    GroupingKeepsWeight(c.OffshootPairs(unclaimed), w);
    OffshootsAre(c);
    hide *;
    ReportParts(c);
    NewOrOffshoot(c, unclaimed, w);
    var offshoots := OffshootsOf(c);
    OffshootsWeigh(c, |offshoots.keys|, w);
    assert offshoots.keys[..|offshoots.keys|] == offshoots.keys;
  }

  lemma {:induction false} UnclaimedCount(c: Comparison, claims: Groups<string, string>, n: nat, x: string)
    requires n <= |c.current|
    ensures Count(Ids(UnclaimedBy(c, claims, n)), x) == if x in claims.lists then 0 else Count(Ids(c.current[..n]), x)
  {
    hide *;
    if n == 0 {
      NoneUnclaimed(c, claims, x);
    } else {
      var m: nat := n - 1;
      var before, last := UnclaimedBy(c, claims, m), c.current[m];
      UnclaimedCount(c, claims, m, x);
      UnclaimedStep(c, claims, m);
      CountStep(c.current, m, x);
      IdsOfAppend(before, last);
      CountOfAppend(Ids(before), last.id, x);
    }
  }

  lemma NoneUnclaimed(c: Comparison, claims: Groups<string, string>, x: string)
    ensures Count(Ids(UnclaimedBy(c, claims, 0)), x) == Count(Ids(c.current[..0]), x) == 0
  {}

  lemma CountOfAppend(s: seq<string>, y: string, x: string)
    ensures Count(s + [y], x) == Count(s, x) + if y == x then 1 else 0
  {
    WeightOfAppend(s, y, IndicatorOf(x));
  }

  lemma CountStep(es: seq<Entry>, n: nat, x: string)
    requires n < |es|
    ensures Count(Ids(es[..n + 1]), x) == Count(Ids(es[..n]), x) + if es[n].id == x then 1 else 0
  {
    IdsStep(es, n, IndicatorOf(x));
    hide Weight, Ids;
  }

  lemma CountIsWeight(s: seq<string>, x: string)
    ensures Count(s, x) == Weight(s, IndicatorOf(x))
  {}

  /** An id of the previous snapshot is reported once if a match is recorded for it, and otherwise, as
      dissolved, as often as it occurs. */
  lemma PreviousCounted(c: Comparison, x: string)
    ensures var r := DictionaryReport(c);
            Count(PreviousIdsOf(r.continuing), x) + Count(MergedIds(r.merges), x) + Count(r.dissolved, x)
            == if x in Matches(c) then 1 else Count(Ids(c.previous), x)
  {
    hide *;
    ReportParts(c);
    RecordedWeigh(c, IndicatorOf(x));
    DissolvedUpTo(c, |c.previous|, x);
    RecordedOnce(c, x);
    assert c.previous[..|c.previous|] == c.previous;
    var r := DictionaryReport(c);
    CountIsWeight(PreviousIdsOf(r.continuing), x);
    CountIsWeight(MergedIds(r.merges), x);
    CountIsWeight(MatchOrder(c, |c.previous|), x);
  }

  lemma RecordedOnce(c: Comparison, x: string)
    ensures Count(MatchOrder(c, |c.previous|), x) == if x in Matches(c) then 1 else 0
  {
    OrderIsKeys(c, |c.previous|);
    CountInDistinct(MatchOrder(c, |c.previous|), x);
    hide MatchOrder, Count, Comparison.MatchMap;
  }

  /** An id of the current snapshot is reported once if it is recorded for some previous id, and
      otherwise, as new or as an offshoot, as often as it occurs. */
  lemma CurrentCounted(c: Comparison, x: string)
    ensures var r := DictionaryReport(c);
            Count(CurrentIdsOf(r.continuing), x) + Count(TargetIds(r.merges), x)
            + Count(r.newCampaigns, x) + Count(OffshootIds(r.splits), x)
            == if Claimed(c, x) then 1 else Count(Ids(c.current), x)
  {
    hide *;
    RecordedWeigh(c, IndicatorOf(x));
    UnclaimedWeigh(c, IndicatorOf(x));
    UnclaimedCount(c, ClaimsOf(c), |c.current|, x);
    ClaimantsOf(c, x);
    KeysAreDistinct(c);
    CountInDistinct(ClaimsOf(c).keys, x);
    assert c.current[..|c.current|] == c.current;
    var r := DictionaryReport(c);
    CountIsWeight(CurrentIdsOf(r.continuing), x);
    CountIsWeight(TargetIds(r.merges), x);
    CountIsWeight(r.newCampaigns, x);
    CountIsWeight(OffshootIds(r.splits), x);
    CountIsWeight(ClaimsOf(c).keys, x);
    CountIsWeight(Ids(UnclaimedBy(c, ClaimsOf(c), |c.current|)), x);
  }

  lemma KeysAreDistinct(c: Comparison)
    ensures Distinct(ClaimsOf(c).keys)
  {
    ClaimsAre(c);
    GroupAllIsByKey(PairsFor(Matches(c), MatchOrder(c, |c.previous|)));
    hide GroupAll;
  }
}
