/** What it means to be in each part of an evolution report, said about the two snapshots and
    their nearest matches only (ai/campaign_evolution.py:279-388). */
module EvolutionMeaning {
  import opened Wrappers
  import opened Collections
  import opened Ordering
  import opened Sorting
  import opened Grouping
  import opened Evolution
  import opened EvolutionPartition

  /** Previous cluster `i` matched current cluster `j`. */
  ghost predicate Matched(c: Comparison, i: nat, j: nat) {
    i < |c.previous| && j < |c.current| && c.Claim(c.previous[i]) == Some(j)
  }

  ghost predicate Unmatched(c: Comparison, j: nat) {
    forall i: nat :: !Matched(c, i, j)
  }

  /** Nobody matched current cluster `j`, but it still resembles previous cluster `i` most. */
  ghost predicate BrokeOff(c: Comparison, i: nat, j: nat) {
    && i < |c.previous| && j < |c.current|
    && Unmatched(c, j) && c.Parent(c.current[j]) == Some(i)
  }

  lemma SameId(es: seq<Entry>, a: nat, b: nat)
    requires Distinct(Ids(es)) && a < |es| && b < |es| && es[a].id == es[b].id
    ensures a == b
  {
    assert Ids(es)[a] == Ids(es)[b];
  }

  // ---------------------------------------------------------------- who claims whom

  lemma {:induction false} EveryClaimIsPaired(c: Comparison, n: nat, i: nat)
    requires i < n <= |c.previous| && c.Claim(c.previous[i]).Some?
    ensures (c.current[c.Claim(c.previous[i]).value].id, c.previous[i].id) in c.ClaimPairs(n)
  {
    hide BestMatch;
    if i < n - 1 {
      EveryClaimIsPaired(c, n - 1, i);
    }
  }

  lemma ListHas(pairs: seq<(string, string)>, k: string, v: string)
    ensures v in ListAt(GroupAll(pairs), k) <==> (k, v) in pairs
  {
    KeyHoldsItsValues(pairs, k);
    hide GroupAll;
    if (k, v) in pairs {
      var i :| 0 <= i < |pairs| && pairs[i] == (k, v);
      assert HasKey(pairs, k);
    }
  }

  lemma ClaimantIsMatched(c: Comparison, i: nat, j: nat)
    requires c.Sensible() && i < |c.previous| && j < |c.current|
    ensures c.previous[i].id in ListAt(c.Claims(), c.current[j].id) <==> Matched(c, i, j)
  {
    hide BestMatch, GroupAll, Ids;
    var n := |c.previous|;
    var pairs, pair := c.ClaimPairs(n), (c.current[j].id, c.previous[i].id);
    ListHas(pairs, pair.0, pair.1);
    if pair in pairs {
      ClaimPairsAre(c, n);
      var k :| 0 <= k < |pairs| && pairs[k] == pair;
      assert IsClaim(c, n, pairs[k]);
      var m :| 0 <= m < n && c.Claim(c.previous[m]).Some? &&
               pair == (c.current[c.Claim(c.previous[m]).value].id, c.previous[m].id);
      SameId(c.previous, i, m);
      SameId(c.current, j, c.Claim(c.previous[m]).value);
    }
    if Matched(c, i, j) {
      EveryClaimIsPaired(c, n, i);
    }
  }

  /** Claimants are previous clusters. */
  lemma ClaimantIsPrevious(c: Comparison, k: string, x: string)
    requires x in ListAt(c.Claims(), k)
    ensures exists i: nat :: i < |c.previous| && c.previous[i].id == x
  {
    hide BestMatch, GroupAll;
    var n := |c.previous|;
    ListHas(c.ClaimPairs(n), k, x);
    ClaimPairsAre(c, n);
    var p :| 0 <= p < |c.ClaimPairs(n)| && c.ClaimPairs(n)[p] == (k, x);
    assert IsClaim(c, n, c.ClaimPairs(n)[p]);
    var m :| 0 <= m < n && c.Claim(c.previous[m]).Some? &&
             (k, x) == (c.current[c.Claim(c.previous[m]).value].id, c.previous[m].id);
    assert c.previous[m].id == x;
  }

  lemma KeyHasList(c: Comparison, k: string)
    ensures k in c.Claims().lists <==> k in c.Claims().keys
    ensures k in c.Claims().keys <==> ListAt(c.Claims(), k) != []
  {
    KeyHoldsItsValues(c.ClaimPairs(|c.previous|), k);
  }

  lemma UnmatchedHasNoList(c: Comparison, j: nat)
    requires c.Sensible() && j < |c.current|
    ensures c.current[j].id in c.Claims().lists <==> !Unmatched(c, j)
  {
    hide BestMatch, Comparison.Claims, Comparison.Sensible, Comparison.Claim;
    var k := c.current[j].id;
    var list := ListAt(c.Claims(), k);
    KeyHasList(c, k);
    if list != [] {
      ClaimantIsPrevious(c, k, list[0]);
      var i: nat :| i < |c.previous| && c.previous[i].id == list[0];
      ClaimantIsMatched(c, i, j);
    }
    forall i: nat | Matched(c, i, j) ensures list != [] {
      ClaimantIsMatched(c, i, j);
    }
  }

  // ---------------------------------------------------------------- dissolved and new

  lemma {:induction false} DissolvedUpTo(c: Comparison, n: nat, i: nat)
    requires Distinct(Ids(c.previous)) && n <= |c.previous| && i < |c.previous|
    ensures c.previous[i].id in c.Dissolved(n) <==> i < n && c.Claim(c.previous[i]).None?
  {
    hide BestMatch, Ids;
    if n > 0 {
      DissolvedUpTo(c, n - 1, i);
      if c.previous[i].id == c.previous[n - 1].id {
        SameId(c.previous, i, n - 1);
      }
    }
  }

  /** A previous cluster is dissolved exactly if it matched nothing. */
  lemma DissolvedMeans(c: Comparison, i: nat)
    requires c.Sensible() && i < |c.previous|
    ensures c.previous[i].id in c.TheReport().dissolved <==> forall j: nat :: !Matched(c, i, j)
  {
    hide BestMatch, Sorted;
    DissolvedUpTo(c, |c.previous|, i);
    if c.Claim(c.previous[i]).Some? {
      assert Matched(c, i, c.Claim(c.previous[i]).value);
    }
  }

  lemma {:induction false} UnclaimedUpTo(c: Comparison, n: nat, j: nat)
    requires Distinct(Ids(c.current)) && n <= |c.current| && j < |c.current|
    ensures c.current[j] in c.Unclaimed(n) <==> j < n && c.current[j].id !in c.Claims().lists
    ensures forall m <- c.Unclaimed(n) :: m in c.current
  {
    hide Ids, Comparison.Claims;
    if n > 0 {
      UnclaimedUpTo(c, n - 1, j);
      if c.current[j] == c.current[n - 1] {
        SameId(c.current, j, n - 1);
      }
    }
  }

  lemma {:induction false} NewAmong(c: Comparison, unclaimed: seq<Entry>, x: string)
    ensures x in c.NewCampaigns(unclaimed) <==> exists m :: m in unclaimed && m.id == x && c.Parent(m).None?
  {
    hide BestMatch;
    if unclaimed != [] {
      var rest, last := unclaimed[..|unclaimed| - 1], unclaimed[|unclaimed| - 1];
      NewAmong(c, rest, x);
      assert unclaimed == rest + [last];
    }
  }

  /** A current cluster is new exactly if nothing matched it and it matches nothing itself. */
  lemma NewMeans(c: Comparison, j: nat)
    requires c.Sensible() && j < |c.current|
    ensures c.current[j].id in c.TheReport().newCampaigns <==> Unmatched(c, j) && c.Parent(c.current[j]).None?
  {
    hide BestMatch, Sorted, Ids, Comparison.Claims, Unmatched, Comparison.Unclaimed, Comparison.NewCampaigns;
    var unclaimed := c.Unclaimed(|c.current|);
    UnmatchedHasNoList(c, j);
    UnclaimedUpTo(c, |c.current|, j);
    NewAmong(c, unclaimed, c.current[j].id);
    forall m | m in unclaimed && m.id == c.current[j].id ensures m == c.current[j] {
      OnlyEntryWithId(c.current, m, j);
    }
  }

  lemma OnlyEntryWithId(es: seq<Entry>, m: Entry, j: nat)
    requires Distinct(Ids(es)) && j < |es| && m in es && m.id == es[j].id
    ensures m == es[j]
  {
    var k :| 0 <= k < |es| && es[k] == m;
    SameId(es, k, j);
  }

  // ---------------------------------------------------------------- splits

  lemma {:induction false} OffshootAmong(c: Comparison, unclaimed: seq<Entry>, m: Entry)
    requires m in unclaimed && c.Parent(m).Some?
    ensures (c.previous[c.Parent(m).value].id, m.id) in c.OffshootPairs(unclaimed)
  {
    hide BestMatch;
    var rest, last := unclaimed[..|unclaimed| - 1], unclaimed[|unclaimed| - 1];
    assert unclaimed == rest + [last];
    if m in rest {
      OffshootAmong(c, rest, m);
    }
  }

  lemma OffshootBrokeOff(c: Comparison, i: nat, j: nat)
    requires c.Sensible() && i < |c.previous| && j < |c.current|
    ensures c.current[j].id in ListAt(c.Offshoots(), c.previous[i].id) <==> BrokeOff(c, i, j)
  {
    hide BestMatch, GroupAll, Ids, Unmatched, Comparison.Claims, Comparison.Unclaimed, Comparison.OffshootPairs;
    var unclaimed, p, x := c.Unclaimed(|c.current|), c.previous[i].id, c.current[j].id;
    ListHas(c.OffshootPairs(unclaimed), p, x);
    UnmatchedHasNoList(c, j);
    UnclaimedUpTo(c, |c.current|, j);
    if (p, x) in c.OffshootPairs(unclaimed) {
      OffshootPairsAre(c, unclaimed, p, x);
      var m :| m in unclaimed && m.id == x && c.Parent(m).Some? && c.previous[c.Parent(m).value].id == p;
      OnlyEntryWithId(c.current, m, j);
      SameId(c.previous, c.Parent(m).value, i);
    }
    if BrokeOff(c, i, j) {
      OffshootAmong(c, unclaimed, c.current[j]);
    }
  }

  lemma {:induction false} SplitAt(c: Comparison, offshoots: Groups<string, string>, n: nat, s: Split)
    requires n <= |offshoots.keys|
    ensures s in c.SplitsOf(offshoots, n) <==>
            exists a :: 0 <= a < n &&
              var p := offshoots.keys[a];
              s == c.SplitEntry(p, c.PrimaryOf(p), ListAt(offshoots, p))
  {
    hide Comparison.SplitEntry, Comparison.PrimaryOf;
    if n > 0 {
      SplitAt(c, offshoots, n - 1, s);
    }
  }

  /** Current cluster `j` is an offshoot of previous cluster `i` in some split exactly if it broke
      off from it. */
  lemma SplitMeans(c: Comparison, i: nat, j: nat)
    requires c.Sensible() && i < |c.previous| && j < |c.current|
    ensures (exists s :: s in c.TheReport().splits &&
                         s.previousId == c.previous[i].id && c.current[j].id in s.offshootIds) <==>
            BrokeOff(c, i, j)
  {
    hide BestMatch, Sorted, BrokeOff, Comparison.Offshoots, Comparison.PrimaryOf, Comparison.Sensible,
         Comparison.SplitsOf, Comparison.ContinuingOf, Comparison.MergesOf, Comparison.Claims, Comparison.Unclaimed;
    OffshootBrokeOff(c, i, j);
    var offshoots, p, x := c.Offshoots(), c.previous[i].id, c.current[j].id;
    SortMembers(ListAt(offshoots, p), Less, x);
    if BrokeOff(c, i, j) {
      OffshootKey(c, p);
      var a :| 0 <= a < |offshoots.keys| && offshoots.keys[a] == p;
      var s := c.SplitEntry(p, c.PrimaryOf(p), ListAt(offshoots, p));
      SplitAt(c, offshoots, |offshoots.keys|, s);
    }
    forall s | s in c.TheReport().splits && s.previousId == p && x in s.offshootIds ensures BrokeOff(c, i, j) {
      SplitAt(c, offshoots, |offshoots.keys|, s);
    }
  }

  lemma OffshootKey(c: Comparison, p: string)
    ensures ListAt(c.Offshoots(), p) != [] ==> p in c.Offshoots().keys
  {
    KeyHoldsItsValues(c.OffshootPairs(c.Unclaimed(|c.current|)), p);
  }

  // ---------------------------------------------------------------- continuing and merged

  lemma {:induction false} ContinuingFrom(c: Comparison, claims: Groups<string, string>, n: nat, e: Continuing)
    requires n <= |claims.keys|
    ensures e in c.ContinuingOf(claims, n) <==>
            exists a :: 0 <= a < n && |ListAt(claims, claims.keys[a])| == 1 && e == ContinuingAt(c, claims, a)
  {
    hide *;
    if n == 0 {
      NoClaims(c, claims);
    } else {
      ContinuingFrom(c, claims, n - 1, e);
      ClaimStep(c, claims, n - 1);
    }
  }

  lemma {:induction false} MergedFrom(c: Comparison, claims: Groups<string, string>, n: nat, e: Merge)
    requires n <= |claims.keys|
    ensures e in c.MergesOf(claims, n) <==>
            exists a :: 0 <= a < n && |ListAt(claims, claims.keys[a])| != 1 && e == MergeAt(c, claims, a)
  {
    hide *;
    if n == 0 {
      NoClaims(c, claims);
    } else {
      MergedFrom(c, claims, n - 1, e);
      ClaimStep(c, claims, n - 1);
    }
  }

  lemma NoClaims(c: Comparison, claims: Groups<string, string>)
    ensures c.ContinuingOf(claims, 0) == [] && c.MergesOf(claims, 0) == []
  {}

  /** A key's claimants are the previous clusters that matched it, each once. */
  lemma ClaimantsOf(c: Comparison, j: nat)
    requires c.Sensible() && j < |c.current|
    ensures var list := ListAt(c.Claims(), c.current[j].id);
            Distinct(list) &&
            (forall i: nat :: i < |c.previous| ==> (c.previous[i].id in list <==> Matched(c, i, j))) &&
            (forall x :: x in list ==> exists i: nat :: i < |c.previous| && c.previous[i].id == x)
  {
    hide BestMatch, GroupAll, Comparison.Sensible;
    var k := c.current[j].id;
    forall i: nat | i < |c.previous| ensures c.previous[i].id in ListAt(c.Claims(), k) <==> Matched(c, i, j) {
      ClaimantIsMatched(c, i, j);
    }
    forall x | x in ListAt(c.Claims(), k) ensures exists i: nat :: i < |c.previous| && c.previous[i].id == x {
      ClaimantIsPrevious(c, k, x);
    }
    KeyHasList(c, k);
    if k in c.Claims().keys {
      var a :| 0 <= a < |c.Claims().keys| && c.Claims().keys[a] == k;
      ClaimListFacts(c, a);
    }
  }

  ghost predicate OnlyMatch(c: Comparison, i: nat, j: nat) {
    Matched(c, i, j) && forall m: nat :: m != i ==> !Matched(c, m, j)
  }

  /** One claimant, or more than one. */
  lemma ClaimantCount(c: Comparison, i: nat, j: nat)
    requires c.Sensible() && Matched(c, i, j)
    ensures |ListAt(c.Claims(), c.current[j].id)| == 1 <==> OnlyMatch(c, i, j)
    ensures OnlyMatch(c, i, j) ==> ListAt(c.Claims(), c.current[j].id)[0] == c.previous[i].id
  {
    hide BestMatch, Comparison.Claims, Ids;
    ClaimantsOf(c, j);
    var list := ListAt(c.Claims(), c.current[j].id);
    assert c.previous[i].id in list;
    if |list| == 1 {
      forall m: nat | Matched(c, m, j) ensures m == i {
        assert c.previous[m].id in list;
        SameId(c.previous, m, i);
      }
    }
    if OnlyMatch(c, i, j) {
      forall a | 0 <= a < |list| ensures list[a] == c.previous[i].id {
        assert list[a] in list;
      }
      AllEqualIsOne(list, c.previous[i].id);
    }
  }

  lemma AllEqualIsOne(list: seq<string>, x: string)
    requires Distinct(list) && list != [] && forall a :: 0 <= a < |list| ==> list[a] == x
    ensures |list| == 1
  {
    DistinctCardinality(list);
    assert Elements(list) == {list[0]};
  }

  lemma KeyOf(c: Comparison, i: nat, j: nat)
    requires c.Sensible() && Matched(c, i, j)
    ensures exists a :: 0 <= a < |c.Claims().keys| && c.Claims().keys[a] == c.current[j].id
  {
    hide BestMatch, Comparison.Claims;
    ClaimantIsMatched(c, i, j);
    KeyHasList(c, c.current[j].id);
  }

  lemma ContinuingIds(c: Comparison, a: nat)
    requires c.Sensible() && a < |c.Claims().keys|
    ensures |ListAt(c.Claims(), c.Claims().keys[a])| > 0
    ensures ContinuingAt(c, c.Claims(), a).previousId == ListAt(c.Claims(), c.Claims().keys[a])[0]
    ensures ContinuingAt(c, c.Claims(), a).currentId == c.Claims().keys[a]
  {
    ClaimListFacts(c, a);
    hide BestMatch, Comparison.Claims, ById, Sorted;
  }

  /** Previous cluster `i` continues as current cluster `j` exactly if it matched it and no other
      previous cluster did. */
  lemma ContinuingMeans(c: Comparison, i: nat, j: nat)
    requires c.Sensible() && i < |c.previous| && j < |c.current|
    ensures (exists e :: e in c.TheReport().continuing &&
                         e.previousId == c.previous[i].id && e.currentId == c.current[j].id) <==>
            OnlyMatch(c, i, j)
  {
    hide *;
    TheContinuing(c);
    var claims, n := c.Claims(), |c.Claims().keys|;
    if OnlyMatch(c, i, j) {
      OnlyMatchIsMatch(c, i, j);
      KeyOf(c, i, j);
      var a :| 0 <= a < n && claims.keys[a] == c.current[j].id;
      ClaimantCount(c, i, j);
      ContinuingIds(c, a);
      ContinuingFrom(c, claims, n, ContinuingAt(c, claims, a));
    }
    forall e | e in c.TheReport().continuing && e.previousId == c.previous[i].id && e.currentId == c.current[j].id
      ensures OnlyMatch(c, i, j)
    {
      ContinuingFrom(c, claims, n, e);
      var a :| 0 <= a < n && |ListAt(claims, claims.keys[a])| == 1 && e == ContinuingAt(c, claims, a);
      ContinuingIds(c, a);
      ClaimantIsMatched(c, i, j);
      ClaimantCount(c, i, j);
    }
  }

  lemma OnlyMatchIsMatch(c: Comparison, i: nat, j: nat)
    requires OnlyMatch(c, i, j)
    ensures Matched(c, i, j)
  {}

  lemma TheContinuing(c: Comparison)
    ensures c.TheReport().continuing == c.ContinuingOf(c.Claims(), |c.Claims().keys|)
    ensures c.TheReport().merges == c.MergesOf(c.Claims(), |c.Claims().keys|)
  {}

  ghost predicate SeveralMatch(c: Comparison, j: nat) {
    exists i: nat, m: nat :: i != m && Matched(c, i, j) && Matched(c, m, j)
  }

  lemma SeveralOrOne(c: Comparison, i: nat, j: nat)
    requires Matched(c, i, j)
    ensures OnlyMatch(c, i, j) <==> !SeveralMatch(c, j)
  {
    hide BestMatch;
    if !OnlyMatch(c, i, j) {
      var m: nat :| m != i && Matched(c, m, j);
      assert Matched(c, i, j) && Matched(c, m, j);
    }
  }

  lemma MergeIds(c: Comparison, a: nat)
    requires c.Sensible() && a < |c.Claims().keys|
    ensures MergeAt(c, c.Claims(), a).currentId == c.Claims().keys[a]
    ensures MergeAt(c, c.Claims(), a).sizeAfter == EntryOf(ById(c.current), c.Claims().keys[a]).size
    ensures forall x :: x in MergeAt(c, c.Claims(), a).previousIds <==> x in ListAt(c.Claims(), c.Claims().keys[a])
  {
    ClaimListFacts(c, a);
    var list := ListAt(c.Claims(), c.Claims().keys[a]);
    hide BestMatch, Comparison.Claims, ById, Sort;
    forall x ensures x in Sort(list, Less) <==> x in list {
      SortMembers(list, Less, x);
    }
  }

  /** Current cluster `j` is the target of a merge exactly if several previous clusters matched it. */
  lemma MergeMeans(c: Comparison, j: nat)
    requires c.Sensible() && j < |c.current|
    ensures (exists e :: e in c.TheReport().merges && e.currentId == c.current[j].id) <==> SeveralMatch(c, j)
  {
    hide *;
    TheContinuing(c);
    var claims, n := c.Claims(), |c.Claims().keys|;
    if SeveralMatch(c, j) {
      var i := SomeMatch(c, j);
      KeyOf(c, i, j);
      var a :| 0 <= a < n && claims.keys[a] == c.current[j].id;
      ClaimantCount(c, i, j);
      SeveralOrOne(c, i, j);
      MergeIds(c, a);
      MergedFrom(c, claims, n, MergeAt(c, claims, a));
    }
    forall e | e in c.TheReport().merges && e.currentId == c.current[j].id ensures SeveralMatch(c, j) {
      MergedFrom(c, claims, n, e);
      var a :| 0 <= a < n && |ListAt(claims, claims.keys[a])| != 1 && e == MergeAt(c, claims, a);
      MergeIds(c, a);
      ContinuingIds(c, a);
      var i := MatchedBy(c, j);
      ClaimantCount(c, i, j);
      SeveralOrOne(c, i, j);
    }
  }

  lemma SomeMatch(c: Comparison, j: nat) returns (i: nat)
    requires SeveralMatch(c, j)
    ensures Matched(c, i, j)
  {
    var a: nat, b: nat :| a != b && Matched(c, a, j) && Matched(c, b, j);
    i := a;
  }

  lemma MatchedBy(c: Comparison, j: nat) returns (i: nat)
    requires c.Sensible() && j < |c.current| && ListAt(c.Claims(), c.current[j].id) != []
    ensures Matched(c, i, j)
  {
    hide BestMatch, Comparison.Claims;
    ClaimantsOf(c, j);
    var list := ListAt(c.Claims(), c.current[j].id);
    var x := list[0];
    assert x in list;
    var k: nat :| k < |c.previous| && c.previous[k].id == x;
    i := k;
  }

  /** And such a merge names exactly the previous clusters that matched it. */
  lemma MergeNamesItsSources(c: Comparison, i: nat, j: nat, e: Merge)
    requires c.Sensible() && i < |c.previous| && j < |c.current|
    requires e in c.TheReport().merges && e.currentId == c.current[j].id
    ensures c.previous[i].id in e.previousIds <==> Matched(c, i, j)
    ensures e.sizeAfter == c.current[j].size
  {
    ByIdFinds(c.current);
    hide *;
    TheContinuing(c);
    var claims, n := c.Claims(), |c.Claims().keys|;
    MergedFrom(c, claims, n, e);
    var a :| 0 <= a < n && |ListAt(claims, claims.keys[a])| != 1 && e == MergeAt(c, claims, a);
    MergeIds(c, a);
    ClaimantIsMatched(c, i, j);
  }

  // ---------------------------------------------------------------- what the entries carry

  ghost predicate Figures(c: Comparison, i: nat, j: nat, e: Continuing)
    requires i < |c.previous| && j < |c.current|
  {
    var p, m := c.previous[i], c.current[j];
    && e.sizeBefore == p.size && e.sizeAfter == m.size
    && e.similarity == c.sim(p.centroid, m.centroid)
    && Ascending(e.newDomains)
    && (forall d :: d in e.newDomains <==> d in m.topDomains && d !in p.topDomains)
    && e.shareBefore == Share(p.size, c.previousPopulation) && e.shareAfter == Share(m.size, c.currentPopulation)
  }

  /** A continuing entry carries the two clusters' own figures, and the domains only the newer has. */
  lemma ContinuingCarries(c: Comparison, i: nat, j: nat, e: Continuing)
    requires c.Sensible() && i < |c.previous| && j < |c.current|
    requires e in c.TheReport().continuing && e.previousId == c.previous[i].id && e.currentId == c.current[j].id
    ensures Figures(c, i, j, e) && c.sim(c.previous[i].centroid, c.current[j].centroid) >= c.threshold
  {
    hide *;
    TheContinuing(c);
    ContinuingMeans(c, i, j);
    OnlyMatchIsMatch(c, i, j);
    MatchClears(c, i, j);
    var claims, n := c.Claims(), |c.Claims().keys|;
    ContinuingFrom(c, claims, n, e);
    var a :| 0 <= a < n && |ListAt(claims, claims.keys[a])| == 1 && e == ContinuingAt(c, claims, a);
    ContinuingIds(c, a);
    ContinuingIs(c, claims, a, i, j);
  }

  lemma MatchClears(c: Comparison, i: nat, j: nat)
    requires Matched(c, i, j)
    ensures c.sim(c.previous[i].centroid, c.current[j].centroid) >= c.threshold
  {}

  lemma ContinuingIs(c: Comparison, claims: Groups<string, string>, a: nat, i: nat, j: nat)
    requires c.Sensible() && a < |claims.keys| && i < |c.previous| && j < |c.current|
    requires ListAt(claims, claims.keys[a]) == [c.previous[i].id] && claims.keys[a] == c.current[j].id
    ensures Figures(c, i, j, ContinuingAt(c, claims, a))
  {
    ByIdFinds(c.previous);
    ByIdFinds(c.current);
    var fresher := Elements(c.current[j].topDomains) - Elements(c.previous[i].topDomains);
    SortedAscends(fresher);
    SortedElements(fresher);
    hide Sorted, ById, Ascending;
    forall d ensures d in Sorted(fresher) <==> d in fresher {
      assert d in Sorted(fresher) <==> d in Elements(Sorted(fresher));
    }
  }

  // ---------------------------------------------------------------- merge candidates

  /** Current clusters `i` and `k`, in this order, clear the threshold together. */
  ghost predicate IsCandidate(c: Comparison, i: nat, k: nat, x: (string, string, real)) {
    i < k < |c.current| &&
    var s := c.sim(c.current[i].centroid, c.current[k].centroid);
    s >= c.threshold && x == (c.current[i].id, c.current[k].id, s)
  }

  lemma {:induction false} CandidatesFor(c: Comparison, i: nat, j: nat, x: (string, string, real))
    requires i < |c.current| && j <= |c.current|
    ensures x in c.CandidatesOf(i, j) <==> exists k: nat :: k < j && IsCandidate(c, i, k, x)
  {
    if j > i + 1 {
      CandidatesFor(c, i, j - 1, x);
      assert IsCandidate(c, i, j - 1, x) ==> x in c.CandidatesOf(i, j);
    }
  }

  lemma {:induction false} CandidatesUpTo(c: Comparison, n: nat, x: (string, string, real))
    requires n <= |c.current|
    ensures x in c.MergeCandidates(n) <==> exists i: nat, k: nat :: i < n && IsCandidate(c, i, k, x)
  {
    hide IsCandidate;
    if n > 0 {
      CandidatesUpTo(c, n - 1, x);
      CandidatesFor(c, n - 1, |c.current|, x);
      CandidateIsCurrent(c, n - 1, x);
      hide Comparison.CandidatesOf;
    }
  }

  lemma CandidateIsCurrent(c: Comparison, i: nat, x: (string, string, real))
    ensures forall k: nat :: IsCandidate(c, i, k, x) ==> k < |c.current|
  {}

  /** The candidates are the pairs of current clusters at or above the threshold. */
  lemma MergeCandidatesMean(c: Comparison, x: (string, string, real))
    ensures x in c.TheReport().mergeCandidates <==> exists i: nat, k: nat :: IsCandidate(c, i, k, x)
  {
    CandidatesUpTo(c, |c.current|, x);
    hide Comparison.MergeCandidates;
  }

  lemma {:induction false} CandidatesForOnce(c: Comparison, i: nat, j: nat)
    requires Distinct(Ids(c.current)) && i < |c.current| && j <= |c.current|
    ensures Distinct(c.CandidatesOf(i, j))
  {
    if j > i + 1 {
      var last: nat := j - 1;
      CandidatesForOnce(c, i, last);
      hide Ids;
      var x := (c.current[i].id, c.current[last].id, c.sim(c.current[i].centroid, c.current[last].centroid));
      DistinctAppend(c.CandidatesOf(i, last), x);
      CandidatesFor(c, i, last, x);
      forall k: nat | k < |c.current| && IsCandidate(c, i, k, x) ensures k == last {
        SameId(c.current, k, last);
      }
    }
  }

  lemma {:induction false} CandidatesUpToOnce(c: Comparison, n: nat)
    requires Distinct(Ids(c.current)) && n <= |c.current|
    ensures Distinct(c.MergeCandidates(n))
  {
    if n > 0 {
      var last: nat := n - 1;
      CandidatesUpToOnce(c, last);
      CandidatesForOnce(c, last, |c.current|);
      CandidatesKeepApart(c, last);
      hide Ids, Distinct, Comparison.CandidatesOf;
      DistinctConcat(c.MergeCandidates(last), c.CandidatesOf(last, |c.current|));
    }
  }

  lemma CandidatesKeepApart(c: Comparison, n: nat)
    requires Distinct(Ids(c.current)) && n < |c.current|
    ensures forall x :: x in c.MergeCandidates(n) ==> x !in c.CandidatesOf(n, |c.current|)
  {
    hide Ids, Distinct, Comparison.CandidatesOf, Comparison.MergeCandidates;
    forall x | x in c.MergeCandidates(n) && x in c.CandidatesOf(n, |c.current|) ensures false {
      CandidatesUpTo(c, n, x);
      CandidatesFor(c, n, |c.current|, x);
      var i: nat, k: nat :| i < n && IsCandidate(c, i, k, x);
      SameId(c.current, i, n);
    }
  }

  lemma DistinctConcat<T>(a: seq<T>, b: seq<T>)
    requires Distinct(a) && Distinct(b) && forall x :: x in a ==> x !in b
    ensures Distinct(a + b)
  {
    forall i, j | 0 <= i < j < |a + b| ensures (a + b)[i] != (a + b)[j] {
      if i < |a| <= j {
        assert a[i] in a && b[j - |a|] in b;
      }
    }
  }

  /** And each such pair is listed once. */
  lemma MergeCandidatesOnce(c: Comparison)
    requires Distinct(Ids(c.current))
    ensures Distinct(c.TheReport().mergeCandidates)
  {
    CandidatesUpToOnce(c, |c.current|);
    hide Comparison.MergeCandidates, Distinct;
  }
}
