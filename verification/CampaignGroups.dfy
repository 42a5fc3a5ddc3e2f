/** Grouping near-duplicate messages into approximate campaigns: trigram blocking and
    union-find (ai/scripts/calibrate_match_threshold.py:74-125). */
module CampaignGroups {
  import opened Collections
  import opened Connectivity
  import opened Ordering
  import opened Grouping
  import opened DisjointSets

  const GROUP_JACCARD := 0.75
  const MIN_GROUP := 4
  const BLOCK_KEYS := 12
  const MAX_BUCKET := 300

  /** `trigrams`, after lower-casing. */
  function Trigrams(text: string): set<string> {
    var padded := "  " + text + "  ";
    set i: nat | i < |padded| - 2 :: Window(padded, i)
  }

  function Window(text: string, i: nat): string
    requires i + 3 <= |text|
  {
    text[i..i + 3]
  }

  function Jaccard(a: set<string>, b: set<string>): real {
    if a == {} || b == {} then 0.0 else |a * b| as real / |a + b| as real
  }

  lemma JaccardSymmetric(a: set<string>, b: set<string>)
    ensures Jaccard(a, b) == Jaccard(b, a)
  {
    assert a * b == b * a && a + b == b + a;
  }

  // ---------------------------------------------------------------- what a campaign group is

  /** The trigrams a message is filed under: its first twelve in code-point order. */
  ghost function Keys(s: set<string>): seq<string> {
    SortedElements(s);
    if |s| <= BLOCK_KEYS then Sorted(s) else Sorted(s)[..BLOCK_KEYS]
  }

  ghost function Bucket(grams: seq<set<string>>, g: string): set<nat> {
    set i: nat | i < |grams| && g in Keys(grams[i])
  }

  /** Two messages met in a bucket that is not too common, and their wording overlaps. */
  ghost predicate Linked(grams: seq<set<string>>, a: nat, b: nat) {
    && a < |grams| && b < |grams| && a != b
    && (exists g :: a in Bucket(grams, g) && b in Bucket(grams, g) && |Bucket(grams, g)| <= MAX_BUCKET)
    && Jaccard(grams[a], grams[b]) >= GROUP_JACCARD
  }

  /** The messages, with their links. */
  ghost function LinkGraph(grams: seq<set<string>>): Graph {
    Graph(|grams|, (a: nat, b: nat) => Linked(grams, a, b))
  }

  lemma LinkGraphIsUndirected(grams: seq<set<string>>)
    ensures LinkGraph(grams).Undirected()
  {
    forall a: nat, b: nat | Linked(grams, a, b) ensures Linked(grams, b, a) {
      JaccardSymmetric(grams[a], grams[b]);
    }
  }

  /** The components large enough to be a campaign. */
  ghost function BigEnough(groups: seq<seq<nat>>): seq<seq<nat>> {
    if groups == [] then []
    else
      var last := groups[|groups| - 1];
      BigEnough(groups[..|groups| - 1]) + if |last| >= MIN_GROUP then [last] else []
  }

  // ---------------------------------------------------------------- buckets

  ghost function BucketBelow(grams: seq<set<string>>, g: string, i: nat): set<nat> {
    set x: nat | x < |grams| && x < i && g in Keys(grams[x])
  }

  /** Bucket `list` of `g` after message `i` was filed under its first `j` keys. */
  ghost predicate Filed(grams: seq<set<string>>, g: string, list: seq<nat>, i: nat, keys: seq<string>) {
    && Increasing(list)
    && Elements(list) == BucketBelow(grams, g, i) + if g in keys then {i} else {}
  }

  ghost predicate AllFiled(grams: seq<set<string>>, b: Groups<string, nat>, i: nat, keys: seq<string>) {
    && b.lists.Keys == Elements(b.keys)
    && (forall g :: g in b.lists ==> Filed(grams, g, b.lists[g], i, keys))
    && (forall g :: g !in b.lists ==> Filed(grams, g, [], i, keys))
  }

  lemma KeysDistinct(s: set<string>)
    ensures Distinct(Keys(s))
  {
    SortedElements(s);
    SortedAscends(s);
    forall i, j | 0 <= i < j < |Keys(s)| ensures Keys(s)[i] != Keys(s)[j] {
      LessTrichotomy(Keys(s)[i], Keys(s)[j]);
    }
  }

  lemma FileUnder(grams: seq<set<string>>, b: Groups<string, nat>, i: nat, keys: seq<string>, g: string)
    requires AllFiled(grams, b, i, keys) && g !in keys
    ensures AllFiled(grams, b.Add(g, i), i, keys + [g])
  {
    FileOne(grams, if g in b.lists then b.lists[g] else [], i, keys, g);
    FileOthers(grams, i, keys, g);
    AddedKey(b, i, g);
    OneMoreFiled(grams, b, b.Add(g, i), i, keys, g) by {
      hide Filed, Elements;
    }
    hide *;
  }

  lemma OneMoreFiled(grams: seq<set<string>>, b: Groups<string, nat>, after: Groups<string, nat>, i: nat,
                     keys: seq<string>, g: string)
    requires AllFiled(grams, b, i, keys)
    requires after.lists.Keys == Elements(after.keys) == b.lists.Keys + {g}
    requires forall h <- b.lists :: h != g ==> after.lists[h] == b.lists[h]
    requires Filed(grams, g, after.lists[g], i, keys + [g])
    requires forall h, list :: h != g && Filed(grams, h, list, i, keys) ==> Filed(grams, h, list, i, keys + [g])
    ensures AllFiled(grams, after, i, keys + [g])
  {
    hide Filed, Elements;
  }

  lemma AddedKey(b: Groups<string, nat>, i: nat, g: string)
    requires b.lists.Keys == Elements(b.keys)
    ensures b.Add(g, i).lists.Keys == Elements(b.Add(g, i).keys) == b.lists.Keys + {g}
    ensures forall h <- b.lists :: h != g ==> b.Add(g, i).lists[h] == b.lists[h]
    ensures b.Add(g, i).lists[g] == (if g in b.lists then b.lists[g] else []) + [i]
  {
    ElementsOfAppend(b.keys, g);
    hide Elements;
  }

  lemma FileOthers(grams: seq<set<string>>, i: nat, keys: seq<string>, g: string)
    ensures forall h, list :: h != g && Filed(grams, h, list, i, keys) ==> Filed(grams, h, list, i, keys + [g])
  {
    hide BucketBelow;
    forall h, list | h != g && Filed(grams, h, list, i, keys) ensures Filed(grams, h, list, i, keys + [g]) {
      assert h in keys + [g] <==> h in keys;
    }
  }

  lemma FileOne(grams: seq<set<string>>, before: seq<nat>, i: nat, keys: seq<string>, g: string)
    requires Filed(grams, g, before, i, keys) && g !in keys
    ensures Filed(grams, g, before + [i], i, keys + [g])
  {
    ElementsOfAppend(before, i);
    forall k | 0 <= k < |before| ensures before[k] < i {
      assert before[k] in Elements(before);
    }
  }

  /** `sorted(gset)[:12]`. */
  method BlockKeys(s: set<string>) returns (keys: seq<string>)
    ensures keys == Keys(s)
  {
    var sorted := SortSet(s);
    SortedElements(s);
    keys := if |sorted| <= BLOCK_KEYS then sorted else sorted[..BLOCK_KEYS];
  }

  method FillBuckets(grams: seq<set<string>>) returns (buckets: Groups<string, nat>)
    ensures AllFiled(grams, buckets, |grams|, [])
  {
    hide *;
    NothingFiled(grams);
    buckets := NoGroups();
    for idx := 0 to |grams|
      invariant AllFiled(grams, buckets, idx, [])
    {
      var keys := BlockKeys(grams[idx]);
      KeysDistinct(grams[idx]);
      for j := 0 to |keys|
        invariant AllFiled(grams, buckets, idx, keys[..j])
      {
        FileUnder(grams, buckets, idx, keys[..j], keys[j]);
        assert keys[..j + 1] == keys[..j] + [keys[j]];
        buckets := buckets.Add(keys[j], idx);
      }
      NextMessage(grams, buckets, idx, keys);
    }
  }

  lemma NothingFiled(grams: seq<set<string>>)
    ensures AllFiled(grams, NoGroups(), 0, [])
  {}

  lemma NextMessage(grams: seq<set<string>>, b: Groups<string, nat>, i: nat, keys: seq<string>)
    requires i < |grams| && keys == Keys(grams[i]) && AllFiled(grams, b, i, keys[..|keys|])
    ensures AllFiled(grams, b, i + 1, [])
  {
    assert keys[..|keys|] == keys;
    forall g ensures BucketBelow(grams, g, i + 1) == BucketBelow(grams, g, i) + if g in keys then {i} else {} {}
  }

  // ---------------------------------------------------------------- joining linked messages

  ghost predicate Joined(grams: seq<set<string>>, root: seq<nat>, a: nat, b: nat)
    requires |root| == |grams|
  {
    a < |grams| && b < |grams| && (Linked(grams, a, b) ==> root[a] == root[b])
  }

  /** All pairs of bucket `list` whose first element sits below `i`, and of row `i` below `j`. */
  ghost predicate JoinedUpTo(grams: seq<set<string>>, root: seq<nat>, list: seq<nat>, i: nat, j: nat)
    requires |root| == |grams|
  {
    forall k: nat, l: nat :: k < l < |list| && (k < i || (k == i && l < j)) ==> Joined(grams, root, list[k], list[l])
  }

  ghost predicate BucketDone(grams: seq<set<string>>, root: seq<nat>, list: seq<nat>)
    requires |root| == |grams|
  {
    |list| <= MAX_BUCKET ==> JoinedUpTo(grams, root, list, |list|, 0)
  }

  /** Classes only ever grow. */
  ghost predicate Coarser(before: seq<nat>, after: seq<nat>) {
    && |before| == |after|
    && forall x: nat, y: nat :: x < |before| && y < |before| && before[x] == before[y] ==> after[x] == after[y]
  }

  lemma CoarserKeepsJoined(grams: seq<set<string>>, before: seq<nat>, after: seq<nat>, list: seq<nat>, i: nat, j: nat)
    requires |before| == |grams| && Coarser(before, after) && JoinedUpTo(grams, before, list, i, j)
    ensures JoinedUpTo(grams, after, list, i, j)
  {
    forall k: nat, l: nat | k < l < |list| && (k < i || (k == i && l < j))
      ensures Joined(grams, after, list[k], list[l])
    {
      assert Joined(grams, before, list[k], list[l]);
    }
  }

  /** One pair of the inner loops: union when the two are apart and their wording overlaps. */
  method JoinPair(grams: seq<set<string>>, sets: Forest, a: nat, b: nat)
    requires sets.Valid() && Sound(LinkGraph(grams), sets.root)
    requires a < |grams| && b < |grams|
    requires Jaccard(grams[a], grams[b]) >= GROUP_JACCARD ==> Linked(grams, a, b)
    modifies sets, sets.parent
    ensures sets.Valid() && Sound(LinkGraph(grams), sets.root)
    ensures Coarser(old(sets.root), sets.root)
    ensures Joined(grams, sets.root, a, b)
  {
    hide Linked;
    var ra := sets.Find(a);
    var rb := sets.Find(b);
    if ra != rb && Jaccard(grams[a], grams[b]) >= GROUP_JACCARD {
      LinkGraphIsUndirected(grams);
      MergingStaysSound(LinkGraph(grams), sets.root, a, b);
      sets.Union(a, b);
    } else if ra != rb {
      assert !Linked(grams, a, b) by { LinkedNeedsOverlap(grams, a, b); }
    }
  }

  lemma LinkedNeedsOverlap(grams: seq<set<string>>, a: nat, b: nat)
    ensures Linked(grams, a, b) ==> a < |grams| && b < |grams| && Jaccard(grams[a], grams[b]) >= GROUP_JACCARD
  {}

  /** `list` is the bucket of one key, in the order its messages were filed. */
  ghost predicate IsBucket(grams: seq<set<string>>, list: seq<nat>) {
    Increasing(list) && exists g :: Elements(list) == Bucket(grams, g)
  }

  lemma BucketMates(grams: seq<set<string>>, list: seq<nat>, i: nat, j: nat)
    requires IsBucket(grams, list) && i < j < |list| <= MAX_BUCKET
    ensures list[i] < |grams| && list[j] < |grams|
    ensures Jaccard(grams[list[i]], grams[list[j]]) >= GROUP_JACCARD ==> Linked(grams, list[i], list[j])
  {
    var g :| Elements(list) == Bucket(grams, g);
    DistinctCardinality(list);
    assert list[i] in Elements(list) && list[j] in Elements(list);
  }

  /** The two inner loops over one bucket. */
  method JoinBucket(grams: seq<set<string>>, sets: Forest, list: seq<nat>)
    requires sets.Valid() && Sound(LinkGraph(grams), sets.root) && IsBucket(grams, list)
    modifies sets, sets.parent
    ensures sets.Valid() && Sound(LinkGraph(grams), sets.root)
    ensures Coarser(old(sets.root), sets.root)
    ensures BucketDone(grams, sets.root, list)
  {
    if |list| < 2 || |list| > MAX_BUCKET {
      return;
    }
    hide *;
    SoundSize(LinkGraph(grams), sets.root);
    assert LinkGraph(grams).n == |grams| by { GraphSize(grams); }
    NothingJoinedYet(grams, sets.root, list);
    for i := 0 to |list|
      invariant sets.Valid() && Sound(LinkGraph(grams), sets.root)
      invariant Coarser(old(sets.root), sets.root) && |sets.root| == |grams|
      invariant JoinedUpTo(grams, sets.root, list, i, i + 1)
    {
      for j := i + 1 to |list|
        invariant sets.Valid() && Sound(LinkGraph(grams), sets.root)
        invariant Coarser(old(sets.root), sets.root) && |sets.root| == |grams|
        invariant JoinedUpTo(grams, sets.root, list, i, j)
      {
        ghost var before := sets.root;
        BucketMates(grams, list, i, j);
        JoinPair(grams, sets, list[i], list[j]);
        StillCoarser(old(sets.root), before, sets.root);
        CoarserKeepsJoined(grams, before, sets.root, list, i, j);
        OneMoreJoined(grams, sets.root, list, i, j);
      }
      RowJoined(grams, sets.root, list, i);
    }
    BucketIsDone(grams, sets.root, list);
  }

  lemma GraphSize(grams: seq<set<string>>)
    ensures LinkGraph(grams).n == |grams|
  {}

  lemma NothingJoinedYet(grams: seq<set<string>>, root: seq<nat>, list: seq<nat>)
    requires |root| == |grams|
    ensures JoinedUpTo(grams, root, list, 0, 1) && Coarser(root, root)
  {}

  lemma StillCoarser(a: seq<nat>, b: seq<nat>, c: seq<nat>)
    requires Coarser(a, b) && Coarser(b, c)
    ensures Coarser(a, c) && |a| == |b| == |c|
  {
    forall x: nat, y: nat | x < |a| && y < |a| && a[x] == a[y] ensures c[x] == c[y] {
      assert b[x] == b[y];
    }
  }

  lemma OneMoreJoined(grams: seq<set<string>>, root: seq<nat>, list: seq<nat>, i: nat, j: nat)
    requires |root| == |grams| && JoinedUpTo(grams, root, list, i, j)
    requires i < j < |list| && Joined(grams, root, list[i], list[j])
    ensures JoinedUpTo(grams, root, list, i, j + 1)
  {
    hide Joined;
  }

  lemma RowJoined(grams: seq<set<string>>, root: seq<nat>, list: seq<nat>, i: nat)
    requires |root| == |grams| && JoinedUpTo(grams, root, list, i, |list|)
    ensures JoinedUpTo(grams, root, list, i + 1, i + 2)
  {
    hide Joined;
  }

  lemma BucketIsDone(grams: seq<set<string>>, root: seq<nat>, list: seq<nat>)
    requires |root| == |grams| && JoinedUpTo(grams, root, list, |list|, |list| + 1)
    ensures BucketDone(grams, root, list)
  {
    hide Joined;
  }

  /** The loop over all buckets. */
  method JoinBuckets(grams: seq<set<string>>, buckets: Groups<string, nat>, sets: Forest)
    requires AllFiled(grams, buckets, |grams|, [])
    requires sets.Valid() && Sound(LinkGraph(grams), sets.root)
    modifies sets, sets.parent
    ensures sets.Valid() && Sound(LinkGraph(grams), sets.root)
    ensures BucketsDone(grams, sets.root, buckets, |buckets.keys|)
  {
    hide AllFiled, Sound, BucketDone, IsBucket;
    assert |sets.root| == |grams| by { SoundSize(LinkGraph(grams), sets.root); }
    for i := 0 to |buckets.keys|
      invariant sets.Valid() && Sound(LinkGraph(grams), sets.root) && |sets.root| == |grams|
      invariant BucketsDone(grams, sets.root, buckets, i)
    {
      ghost var before := sets.root;
      KeyIsBucket(grams, buckets, i);
      JoinBucket(grams, sets, buckets.lists[buckets.keys[i]]);
      forall k: nat | k < i ensures BucketDone(grams, sets.root, buckets.lists[buckets.keys[k]]) {
        CoarserKeepsDone(grams, before, sets.root, buckets.lists[buckets.keys[k]]);
      }
    }
  }

  ghost predicate BucketsDone(grams: seq<set<string>>, root: seq<nat>, buckets: Groups<string, nat>, m: nat)
    requires |root| == |grams|
  {
    m <= |buckets.keys| &&
    forall k: nat :: k < m ==>
      buckets.keys[k] in buckets.lists && BucketDone(grams, root, buckets.lists[buckets.keys[k]])
  }

  lemma KeyIsBucket(grams: seq<set<string>>, buckets: Groups<string, nat>, k: nat)
    requires AllFiled(grams, buckets, |grams|, []) && k < |buckets.keys|
    ensures buckets.keys[k] in buckets.lists && IsBucket(grams, buckets.lists[buckets.keys[k]])
  {
    assert buckets.keys[k] in Elements(buckets.keys);
    FiledIsBucket(grams, buckets.keys[k], buckets.lists[buckets.keys[k]]);
  }

  lemma CoarserKeepsDone(grams: seq<set<string>>, before: seq<nat>, after: seq<nat>, list: seq<nat>)
    requires |before| == |grams| && Coarser(before, after) && BucketDone(grams, before, list)
    ensures BucketDone(grams, after, list)
  {
    if |list| <= MAX_BUCKET {
      CoarserKeepsJoined(grams, before, after, list, |list|, 0);
    }
  }

  lemma FiledIsBucket(grams: seq<set<string>>, g: string, list: seq<nat>)
    requires Filed(grams, g, list, |grams|, [])
    ensures IsBucket(grams, list) && Elements(list) == Bucket(grams, g)
  {
    assert BucketBelow(grams, g, |grams|) == Bucket(grams, g);
  }

  lemma BucketOf(grams: seq<set<string>>, buckets: Groups<string, nat>, g: string)
    requires AllFiled(grams, buckets, |grams|, []) && Bucket(grams, g) != {}
    ensures exists k: nat :: k < |buckets.keys| && buckets.keys[k] == g
    ensures g in buckets.lists && Increasing(buckets.lists[g]) && Elements(buckets.lists[g]) == Bucket(grams, g)
  {
    FiledIsBucket(grams, g, if g in buckets.lists then buckets.lists[g] else []);
    assert g in Elements(buckets.keys);
  }

  lemma MatesShareRoot(grams: seq<set<string>>, root: seq<nat>, list: seq<nat>, a: nat, b: nat)
    requires |root| == |grams| && BucketDone(grams, root, list)
    requires Increasing(list) && |Elements(list)| <= MAX_BUCKET && a in Elements(list) && b in Elements(list)
    requires Linked(grams, a, b)
    ensures a < |root| && b < |root| && root[a] == root[b]
  {
    hide Linked, Jaccard;
    DistinctCardinality(list);
    LinkGraphIsUndirected(grams);
    assert LinkGraph(grams).link(a, b);
    LinkedNeedsOverlap(grams, a, b);
    var k: nat :| k < |list| && list[k] == a;
    var l: nat :| l < |list| && list[l] == b;
    if k < l {
      assert Joined(grams, root, list[k], list[l]);
    } else if l < k {
      assert Joined(grams, root, list[l], list[k]);
    }
  }

  /** Skipping pairs that were joined already, and whole buckets, loses no link. */
  lemma NoLinkIsLost(grams: seq<set<string>>, buckets: Groups<string, nat>, root: seq<nat>)
    requires AllFiled(grams, buckets, |grams|, []) && |root| == |grams|
    requires BucketsDone(grams, root, buckets, |buckets.keys|)
    ensures LinksJoined(LinkGraph(grams), root)
  {
    hide AllFiled, BucketDone, Bucket;
    forall a: nat, b: nat | a < |root| && b < |root| && Linked(grams, a, b) ensures root[a] == root[b] {
      var g :| a in Bucket(grams, g) && b in Bucket(grams, g) && |Bucket(grams, g)| <= MAX_BUCKET;
      BucketOf(grams, buckets, g);
      var k: nat :| k < |buckets.keys| && buckets.keys[k] == g;
      assert BucketDone(grams, root, buckets.lists[buckets.keys[k]]);
      MatesShareRoot(grams, root, buckets.lists[g], a, b);
    }
  }

  ghost function GramsOf(masked: seq<string>, lower: string -> string): seq<set<string>> {
    seq(|masked|, i requires 0 <= i < |masked| => Trigrams(lower(masked[i])))
  }

  /** `find_campaign_groups`: the components of the link relation with at least four
      members, each in row order, by their first member. */
  method FindCampaignGroups(masked: seq<string>, lower: string -> string) returns (result: seq<seq<nat>>)
    ensures result == BigEnough(Components(LinkGraph(GramsOf(masked, lower))))
  {
    var n := |masked|;
    var grams := seq(n, i requires 0 <= i < n => Trigrams(lower(masked[i])));
    assert grams == GramsOf(masked, lower);
    hide GramsOf;
    var sets := new Forest(n);
    LinkGraphIsUndirected(grams);
    AloneIsSound(LinkGraph(grams), sets.root);
    var buckets := FillBuckets(grams);
    hide Sound, AllFiled, LinksJoined, Exact, Linked, Components;
    JoinBuckets(grams, buckets, sets);
    NoLinkIsLost(grams, buckets, sets.root);
    RootsAreExact(LinkGraph(grams), sets.root);
    var all := CollectLists(grams, sets);
    result := KeepBigEnough(all);
  }

  method CollectLists(grams: seq<set<string>>, sets: Forest) returns (all: seq<seq<nat>>)
    requires sets.Valid() && Exact(LinkGraph(grams), sets.root)
    modifies sets.parent
    ensures all == Components(LinkGraph(grams))
  {
    var groups: Groups<nat, nat> := NoGroups();
    for idx := 0 to |grams|
      invariant sets.Valid()
      invariant groups == GroupAll(RootPairs(sets.root, idx))
    {
      var r := sets.Find(idx);
      RootPairsStep(sets.root, idx);
      groups := groups.Add(r, idx);
    }
    ListsAreComponents(LinkGraph(grams), sets.root);
    all := seq(|groups.keys|, i requires 0 <= i < |groups.keys| => groups.lists[groups.keys[i]]);
  }

  method KeepBigEnough(all: seq<seq<nat>>) returns (result: seq<seq<nat>>)
    ensures result == BigEnough(all)
  {
    result := [];
    for i := 0 to |all|
      invariant result == BigEnough(all[..i])
    {
      assert all[..i + 1][..i] == all[..i];
      if |all[i]| >= MIN_GROUP {
        result := result + [all[i]];
      }
    }
    assert all[..|all|] == all;
  }

  // ---------------------------------------------------------------- what the result means

  lemma {:induction false} BigEnoughIs(groups: seq<seq<nat>>, g: seq<nat>)
    ensures g in BigEnough(groups) <==> g in groups && |g| >= MIN_GROUP
  {
    if groups != [] {
      BigEnoughIs(groups[..|groups| - 1], g);
      assert groups == groups[..|groups| - 1] + [groups[|groups| - 1]];
    }
  }

  /** A campaign group is a connected component with at least four members, and every
      message of such a component is reported, in that group. */
  lemma GroupsAreBigComponents(links: Graph, g: seq<nat>)
    requires links.Undirected()
    ensures g in BigEnough(Components(links)) <==>
            |g| >= MIN_GROUP && exists x: nat :: x < links.n && g == Component(links, x)
  {
    BigEnoughIs(Components(links), g);
    var all, firsts := Components(links), Firsts(links, links.n);
    if g in all {
      var i :| 0 <= i < |all| && all[i] == g;
      assert g == Component(links, firsts[i]);
    }
    if x: nat :| x < links.n && g == Component(links, x) {
      ComponentsPartition(links, x);
    }
  }
}
