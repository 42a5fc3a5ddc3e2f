/** Connected components of an undirected graph over 0..n-1, and what a union-find forest has to
    satisfy to have found them (ai/scripts/calibrate_match_threshold.py:111-125). */
module Connectivity {
  import opened Collections
  import opened Grouping
  import opened DisjointSets

  datatype Graph = Graph(n: nat, link: (nat, nat) -> bool) {
    ghost predicate Undirected() {
      && (forall a: nat, b: nat :: link(a, b) ==> link(b, a))
      && (forall a: nat, b: nat :: link(a, b) ==> a < n && b < n)
    }
  }

  ghost predicate ReachedIn(g: Graph, k: nat, a: nat, b: nat) {
    if k == 0 then a == b
    else exists c: nat :: g.link(a, c) && ReachedIn(g, k - 1, c, b)
  }

  ghost predicate Connected(g: Graph, a: nat, b: nat) {
    exists k: nat :: ReachedIn(g, k, a, b)
  }

  lemma {:induction false} ReachedTransitive(g: Graph, j: nat, k: nat, a: nat, b: nat, c: nat)
    requires ReachedIn(g, j, a, b) && ReachedIn(g, k, b, c)
    ensures ReachedIn(g, j + k, a, c)
  {
    if j > 0 {
      var d: nat :| g.link(a, d) && ReachedIn(g, j - 1, d, b);
      ReachedTransitive(g, j - 1, k, d, b, c);
    }
  }

  lemma LinkReaches(g: Graph, a: nat, b: nat)
    requires g.link(a, b)
    ensures ReachedIn(g, 1, a, b)
  {
    assert ReachedIn(g, 0, b, b);
  }

  lemma {:induction false} ReachedSymmetric(g: Graph, k: nat, a: nat, b: nat)
    requires g.Undirected()
    requires ReachedIn(g, k, a, b)
    ensures ReachedIn(g, k, b, a)
  {
    if k > 0 {
      var c: nat :| g.link(a, c) && ReachedIn(g, k - 1, c, b);
      ReachedSymmetric(g, k - 1, c, b);
      LinkReaches(g, c, a);
      ReachedTransitive(g, k - 1, 1, b, c, a);
    }
  }

  /** Being in one component is an equivalence. */
  lemma ConnectedIsEquivalence(g: Graph, a: nat, b: nat, c: nat)
    requires g.Undirected()
    ensures Connected(g, a, a)
    ensures Connected(g, a, b) ==> Connected(g, b, a)
    ensures Connected(g, a, b) && Connected(g, b, c) ==> Connected(g, a, c)
  {
    assert ReachedIn(g, 0, a, a);
    if Connected(g, a, b) {
      var j: nat :| ReachedIn(g, j, a, b);
      ReachedSymmetric(g, j, a, b);
      if Connected(g, b, c) {
        var k: nat :| ReachedIn(g, k, b, c);
        ReachedTransitive(g, j, k, a, b, c);
      }
    }
  }

  lemma LinkConnects(g: Graph, a: nat, b: nat)
    requires g.Undirected()
    requires g.link(a, b)
    ensures Connected(g, a, b) && Connected(g, b, a)
  {
    LinkReaches(g, a, b);
    ReachedSymmetric(g, 1, a, b);
  }

  /** Members of x's component among 0..m-1, in order. */
  ghost function Members(g: Graph, x: nat, m: nat): seq<nat> {
    if m == 0 then []
    else Members(g, x, m - 1) + if Connected(g, x, m - 1) then [m - 1] else []
  }

  ghost function Component(g: Graph, x: nat): seq<nat> {
    Members(g, x, g.n)
  }

  ghost predicate FirstOfComponent(g: Graph, x: nat) {
    forall y: nat :: y < x ==> !Connected(g, y, x)
  }

  /** The first node of every component that starts below m. */
  ghost function Firsts(g: Graph, m: nat): (r: seq<nat>)
    ensures forall i :: 0 <= i < |r| ==> r[i] < m
  {
    if m == 0 then []
    else Firsts(g, m - 1) + if FirstOfComponent(g, m - 1) then [m - 1] else []
  }

  /** All components, by their first node. */
  ghost function Components(g: Graph): seq<seq<nat>> {
    var firsts := Firsts(g, g.n);
    seq(|firsts|, i requires 0 <= i < |firsts| => Component(g, firsts[i]))
  }

  // ---------------------------------------------------------------- union-find roots and components

  /** Every node so far shares its representative only with nodes it is connected to. */
  ghost predicate Sound(g: Graph, root: seq<nat>) {
    && |root| == g.n
    && forall x: nat :: x < |root| ==> root[x] < |root| && Connected(g, x, root[x])
  }

  lemma AloneIsSound(g: Graph, root: seq<nat>)
    requires |root| == g.n && forall x :: 0 <= x < |root| ==> root[x] == x
    ensures Sound(g, root)
  {
    forall x: nat | x < |root| ensures Connected(g, x, root[x]) {
      assert ReachedIn(g, 0, x, x);
    }
  }

  ghost predicate LinksJoined(g: Graph, root: seq<nat>) {
    && |root| == g.n
    && forall a: nat, b: nat :: a < |root| && b < |root| && g.link(a, b) ==> root[a] == root[b]
  }

  lemma MergingStaysSound(g: Graph, root: seq<nat>, a: nat, b: nat)
    requires g.Undirected()
    requires Sound(g, root) && g.link(a, b)
    ensures Sound(g, Merged(root, root[a], root[b]))
  {
    var merged := Merged(root, root[a], root[b]);
    LinkConnects(g, a, b);
    forall x: nat | x < |root| ensures merged[x] < |root| && Connected(g, x, merged[x]) {
      if root[x] == root[b] {
        ConnectedIsEquivalence(g, b, root[b], x);
        ConnectedIsEquivalence(g, x, root[b], b);
        ConnectedIsEquivalence(g, x, b, a);
        ConnectedIsEquivalence(g, x, a, root[a]);
      }
    }
  }

  lemma SoundSize(g: Graph, root: seq<nat>)
    requires Sound(g, root)
    ensures |root| == g.n
  {}

  lemma {:induction false} ReachedShareRoot(g: Graph, root: seq<nat>, k: nat, a: nat, b: nat)
    requires g.Undirected()
    requires LinksJoined(g, root) && a < |root|
    requires ReachedIn(g, k, a, b)
    ensures b < |root| && root[a] == root[b]
  {
    if k > 0 {
      var c: nat :| g.link(a, c) && ReachedIn(g, k - 1, c, b);
      ReachedShareRoot(g, root, k - 1, c, b);
    }
  }

  /** The forest's classes are exactly the connected components. */
  ghost predicate Exact(g: Graph, root: seq<nat>) {
    && |root| == g.n
    && forall a: nat, b: nat :: a < |root| && b < |root| ==> (root[a] == root[b] <==> Connected(g, a, b))
  }

  lemma RootsAreExact(g: Graph, root: seq<nat>)
    requires g.Undirected()
    requires Sound(g, root) && LinksJoined(g, root)
    ensures Exact(g, root)
  {
    forall a: nat, b: nat | a < |root| && b < |root| ensures root[a] == root[b] <==> Connected(g, a, b) {
      if root[a] == root[b] {
        ConnectedIsEquivalence(g, b, root[b], a);
        ConnectedIsEquivalence(g, a, root[a], b);
      }
      if Connected(g, a, b) {
        var k: nat :| ReachedIn(g, k, a, b);
        ReachedShareRoot(g, root, k, a, b);
      }
    }
  }

  // ---------------------------------------------------------------- grouping by representative

  ghost function RootPairs(root: seq<nat>, m: nat): seq<(nat, nat)>
    requires m <= |root|
  {
    seq(m, i requires 0 <= i < m => (root[i], i))
  }

  lemma RootPairsStep(root: seq<nat>, m: nat)
    requires m < |root|
    ensures RootPairs(root, m + 1)[..m] == RootPairs(root, m)
    ensures GroupAll(RootPairs(root, m + 1)) == GroupAll(RootPairs(root, m)).Add(root[m], m)
    ensures forall k :: ValuesOf(RootPairs(root, m + 1), k)
                     == ValuesOf(RootPairs(root, m), k) + if root[m] == k then [m] else []
  {
    assert RootPairs(root, m + 1)[..m] == RootPairs(root, m);
  }

  lemma {:induction false} ValuesOfRoot(g: Graph, root: seq<nat>, x: nat, m: nat)
    requires Exact(g, root) && x < |root| && m <= |root|
    ensures ValuesOf(RootPairs(root, m), root[x]) == Members(g, x, m)
  {
    if m > 0 {
      RootPairsStep(root, m - 1);
      ValuesOfRoot(g, root, x, m - 1);
    }
  }

  /** New keys appear exactly at the first node of a component. */
  lemma {:induction false} KeysAreFirsts(g: Graph, root: seq<nat>, m: nat)
    requires Exact(g, root) && m <= |root|
    ensures var keys, firsts := GroupAll(RootPairs(root, m)).keys, Firsts(g, m);
            |keys| == |firsts| && forall i :: 0 <= i < |keys| ==> keys[i] == root[firsts[i]]
  {
    if m > 0 {
      KeysAreFirsts(g, root, m - 1);
      RootPairsStep(root, m - 1);
      GroupAllIsByKey(RootPairs(root, m - 1));
      hide GroupAll;
      NewKeyIsFirst(g, root, m - 1);
    }
  }

  lemma NewKeyIsFirst(g: Graph, root: seq<nat>, m: nat)
    requires Exact(g, root) && m < |root|
    ensures HasKey(RootPairs(root, m), root[m]) <==> !FirstOfComponent(g, m)
  {
    var pairs := RootPairs(root, m);
    if HasKey(pairs, root[m]) {
      var i :| 0 <= i < |pairs| && pairs[i].0 == root[m];
      assert Connected(g, i, m);
    }
    if !FirstOfComponent(g, m) {
      var y: nat :| y < m && Connected(g, y, m);
      assert pairs[y].0 == root[m];
    }
  }

  lemma ListsAreComponents(g: Graph, root: seq<nat>)
    requires Exact(g, root)
    ensures var groups, all := GroupAll(RootPairs(root, |root|)), Components(g);
            |groups.keys| == |all| &&
            forall i :: 0 <= i < |all| ==> groups.keys[i] in groups.lists && groups.lists[groups.keys[i]] == all[i]
  {
    var pairs := RootPairs(root, |root|);
    KeysAreFirsts(g, root, |root|);
    GroupAllIsByKey(pairs);
    hide GroupAll;
    var firsts := Firsts(g, g.n);
    forall i | 0 <= i < |firsts| ensures ValuesOf(pairs, root[firsts[i]]) == Component(g, firsts[i]) {
      ValuesOfRoot(g, root, firsts[i], |root|);
    }
    forall i | 0 <= i < |firsts| ensures HasKey(pairs, root[firsts[i]]) {
      assert pairs[firsts[i]].0 == root[firsts[i]];
    }
  }

  // ---------------------------------------------------------------- the components partition the nodes

  lemma {:induction false} MembersAre(g: Graph, x: nat, m: nat)
    ensures Increasing(Members(g, x, m))
    ensures forall y: nat :: y in Members(g, x, m) <==> y < m && Connected(g, x, y)
  {
    hide Connected;
    if m > 0 {
      MembersAre(g, x, m - 1);
      var rest := Members(g, x, m - 1);
      forall k | 0 <= k < |rest| ensures rest[k] < m - 1 {
        assert rest[k] in rest;
      }
    }
  }

  lemma {:induction false} FirstsAre(g: Graph, m: nat)
    ensures Increasing(Firsts(g, m))
    ensures forall x: nat :: x in Firsts(g, m) <==> x < m && FirstOfComponent(g, x)
  {
    hide FirstOfComponent;
    if m > 0 {
      FirstsAre(g, m - 1);
    }
  }

  lemma {:induction false} FirstConnectedExists(g: Graph, x: nat, y: nat)
    requires g.Undirected()
    requires y <= x && Connected(g, y, x)
    ensures exists z: nat :: z <= y && Connected(g, z, x) && FirstOfComponent(g, z)
    decreases y
  {
    if !FirstOfComponent(g, y) {
      var z: nat :| z < y && Connected(g, z, y);
      ConnectedIsEquivalence(g, z, y, x);
      FirstConnectedExists(g, x, z);
    }
  }

  /** Every node lies in exactly one component of the list, its own. */
  lemma ComponentsPartition(g: Graph, x: nat)
    requires g.Undirected()
    requires x < g.n
    ensures exists i :: 0 <= i < |Components(g)| && x in Components(g)[i]
    ensures forall i :: 0 <= i < |Components(g)| && x in Components(g)[i] ==>
              Components(g)[i] == Component(g, x)
    ensures forall i, j :: 0 <= i < j < |Components(g)| ==>
              !(x in Components(g)[i] && x in Components(g)[j])
  {
    var all, firsts := Components(g), Firsts(g, g.n);
    FirstsAre(g, g.n);
    ConnectedIsEquivalence(g, x, x, x);
    FirstConnectedExists(g, x, x);
    hide Connected, FirstOfComponent, Members;
    var z: nat :| z <= x && Connected(g, z, x) && FirstOfComponent(g, z);
    var i :| 0 <= i < |firsts| && firsts[i] == z;
    MembersAre(g, z, g.n);
    assert x in all[i];
    forall k | 0 <= k < |all| && x in all[k] ensures all[k] == Component(g, x) && firsts[k] == z {
      MembersAre(g, firsts[k], g.n);
      assert firsts[k] in firsts;
      SameFirst(g, firsts[k], z, x);
      SameComponent(g, z, x, g.n);
    }
  }

  lemma SameFirst(g: Graph, a: nat, b: nat, x: nat)
    requires g.Undirected()
    requires FirstOfComponent(g, a) && FirstOfComponent(g, b)
    requires Connected(g, a, x) && Connected(g, b, x)
    ensures a == b
  {
    ConnectedIsEquivalence(g, a, x, b);
    ConnectedIsEquivalence(g, b, x, a);
  }

  lemma {:induction false} SameComponent(g: Graph, a: nat, b: nat, m: nat)
    requires g.Undirected()
    requires Connected(g, a, b)
    ensures Members(g, a, m) == Members(g, b, m)
  {
    hide Connected;
    if m > 0 {
      SameComponent(g, a, b, m - 1);
      ConnectedIsEquivalence(g, b, a, m - 1);
      ConnectedIsEquivalence(g, a, b, m - 1);
    }
  }
}
