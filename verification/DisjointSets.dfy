/** The union-find inside `find_campaign_groups`: one `parent` list, path halving, no ranks
    (ai/scripts/calibrate_match_threshold.py:93-104). */
module DisjointSets {

  /** What holds at element `x`: `root[x]` is its representative, and ranks grow along links. */
  ghost predicate NodeOk(p: seq<nat>, root: seq<nat>, rank: seq<nat>, top: nat, x: nat)
    requires |p| == |root| == |rank| && x < |p|
  {
    && p[x] < |p| && root[x] < |p| && rank[x] <= top
    && (p[x] == x ==> root[x] == x)
    && root[p[x]] == root[x]
    && p[root[x]] == root[x]
    && (p[x] != x ==> rank[x] < rank[p[x]])
  }

  ghost predicate ForestOk(p: seq<nat>, root: seq<nat>, rank: seq<nat>, top: nat) {
    && |p| == |root| == |rank|
    && forall x: nat :: x < |p| ==> NodeOk(p, root, rank, top, x)
  }

  /** Path halving changes no representative. */
  lemma HalvingKeepsRoots(p: seq<nat>, root: seq<nat>, rank: seq<nat>, top: nat, y: nat)
    requires ForestOk(p, root, rank, top) && y < |p| && p[y] != y
    ensures p[y] < |p| && p[p[y]] < |p| && p[p[y]] != y
    ensures ForestOk(p[y := p[p[y]]], root, rank, top)
    ensures rank[y] < rank[p[p[y]]] <= top && root[p[p[y]]] == root[y]
  {
    assert NodeOk(p, root, rank, top, y);
    assert NodeOk(p, root, rank, top, p[y]);
    assert NodeOk(p, root, rank, top, p[p[y]]);
    var q := p[y := p[p[y]]];
    forall x: nat | x < |q| ensures NodeOk(q, root, rank, top, x) {
      assert NodeOk(p, root, rank, top, x);
    }
  }

  /** The representatives after the class of `rb` is hung below `ra`. */
  ghost function Merged(root: seq<nat>, ra: nat, rb: nat): (r: seq<nat>)
    ensures |r| == |root|
    ensures forall x :: 0 <= x < |root| ==> r[x] == if root[x] == rb then ra else root[x]
  {
    seq(|root|, x requires 0 <= x < |root| => if root[x] == rb then ra else root[x])
  }

  ghost function Raised(rank: seq<nat>, ra: nat, rb: nat): seq<nat>
    requires ra < |rank| && rb < |rank|
  {
    rank[ra := if rank[ra] <= rank[rb] then rank[rb] + 1 else rank[ra]]
  }

  lemma LinkingMergesRoots(p: seq<nat>, root: seq<nat>, rank: seq<nat>, top: nat, ra: nat, rb: nat)
    requires ForestOk(p, root, rank, top) && ra < |p| && rb < |p| && ra != rb
    requires root[ra] == ra && root[rb] == rb
    ensures ForestOk(p[rb := ra], Merged(root, ra, rb), Raised(rank, ra, rb), top + 1)
  {
    assert NodeOk(p, root, rank, top, ra) && NodeOk(p, root, rank, top, rb);
    var q, root', rank', top' := p[rb := ra], Merged(root, ra, rb), Raised(rank, ra, rb), top + 1;
    forall x: nat | x < |q| ensures NodeOk(q, root', rank', top', x) {
      assert NodeOk(p, root, rank, top, x);
    }
  }

  class Forest {
    const parent: array<nat>

    /** The representative of every element: what `find` must return. */
    ghost var root: seq<nat>
    /** Grows along parent links, so that every walk ends. */
    ghost var rank: seq<nat>
    ghost var top: nat

    ghost predicate Valid()
      reads this, parent
    {
      ForestOk(parent[..], root, rank, top)
    }

    /** `parent = list(range(n))`: everyone alone. */
    constructor (n: nat)
      ensures Valid() && fresh(parent)
      ensures |root| == n && forall x :: 0 <= x < n ==> root[x] == x
    {
      parent := new nat[n](i => i);
      root := seq(n, i => i);
      rank := seq(n, i => 0);
      top := 0;
    }

    /** Walk to the representative, halving the path on the way.  No representative changes. */
    method Find(x: nat) returns (r: nat)
      requires Valid() && x < |root|
      modifies parent
      ensures Valid()
      ensures r == root[x] && r < |root| && root[r] == r
    {
      r := x;
      assert NodeOk(parent[..], root, rank, top, x);
      while parent[r] != r
        invariant Valid() && r < |root| && root[r] == root[x] && rank[r] <= top
        decreases top - rank[r]
      {
        HalvingKeepsRoots(parent[..], root, rank, top, r);
        ghost var halved := parent[..][r := parent[parent[r]]];
        parent[r] := parent[parent[r]];
        assert parent[..] == halved;
        r := parent[r];
      }
      assert NodeOk(parent[..], root, rank, top, r);
    }

    /** Hang the class of `b` below the representative of `a`. */
    method Union(a: nat, b: nat)
      requires Valid() && a < |root| && b < |root|
      modifies this, parent
      ensures Valid()
      ensures root == Merged(old(root), old(root)[a], old(root)[b])
    {
      var ra := Find(a);
      var rb := Find(b);
      if ra != rb {
        LinkingMergesRoots(parent[..], root, rank, top, ra, rb);
        ghost var linked := parent[..][rb := ra];
        parent[rb] := ra;
        assert parent[..] == linked;
        root, rank, top := Merged(root, ra, rb), Raised(rank, ra, rb), top + 1;
      } else {
        assert root == Merged(root, ra, rb);
      }
    }
  }
}
