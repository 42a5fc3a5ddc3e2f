/** Which graphs are converted, said of their nodes and initializers
    (ai/scripts/make_android_portable_model.py:43-83). */
module PortableMeaning {
  import opened Grouping
  import opened PortableModel

  /** Initializer `i` is the one its name stands for: a later one replaces an earlier. */
  ghost predicate StandsFor(g: Graph, name: string, i: nat) {
    && i < |g.initializers| && g.initializers[i].name == name
    && forall j :: i < j < |g.initializers| ==> g.initializers[j].name != name
  }

  ghost predicate Signs(g: Graph, name: string) {
    exists i: nat :: StandsFor(g, name, i) && g.initializers[i].tensor.elem == Int8
  }

  ghost predicate Reads(g: Graph, name: string, n: nat, p: nat) {
    n < |g.nodes| && p < |g.nodes[n].inputs| && g.nodes[n].inputs[p] == name
  }

  ghost function SignedOnes(inits: seq<Initializer>): set<nat> {
    set i: nat | i < |inits| && inits[i].tensor.elem == Int8
  }

  lemma {:induction false} SignedOnesCounted(inits: seq<Initializer>)
    ensures SignedCount(inits) == |SignedOnes(inits)|
  {
    if inits == [] {
      assert SignedOnes(inits) == {};
    } else {
      var n := |inits| - 1;
      SignedOnesCounted(inits[..n]);
      assert SignedOnes(inits) == SignedOnes(inits[..n]) + if inits[n].tensor.elem == Int8 then {n} else {};
    }
  }

  lemma {:induction false} NameStandsFor(g: Graph, name: string, n: nat) returns (i: nat)
    requires n <= |g.initializers|
    ensures i <= n
    ensures name in ByName(g.initializers[..n]) <==> i < n
    ensures i < n ==> g.initializers[i].name == name && ByName(g.initializers[..n])[name] == g.initializers[i].tensor
    ensures forall j :: 0 <= j < n && g.initializers[j].name == name ==> j <= i < n
  {
    if n == 0 {
      i := 0;
    } else {
      var all, last := g.initializers[..n], g.initializers[n - 1];
      assert all[..n - 1] == g.initializers[..n - 1] && all[n - 1] == last;
      var before := NameStandsFor(g, name, n - 1);
      i := if last.name == name then n - 1 else if before < n - 1 then before else n;
    }
  }

  lemma NamedMeans(g: Graph, name: string)
    ensures var named := ByName(g.initializers);
            && (name in named <==> exists i: nat :: StandsFor(g, name, i))
            && (IsSigned(named, name) <==> Signs(g, name))
  {
    var n := |g.initializers|;
    assert g.initializers[..n] == g.initializers;
    var i := NameStandsFor(g, name, n);
    hide ByName;
    if i < n {
      assert StandsFor(g, name, i);
      forall j: nat | StandsFor(g, name, j) ensures j == i {}
    }
  }

  /** The uses of a name are the inputs that read it. */
  lemma {:induction false} UsesAre(nodes: seq<Node>, name: string, use: Use)
    ensures (name, use) in AllUses(nodes) <==>
            exists n: nat :: n < |nodes| && nodes[n].opType == use.0 && use.1 < |nodes[n].inputs| &&
                             nodes[n].inputs[use.1] == name
  {
    if nodes != [] {
      var rest, last := nodes[..|nodes| - 1], nodes[|nodes| - 1];
      UsesAre(rest, name, use);
      NodeUsesAre(last, name, use);
      hide NodeUses;
      assert forall n: nat :: n < |rest| ==> nodes[n] == rest[n];
      if n: nat :| n < |nodes| && nodes[n].opType == use.0 && use.1 < |nodes[n].inputs| &&
                   nodes[n].inputs[use.1] == name {
        assert n < |rest| ==> rest[n] == nodes[n];
      }
    }
  }

  lemma NodeUsesAre(node: Node, name: string, use: Use)
    ensures (name, use) in NodeUses(node) <==>
            node.opType == use.0 && use.1 < |node.inputs| && node.inputs[use.1] == name
  {
    if node.opType == use.0 && use.1 < |node.inputs| && node.inputs[use.1] == name {
      assert NodeUses(node)[use.1] == (name, use);
    }
  }

  /** Something reads `name`, and nothing but a MatMulInteger does, as matrix or as its zero point. */
  ghost predicate ReadRight(g: Graph, name: string) {
    && (exists n: nat, p: nat :: Reads(g, name, n, p))
    && (forall n: nat, p: nat :: Reads(g, name, n, p) ==>
          g.nodes[n].opType == "MatMulInteger" && (p == 1 || p == 3))
  }

  lemma InitializerMeans(g: Graph, init: Initializer)
    ensures InitializerAccepted(g.nodes, init) <==> (init.tensor.elem == Int8 ==> ReadRight(g, init.name))
  {
    var uses := ValuesOf(AllUses(g.nodes), init.name);
    forall use: Use
      ensures use in uses <==> exists n: nat :: Reads(g, init.name, n, use.1) && g.nodes[n].opType == use.0
    {
      ValuesOfMember(AllUses(g.nodes), init.name, use);
      UsesAre(g.nodes, init.name, use);
      hide AllUses, ValuesOf;
      if n: nat :| n < |g.nodes| && g.nodes[n].opType == use.0 && use.1 < |g.nodes[n].inputs| &&
                   g.nodes[n].inputs[use.1] == init.name {
        assert Reads(g, init.name, n, use.1);
      }
    }
    hide AllUses, ValuesOf;
    if uses != [] {
      var use: Use := uses[0];
      assert use in uses;
      var n: nat :| Reads(g, init.name, n, use.1) && g.nodes[n].opType == use.0;
      assert exists p: nat :: Reads(g, init.name, n, p);
    }
    forall n: nat, p: nat | Reads(g, init.name, n, p) ensures (g.nodes[n].opType, p) in uses {
      var use: Use := (g.nodes[n].opType, p);
      assert Reads(g, init.name, n, use.1) && g.nodes[n].opType == use.0;
    }
  }

  /** A MatMulInteger has an initializer for its matrix, and a signed one for its zero point if that is signed. */
  ghost predicate MatrixGiven(g: Graph, node: Node) {
    && |node.inputs| >= 2 && (exists i: nat :: StandsFor(g, node.inputs[1], i))
    && (Signs(g, node.inputs[1]) ==> |node.inputs| == 4 && Signs(g, node.inputs[3]))
  }

  lemma NodeMeans(g: Graph, node: Node)
    ensures NodeAccepted(ByName(g.initializers), node) <==> (node.opType == "MatMulInteger" ==> MatrixGiven(g, node))
  {
    hide ByName, StandsFor, Signs;
    if |node.inputs| >= 2 {
      NamedMeans(g, node.inputs[1]);
    }
    if |node.inputs| >= 4 {
      NamedMeans(g, node.inputs[3]);
    }
  }

  /** The graphs that are converted. */
  lemma AcceptedMeans(g: Graph)
    ensures Accepted(g) <==>
            && (forall node <- g.nodes :: node.opType == "MatMulInteger" ==> MatrixGiven(g, node))
            && (forall init <- g.initializers :: init.tensor.elem == Int8 ==> ReadRight(g, init.name))
            && |SignedOnes(g.initializers)| == 148
  {
    hide *;
    forall node ensures NodeAccepted(ByName(g.initializers), node) <==>
                        (node.opType == "MatMulInteger" ==> MatrixGiven(g, node))
    {
      NodeMeans(g, node);
    }
    forall init
      ensures InitializerAccepted(g.nodes, init) <==> (init.tensor.elem == Int8 ==> ReadRight(g, init.name))
    {
      InitializerMeans(g, init);
    }
    SignedOnesCounted(g.initializers);
    AcceptedIs(g);
  }

  lemma AcceptedIs(g: Graph)
    ensures Accepted(g) <==>
            && (forall node <- g.nodes :: NodeAccepted(ByName(g.initializers), node))
            && (forall init <- g.initializers :: InitializerAccepted(g.nodes, init))
            && SignedCount(g.initializers) == 148
  {
    hide NodeAccepted, InitializerAccepted, SignedCount;
  }
}
