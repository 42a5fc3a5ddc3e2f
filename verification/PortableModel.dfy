/** Re-encoding signed MatMulInteger weights as unsigned bytes
    (ai/scripts/make_android_portable_model.py).

    `Convert` is the check-and-rewrite loop of `main`.  What the rewritten graph computes is
    the subject of `GraphMeaning`. */
module PortableModel {
  import opened Wrappers
  import opened Grouping

  type Byte = bv8

  datatype ElemType = Int8 | UInt8 | OtherType(code: nat)

  /** One byte per element for the two 8-bit types. */
  datatype Tensor = Tensor(elem: ElemType, dims: seq<nat>, bytes: seq<Byte>)

  datatype Initializer = Initializer(name: string, tensor: Tensor)

  datatype Node = Node(opType: string, inputs: seq<string>, outputs: seq<string>)

  datatype Graph = Graph(initializers: seq<Initializer>, nodes: seq<Node>, outputs: seq<string>)

  datatype ConversionError =
    | MissingInitializer
    | SignedZeroPointRequired
    | UnexpectedConsumers(name: string)
    | NonExactOffset(name: string)
    | UnexpectedTensorCount(n: nat)

  const MATMUL := "MatMulInteger"
  const EXPECTED_TENSORS := 148

  type Use = (string, nat)

  // ---------------------------------------------------------------- conversion

  function Flip(bytes: seq<Byte>): (r: seq<Byte>)
    ensures |r| == |bytes| && forall i :: 0 <= i < |bytes| ==> r[i] == bytes[i] ^ 128
  {
    seq(|bytes|, i requires 0 <= i < |bytes| => bytes[i] ^ 128)
  }

  function Shifted(t: Tensor): Tensor {
    if t.elem == Int8 then Tensor(UInt8, t.dims, Flip(t.bytes)) else t
  }

  function ShiftAll(inits: seq<Initializer>): (r: seq<Initializer>)
    ensures |r| == |inits|
    ensures forall i :: 0 <= i < |inits| ==> r[i] == Initializer(inits[i].name, Shifted(inits[i].tensor))
  {
    seq(|inits|, i requires 0 <= i < |inits| => Initializer(inits[i].name, Shifted(inits[i].tensor)))
  }

  function SignedCount(inits: seq<Initializer>): nat {
    if inits == [] then 0
    else SignedCount(inits[..|inits| - 1]) + if inits[|inits| - 1].tensor.elem == Int8 then 1 else 0
  }

  /** `{tensor.name: tensor for ...}`. */
  function ByName(inits: seq<Initializer>): map<string, Tensor> {
    if inits == [] then map[]
    else
      var last := inits[|inits| - 1];
      ByName(inits[..|inits| - 1])[last.name := last.tensor]
  }

  function NodeUses(node: Node): (r: seq<(string, Use)>)
    ensures |r| == |node.inputs|
  {
    seq(|node.inputs|, p requires 0 <= p < |node.inputs| => (node.inputs[p], (node.opType, p)))
  }

  function AllUses(nodes: seq<Node>): seq<(string, Use)> {
    if nodes == [] then [] else AllUses(nodes[..|nodes| - 1]) + NodeUses(nodes[|nodes| - 1])
  }

  predicate AllowedUse(use: Use) {
    use == (MATMUL, 1) || use == (MATMUL, 3)
  }

  /** What the first loop demands of a node. */
  predicate NodeAccepted(named: map<string, Tensor>, node: Node) {
    node.opType == MATMUL ==>
      && |node.inputs| >= 2 && node.inputs[1] in named
      && (named[node.inputs[1]].elem == Int8 ==>
            |node.inputs| == 4 && node.inputs[3] in named && named[node.inputs[3]].elem == Int8)
  }

  /** What the second loop demands of an initializer. */
  predicate InitializerAccepted(nodes: seq<Node>, init: Initializer) {
    init.tensor.elem == Int8 ==>
      var uses := ValuesOf(AllUses(nodes), init.name);
      uses != [] && forall use <- uses :: AllowedUse(use)
  }

  predicate Accepted(g: Graph) {
    && (forall node <- g.nodes :: NodeAccepted(ByName(g.initializers), node))
    && (forall init <- g.initializers :: InitializerAccepted(g.nodes, init))
    && SignedCount(g.initializers) == EXPECTED_TENSORS
  }

  /** The loops of `main` from the use map to the rewritten model. */
  method Convert(g: Graph) returns (r: Result<Graph, ConversionError>)
    ensures r.Ok? <==> Accepted(g)
    ensures r.Ok? ==> r.value == g.(initializers := ShiftAll(g.initializers))
    ensures r.Err? ==> !r.error.NonExactOffset?
  {
    hide NodeAccepted, InitializerAccepted;
    var uses := CollectUses(ByName(g.initializers), g.nodes);
    if uses.Err? {
      return Err(uses.error);
    }
    var inits := RewriteTensors(g.nodes, uses.value, g.initializers);
    if inits.Err? {
      return Err(inits.error);
    }
    return Ok(g.(initializers := inits.value));
  }

  /** First loop: who uses which tensor, and is every signed matrix centred explicitly? */
  method CollectUses(named: map<string, Tensor>, nodes: seq<Node>)
    returns (r: Result<Groups<string, Use>, ConversionError>)
    ensures r.Ok? <==> forall node <- nodes :: NodeAccepted(named, node)
    ensures r.Ok? ==> r.value == GroupAll(AllUses(nodes))
    ensures r.Err? ==> !r.error.NonExactOffset?
  {
    hide NodeAccepted;
    var uses: Groups<string, Use> := NoGroups();
    for n := 0 to |nodes|
      invariant uses == GroupAll(AllUses(nodes[..n]))
      invariant forall m :: 0 <= m < n ==> NodeAccepted(named, nodes[m])
    {
      uses := AddUses(uses, nodes[..n], nodes[n]);
      assert nodes[..n + 1] == nodes[..n] + [nodes[n]];
      var problem := CheckNode(named, nodes[n]);
      if problem.Some? {
        return Err(problem.value);
      }
    }
    assert nodes[..|nodes|] == nodes;
    return Ok(uses);
  }

  method CheckNode(named: map<string, Tensor>, node: Node) returns (problem: Option<ConversionError>)
    ensures problem.None? <==> NodeAccepted(named, node)
    ensures problem.Some? ==> !problem.value.NonExactOffset?
  {
    if node.opType == MATMUL {
      if |node.inputs| < 2 || node.inputs[1] !in named {
        return Some(MissingInitializer);
      }
      if named[node.inputs[1]].elem == Int8 {
        if |node.inputs| != 4 {
          return Some(SignedZeroPointRequired);
        }
        if node.inputs[3] !in named {
          return Some(MissingInitializer);
        }
        if named[node.inputs[3]].elem != Int8 {
          return Some(SignedZeroPointRequired);
        }
      }
    }
    return None;
  }

  /** Second loop: overwrite every signed initializer in place. */
  method RewriteTensors(nodes: seq<Node>, uses: Groups<string, Use>, initializers: seq<Initializer>)
    returns (r: Result<seq<Initializer>, ConversionError>)
    requires uses == GroupAll(AllUses(nodes))
    ensures r.Ok? <==> (forall init <- initializers :: InitializerAccepted(nodes, init))
                       && SignedCount(initializers) == EXPECTED_TENSORS
    ensures r.Ok? ==> r.value == ShiftAll(initializers)
    ensures r.Err? ==> !r.error.NonExactOffset?
  {
    hide AllUses, GroupAll, InitializerAccepted;
    var inits, converted := initializers, 0;
    for i := 0 to |inits|
      invariant |inits| == |initializers|
      invariant converted == SignedCount(initializers[..i])
      invariant forall m :: 0 <= m < i ==> InitializerAccepted(nodes, initializers[m])
      invariant forall m :: 0 <= m < i ==> inits[m] == ShiftAll(initializers)[m]
      invariant forall m :: i <= m < |inits| ==> inits[m] == initializers[m]
    {
      assert initializers[..i + 1][..i] == initializers[..i];
      var next := RewriteTensor(nodes, uses, inits[i]);
      if next.Err? {
        return Err(next.error);
      }
      converted := converted + if inits[i].tensor.elem == Int8 then 1 else 0;
      inits := inits[i := next.value];
    }
    assert initializers[..|inits|] == initializers;
    if converted != EXPECTED_TENSORS {
      return Err(UnexpectedTensorCount(converted));
    }
    assert inits == ShiftAll(initializers);
    return Ok(inits);
  }

  method RewriteTensor(nodes: seq<Node>, uses: Groups<string, Use>, init: Initializer)
    returns (r: Result<Initializer, ConversionError>)
    requires uses == GroupAll(AllUses(nodes))
    ensures r.Ok? <==> InitializerAccepted(nodes, init)
    ensures r.Ok? ==> r.value == Initializer(init.name, Shifted(init.tensor))
    ensures r.Err? ==> !r.error.NonExactOffset?
  {
    if init.tensor.elem != Int8 {
      return Ok(init);
    }
    GroupAllIsByKey(AllUses(nodes));
    hide GroupAll, AllUses;
    var mine := if init.name in uses.lists then uses.lists[init.name] else [];
    assert mine == ValuesOf(AllUses(nodes), init.name);
    if mine == [] || exists use <- mine :: !AllowedUse(use) {
      return Err(UnexpectedConsumers(init.name));
    }
    var unsigned := Flip(init.tensor.bytes);
    FlipIsExact(init.tensor.bytes);
    if exists k :: 0 <= k < |unsigned| && unsigned[k] as int - 128 != Signed(init.tensor.bytes[k]) {
      return Err(NonExactOffset(init.name));
    }
    return Ok(Initializer(init.name, Tensor(UInt8, init.tensor.dims, unsigned)));
  }

  method AddUses(before: Groups<string, Use>, ghost nodes: seq<Node>, node: Node)
    returns (uses: Groups<string, Use>)
    requires before == GroupAll(AllUses(nodes))
    ensures uses == GroupAll(AllUses(nodes + [node]))
  {
    assert AllUses(nodes + [node]) == AllUses(nodes) + NodeUses(node) by {
      assert (nodes + [node])[..|nodes|] == nodes;
    }
    hide AllUses, GroupAll;
    ghost var earlier, mine := AllUses(nodes), NodeUses(node);
    uses := before;
    assert earlier + mine[..0] == earlier;
    for p := 0 to |node.inputs|
      invariant uses == GroupAll(earlier + mine[..p])
    {
      OneMoreUse(earlier, node, p);
      uses := uses.Add(node.inputs[p], (node.opType, p));
    }
    assert mine[..|node.inputs|] == mine;
  }

  lemma OneMoreUse(earlier: seq<(string, Use)>, node: Node, p: nat)
    requires p < |node.inputs|
    ensures GroupAll(earlier + NodeUses(node)[..p + 1])
         == GroupAll(earlier + NodeUses(node)[..p]).Add(node.inputs[p], (node.opType, p))
  {
    var mine := NodeUses(node);
    assert earlier + mine[..p + 1] == (earlier + mine[..p]) + [mine[p]];
    GroupAllStep(earlier + mine[..p], node.inputs[p], (node.opType, p));
  }

  /** Byte value read as signed. */
  function Signed(b: Byte): int {
    if b < 128 then b as int else b as int - 256
  }

  /** Xor with 128 on the byte is adding 128 to the signed value. */
  lemma FlipAdds128(b: Byte)
    ensures (b ^ 128) as int - 128 == Signed(b)
  {
    if b < 128 {
      assert b ^ 128 == b + 128;
      assert (b + 128) as int == b as int + 128;
    } else {
      assert b ^ 128 == b - 128;
      assert (b - 128) as int == b as int - 128;
    }
  }

  lemma FlipIsExact(bytes: seq<Byte>)
    ensures forall k :: 0 <= k < |bytes| ==> Flip(bytes)[k] as int - 128 == Signed(bytes[k])
  {
    forall k | 0 <= k < |bytes| ensures Flip(bytes)[k] as int - 128 == Signed(bytes[k]) {
      FlipAdds128(bytes[k]);
    }
  }

  predicate IsSigned(named: map<string, Tensor>, name: string) {
    name in named && named[name].elem == Int8
  }

  // ---------------------------------------------------------------- who sees a signed initializer

  lemma {:induction false} ByNameFinds(inits: seq<Initializer>, name: string)
    ensures name in ByName(inits) ==> exists i :: 0 <= i < |inits| && inits[i] == Initializer(name, ByName(inits)[name])
  {
    if inits != [] && name in ByName(inits) {
      var last := inits[|inits| - 1];
      if last.name != name {
        ByNameFinds(inits[..|inits| - 1], name);
      }
    }
  }

  lemma {:induction false} UseIsListed(nodes: seq<Node>, n: nat, p: nat)
    requires n < |nodes| && p < |nodes[n].inputs|
    ensures exists i :: 0 <= i < |AllUses(nodes)| && AllUses(nodes)[i] == (nodes[n].inputs[p], (nodes[n].opType, p))
  {
    var rest, last := nodes[..|nodes| - 1], nodes[|nodes| - 1];
    if n < |nodes| - 1 {
      UseIsListed(rest, n, p);
      var i :| 0 <= i < |AllUses(rest)| && AllUses(rest)[i] == (nodes[n].inputs[p], (nodes[n].opType, p));
      assert AllUses(nodes)[i] == AllUses(rest)[i];
    } else {
      assert AllUses(nodes)[|AllUses(rest)| + p] == NodeUses(last)[p];
    }
  }

  /** A signed initializer is read only as matrix or zero point of a MatMulInteger. */
  lemma SignedUsesAllowed(g: Graph, n: nat, p: nat)
    requires Accepted(g) && n < |g.nodes| && p < |g.nodes[n].inputs|
    requires IsSigned(ByName(g.initializers), g.nodes[n].inputs[p])
    ensures g.nodes[n].opType == MATMUL && (p == 1 || p == 3)
  {
    var name := g.nodes[n].inputs[p];
    ByNameFinds(g.initializers, name);
    var k :| 0 <= k < |g.initializers| && g.initializers[k] == Initializer(name, ByName(g.initializers)[name]);
    assert InitializerAccepted(g.nodes, g.initializers[k]);
    UseIsListed(g.nodes, n, p);
    var i :| 0 <= i < |AllUses(g.nodes)| && AllUses(g.nodes)[i] == (name, (g.nodes[n].opType, p));
    ValuesOfMember(AllUses(g.nodes), name, (g.nodes[n].opType, p));
    assert AllowedUse((g.nodes[n].opType, p));
  }
}
