/** What a graph computes, and that the re-encoding changes none of it
    (ai/scripts/make_android_portable_model.py:3-5). */
module GraphMeaning {
  import opened Wrappers
  import opened PortableModel

  datatype Value =
    | Bytes(tensor: Tensor)
    | Whole(dims: seq<nat>, ints: seq<int>)
    | Reals(dims: seq<nat>, reals: seq<real>)

  type Env = map<string, Value>

  /** For tensor dimensions, zero point dimensions and a cell: the zero point entry of that cell. */
  type Broadcast = (seq<nat>, seq<nat>, nat) -> nat

  /** The parts of MatMulInteger that never see an encoding: which zero point entry belongs to
      a cell, and the product of two centred operands, or its rejection.  They may be anything,
      so every rank, batching and overflow behaviour is covered. */
  datatype Kernel = Kernel(
    left: Broadcast,
    right: Broadcast,
    product: (seq<nat>, seq<int>, seq<nat>, seq<int>) -> Option<Value>)

  /** `other` is what every other operator computes: any function of the node and its inputs. */
  datatype Operators = Operators(matmul: Kernel, other: (Node, seq<Option<Value>>) -> Option<seq<Value>>)

  // ---------------------------------------------------------------- MatMulInteger

  function Element(t: Tensor, i: nat): int
    requires i < |t.bytes|
  {
    if t.elem == Int8 then Signed(t.bytes[i]) else t.bytes[i] as int
  }

  function Product(dims: seq<nat>): nat {
    if dims == [] then 1 else Product(dims[..|dims| - 1]) * dims[|dims| - 1]
  }

  predicate ByteTyped(t: Tensor) {
    (t.elem == Int8 || t.elem == UInt8) && |t.bytes| == Product(t.dims)
  }

  predicate ZeroPointFits(t: Tensor, z: Tensor, entry: Broadcast) {
    z.elem == t.elem && forall i: nat :: i < |t.bytes| ==> entry(t.dims, z.dims, i) < |z.bytes|
  }

  /** Every cell less its zero point; `None` where the operator rejects its inputs. */
  function Centred(t: Tensor, z: Option<Tensor>, entry: Broadcast): Option<seq<int>> {
    if !ByteTyped(t) then None
    else if z.None? then Some(seq(|t.bytes|, i requires 0 <= i < |t.bytes| => Element(t, i)))
    else if !ZeroPointFits(t, z.value, entry) then None
    else Some(LessZeroPoint(t, z.value, entry))
  }

  function LessZeroPoint(t: Tensor, z: Tensor, entry: Broadcast): (r: seq<int>)
    requires ZeroPointFits(t, z, entry)
    ensures |r| == |t.bytes|
    ensures forall i: nat :: i < |r| ==> r[i] == Element(t, i) - Element(z, entry(t.dims, z.dims, i))
  {
    seq(|t.bytes|, i requires 0 <= i < |t.bytes| => Element(t, i) - Element(z, entry(t.dims, z.dims, i)))
  }

  function MatMulInteger(k: Kernel, a: Tensor, b: Tensor, az: Option<Tensor>, bz: Option<Tensor>): Option<Value> {
    var left, right := Centred(a, az, k.left), Centred(b, bz, k.right);
    if left.None? || right.None? then None else k.product(a.dims, left.value, b.dims, right.value)
  }

  lemma ElementShifted(t: Tensor, i: nat)
    requires t.elem == Int8 && i < |t.bytes|
    ensures |Shifted(t).bytes| == |t.bytes| && Element(Shifted(t), i) == Element(t, i) + 128
  {
    FlipAdds128(t.bytes[i]);
  }

  lemma CentredUnchanged(b: Tensor, bz: Tensor, entry: Broadcast)
    requires b.elem == bz.elem == Int8
    ensures Centred(Shifted(b), Some(Shifted(bz)), entry) == Centred(b, Some(bz), entry)
  {
    hide Product, Element;
    if ByteTyped(b) && ZeroPointFits(b, bz, entry) {
      var before, after := LessZeroPoint(b, bz, entry), LessZeroPoint(Shifted(b), Shifted(bz), entry);
      forall i: nat | i < |b.bytes| ensures before[i] == after[i] {
        ElementShifted(b, i);
        ElementShifted(bz, entry(b.dims, bz.dims, i));
      }
      assert before == after;
    }
  }

  /** Shifting a signed matrix together with its zero point changes no product. */
  lemma MatMulUnchanged(k: Kernel, a: Tensor, b: Tensor, az: Option<Tensor>, bz: Tensor)
    requires b.elem == bz.elem == Int8
    ensures MatMulInteger(k, a, Shifted(b), az, Some(Shifted(bz))) == MatMulInteger(k, a, b, az, Some(bz))
  {
    CentredUnchanged(b, bz, k.right);
    hide Centred;
  }

  // ---------------------------------------------------------------- rows times a matrix

  /** The 32-bit accumulator. */
  function Int32(x: int): int {
    (x + 0x8000_0000) % 0x1_0000_0000 - 0x8000_0000
  }

  function At(s: seq<int>, i: int): int {
    if 0 <= i < |s| then s[i] else 0
  }

  /** Row `row` of `a` times column `col` of `b`, over the first `k` terms. */
  function Dot(a: seq<int>, b: seq<int>, row: nat, col: nat, depth: nat, cols: nat, k: nat): int {
    if k == 0 then 0
    else Dot(a, b, row, col, depth, cols, k - 1) + At(a, row * depth + k - 1) * At(b, (k - 1) * cols + col)
  }

  function Cell(a: seq<int>, b: seq<int>, depth: nat, cols: nat, t: nat): int {
    if cols == 0 then 0 else Int32(Dot(a, b, t / cols, t % cols, depth, cols, depth))
  }

  /** The product for a two-dimensional second operand, row-major. */
  function MatrixProduct(aDims: seq<nat>, a: seq<int>, bDims: seq<nat>, b: seq<int>): Option<Value> {
    if aDims == [] || |bDims| != 2 || aDims[|aDims| - 1] != bDims[0] then None
    else
      var depth, cols, outer := bDims[0], bDims[1], aDims[..|aDims| - 1];
      var cells := seq(Product(outer) * cols, t requires 0 <= t < Product(outer) * cols => Cell(a, b, depth, cols, t));
      Some(Whole(outer + [cols], cells))
  }

  /** One zero point for all, or one per row of the left and per column of the right operand. */
  function MatrixKernel(): Kernel {
    Kernel(
      (dims: seq<nat>, zero: seq<nat>, i: nat) =>
        if Product(zero) == 1 || dims == [] || dims[|dims| - 1] == 0 then 0 else i / dims[|dims| - 1],
      (dims: seq<nat>, zero: seq<nat>, i: nat) =>
        if Product(zero) == 1 || dims == [] || dims[|dims| - 1] == 0 then 0 else i % dims[|dims| - 1],
      MatrixProduct)
  }

  // ---------------------------------------------------------------- running a graph

  function Lookup(env: Env, name: string): Option<Value> {
    if name in env then Some(env[name]) else None
  }

  function Inputs(node: Node, env: Env): (r: seq<Option<Value>>)
    ensures |r| == |node.inputs| && forall p :: 0 <= p < |r| ==> r[p] == Lookup(env, node.inputs[p])
  {
    seq(|node.inputs|, p requires 0 <= p < |node.inputs| => Lookup(env, node.inputs[p]))
  }

  function ByteInput(inputs: seq<Option<Value>>, p: nat): Option<Tensor> {
    if p < |inputs| && inputs[p].Some? && inputs[p].value.Bytes? then Some(inputs[p].value.tensor) else None
  }

  predicate Present(inputs: seq<Option<Value>>, p: nat) {
    p < |inputs| && inputs[p].Some?
  }

  function EvalMatMul(k: Kernel, inputs: seq<Option<Value>>): Option<Value> {
    var a, b, az, bz := ByteInput(inputs, 0), ByteInput(inputs, 1), ByteInput(inputs, 2), ByteInput(inputs, 3);
    if a.None? || b.None? || (Present(inputs, 2) && az.None?) || (Present(inputs, 3) && bz.None?) then None
    else MatMulInteger(k, a.value, b.value, az, bz)
  }

  function EvalNode(node: Node, env: Env, operators: Operators): Option<seq<Value>> {
    var inputs := Inputs(node, env);
    if node.opType != MATMUL then operators.other(node, inputs)
    else
      var product := EvalMatMul(operators.matmul, inputs);
      if product.None? then None else Some([product.value])
  }

  function Bind(env: Env, names: seq<string>, values: seq<Value>): Env
    decreases |names|
  {
    if names == [] || values == [] then env
    else Bind(env[names[0] := values[0]], names[1..], values[1..])
  }

  /** Run the nodes in order; `None` when one of them fails. */
  function Execute(nodes: seq<Node>, env: Env, operators: Operators): Option<Env> {
    if nodes == [] then Some(env)
    else
      var values := EvalNode(nodes[0], env, operators);
      if values.None? then None else Execute(nodes[1..], Bind(env, nodes[0].outputs, values.value), operators)
  }

  /** Initializers are defaults: a caller's input of the same name overrides one. */
  function InitialEnv(inits: seq<Initializer>, inputs: Env): Env {
    (map name | name in ByName(inits) :: Bytes(ByName(inits)[name])) + inputs
  }

  function Run(g: Graph, inputs: Env, operators: Operators): Option<Env> {
    Execute(g.nodes, InitialEnv(g.initializers, inputs), operators)
  }

  function Converted(g: Graph): Graph {
    g.(initializers := ShiftAll(g.initializers))
  }

  // ---------------------------------------------------------------- nothing a node computes changes

  /** A valid ONNX graph: no node overwrites an initializer, and a matrix has the type of its
      zero point. */
  ghost predicate WellTyped(g: Graph) {
    var named := ByName(g.initializers);
    && (forall node <- g.nodes :: forall name <- node.outputs :: name !in named)
    && (forall node <- g.nodes :: ZeroPointTyped(named, node))
  }

  predicate ZeroPointTyped(named: map<string, Tensor>, node: Node) {
    node.opType == MATMUL && |node.inputs| >= 4 && node.inputs[1] in named && node.inputs[3] in named ==>
      (IsSigned(named, node.inputs[1]) <==> IsSigned(named, node.inputs[3]))
  }

  /** A caller overrides a signed matrix and its zero point both, or neither. */
  predicate OverridesTogether(named: map<string, Tensor>, inputs: Env, node: Node) {
    node.opType == MATMUL && |node.inputs| >= 4 && IsSigned(named, node.inputs[1]) ==>
      (node.inputs[1] in inputs <==> node.inputs[3] in inputs)
  }

  ghost predicate AllTogether(g: Graph, inputs: Env) {
    forall node <- g.nodes :: OverridesTogether(ByName(g.initializers), inputs, node)
  }

  /** The initializers whose value a run sees shifted. */
  predicate Shifts(named: map<string, Tensor>, inputs: Env, name: string) {
    IsSigned(named, name) && name !in inputs
  }

  /** The two runs hold the same values, except that signed initializers are shifted. */
  ghost predicate Agree(named: map<string, Tensor>, inputs: Env, env: Env, env': Env) {
    && env.Keys == env'.Keys
    && (forall name :: Shifts(named, inputs, name) ==> name in env)
    && forall name <- env :: SameOrShifted(named, inputs, name, env[name], env'[name])
  }

  predicate SameOrShifted(named: map<string, Tensor>, inputs: Env, name: string, v: Value, v': Value) {
    if Shifts(named, inputs, name) then v == Bytes(named[name]) && v' == Bytes(Shifted(named[name])) else v' == v
  }

  /** What acceptance and typing say about one node of an accepted graph. */
  ghost predicate NodeFine(named: map<string, Tensor>, node: Node) {
    && NodeAccepted(named, node) && ZeroPointTyped(named, node)
    && (forall p :: 0 <= p < |node.inputs| && IsSigned(named, node.inputs[p]) ==>
          node.opType == MATMUL && (p == 1 || p == 3))
    && (forall name <- node.outputs :: name !in named)
  }

  lemma AcceptedNodesAreFine(g: Graph, n: nat)
    requires Accepted(g) && WellTyped(g) && n < |g.nodes|
    ensures NodeFine(ByName(g.initializers), g.nodes[n])
  {
    var named := ByName(g.initializers);
    hide ByName, InitializerAccepted;
    forall p | 0 <= p < |g.nodes[n].inputs| && IsSigned(named, g.nodes[n].inputs[p])
      ensures g.nodes[n].opType == MATMUL && (p == 1 || p == 3)
    {
      SignedUsesAllowed(g, n, p);
    }
  }

  /** A node sees a shifted matrix and its shifted zero point, or nothing shifted at all. */
  lemma MatrixAndZeroPoint(named: map<string, Tensor>, inputs: Env, node: Node, p: nat)
    requires NodeFine(named, node) && OverridesTogether(named, inputs, node)
    requires p < |node.inputs| && Shifts(named, inputs, node.inputs[p])
    ensures node.opType == MATMUL && |node.inputs| == 4 && (p == 1 || p == 3)
    ensures Shifts(named, inputs, node.inputs[1]) && Shifts(named, inputs, node.inputs[3])
  {}

  lemma NodeUnchanged(named: map<string, Tensor>, inputs: Env, node: Node, env: Env, env': Env, operators: Operators)
    requires Agree(named, inputs, env, env') && NodeFine(named, node) && OverridesTogether(named, inputs, node)
    ensures EvalNode(node, env, operators) == EvalNode(node, env', operators)
  {
    var v, v' := Inputs(node, env), Inputs(node, env');
    forall p | 0 <= p < |node.inputs| && !Shifts(named, inputs, node.inputs[p]) ensures v[p] == v'[p] {}
    if p :| 0 <= p < |node.inputs| && Shifts(named, inputs, node.inputs[p]) {
      MatrixAndZeroPoint(named, inputs, node, p);
      forall q | 0 <= q < 4 && Shifts(named, inputs, node.inputs[q]) ensures q == 1 || q == 3 {
        MatrixAndZeroPoint(named, inputs, node, q);
      }
      ShiftedInput(named, inputs, node, env, env', 1);
      ShiftedInput(named, inputs, node, env, env', 3);
      hide *;
      EvalMatMulUnchanged(operators.matmul, v, v', named[node.inputs[1]], named[node.inputs[3]]);
      MatMulNode(node, env, env', operators);
    } else {
      assert v == v';
    }
  }

  lemma EvalMatMulUnchanged(k: Kernel, v: seq<Option<Value>>, v': seq<Option<Value>>, b: Tensor, bz: Tensor)
    requires |v| == |v'| == 4 && v[0] == v'[0] && v[2] == v'[2] && b.elem == bz.elem == Int8
    requires v[1] == Some(Bytes(b)) && v'[1] == Some(Bytes(Shifted(b)))
    requires v[3] == Some(Bytes(bz)) && v'[3] == Some(Bytes(Shifted(bz)))
    ensures EvalMatMul(k, v) == EvalMatMul(k, v')
  {
    hide MatMulInteger, Shifted;
    var a, az := ByteInput(v, 0), ByteInput(v, 2);
    if a.Some? {
      MatMulUnchanged(k, a.value, b, az, bz);
    }
  }

  lemma MatMulNode(node: Node, env: Env, env': Env, operators: Operators)
    requires node.opType == MATMUL
    requires EvalMatMul(operators.matmul, Inputs(node, env)) == EvalMatMul(operators.matmul, Inputs(node, env'))
    ensures EvalNode(node, env, operators) == EvalNode(node, env', operators)
  {
    hide EvalMatMul;
  }

  lemma ShiftedInput(named: map<string, Tensor>, inputs: Env, node: Node, env: Env, env': Env, p: nat)
    requires Agree(named, inputs, env, env') && p < |node.inputs| && Shifts(named, inputs, node.inputs[p])
    ensures var t := named[node.inputs[p]];
            t.elem == Int8 && Inputs(node, env)[p] == Some(Bytes(t)) && Inputs(node, env')[p] == Some(Bytes(Shifted(t)))
  {
    assert node.inputs[p] in env;
  }

  lemma {:induction false} BindAgrees(named: map<string, Tensor>, inputs: Env, env: Env, env': Env, names: seq<string>,
                                      values: seq<Value>)
    requires Agree(named, inputs, env, env') && forall name <- names :: name !in named
    ensures Agree(named, inputs, Bind(env, names, values), Bind(env', names, values))
    decreases |names|
  {
    if names != [] && values != [] {
      BindAgrees(named, inputs, env[names[0] := values[0]], env'[names[0] := values[0]], names[1..], values[1..]);
    }
  }

  ghost predicate RunsAgree(named: map<string, Tensor>, inputs: Env, r: Option<Env>, r': Option<Env>) {
    (r.None? && r'.None?) || (r.Some? && r'.Some? && Agree(named, inputs, r.value, r'.value))
  }

  lemma {:induction false} NodesUnchanged(named: map<string, Tensor>, inputs: Env, nodes: seq<Node>,
                                          env: Env, env': Env,
                                          operators: Operators)
    requires Agree(named, inputs, env, env')
    requires forall node <- nodes :: NodeFine(named, node) && OverridesTogether(named, inputs, node)
    ensures RunsAgree(named, inputs, Execute(nodes, env, operators), Execute(nodes, env', operators))
  {
    if nodes != [] {
      assert nodes[0] in nodes;
      assert forall name <- nodes[0].outputs :: name !in named;
      hide Agree, EvalNode, NodeFine, OverridesTogether, Bind;
      NodeUnchanged(named, inputs, nodes[0], env, env', operators);
      var values := EvalNode(nodes[0], env, operators);
      if values.Some? {
        BindAgrees(named, inputs, env, env', nodes[0].outputs, values.value);
        NodesUnchanged(named, inputs, nodes[1..], Bind(env, nodes[0].outputs, values.value),
                       Bind(env', nodes[0].outputs, values.value), operators);
      }
    }
  }

  lemma {:induction false} ShiftedByName(inits: seq<Initializer>)
    ensures ByName(ShiftAll(inits)).Keys == ByName(inits).Keys
    ensures forall name :: name in ByName(inits) ==> ByName(ShiftAll(inits))[name] == Shifted(ByName(inits)[name])
  {
    if inits != [] {
      ShiftedByName(inits[..|inits| - 1]);
      assert ShiftAll(inits)[..|inits| - 1] == ShiftAll(inits[..|inits| - 1]);
    }
  }

  lemma InitialAgrees(inits: seq<Initializer>, inputs: Env)
    ensures Agree(ByName(inits), inputs, InitialEnv(inits, inputs), InitialEnv(ShiftAll(inits), inputs))
    ensures InitialEnv(inits, inputs).Keys == inputs.Keys + ByName(inits).Keys
  {
    ShiftedByName(inits);
    hide ByName, ShiftAll, Shifted;
    forall name | name in InitialEnv(inits, inputs)
      ensures SameOrShifted(ByName(inits), inputs, name, InitialEnv(inits, inputs)[name],
                            InitialEnv(ShiftAll(inits), inputs)[name])
    {
      UnsignedStays(ByName(inits), name);
    }
  }

  lemma UnsignedStays(named: map<string, Tensor>, name: string)
    ensures name in named && !IsSigned(named, name) ==> Shifted(named[name]) == named[name]
  {}

  /** Whenever the conversion raises no error on a valid graph, every value computed by any
      node is the same as before, for all inputs, every MatMulInteger and whatever the other
      operators do: the two runs fail together, and otherwise differ only in the shifted
      initializers.  (A caller that overrides none of them overrides them together.) */
  lemma ConversionPreservesMeaning(g: Graph, inputs: Env, operators: Operators)
    requires Accepted(g) && WellTyped(g) && AllTogether(g, inputs)
    ensures RunsAgree(ByName(g.initializers), inputs, Run(g, inputs, operators), Run(Converted(g), inputs, operators))
  {
    var named := ByName(g.initializers);
    forall n | 0 <= n < |g.nodes| ensures NodeFine(named, g.nodes[n]) {
      AcceptedNodesAreFine(g, n);
    }
    InitialAgrees(g.initializers, inputs);
    hide Accepted, WellTyped, InitialEnv, ByName, NodeFine, OverridesTogether, Agree;
    NodesUnchanged(named, inputs, g.nodes, InitialEnv(g.initializers, inputs),
                   InitialEnv(ShiftAll(g.initializers), inputs), operators);
  }

  // ---------------------------------------------------------------- overriding half a matrix

  /** Inputs have the type the graph declares: what replaces a signed initializer is signed. */
  ghost predicate InputsTyped(named: map<string, Tensor>, inputs: Env) {
    forall name <- inputs :: IsSigned(named, name) ==> inputs[name].Bytes? && inputs[name].tensor.elem == Int8
  }

  /** The environment still has every initializer of the converted graph, or what overrides it. */
  ghost predicate HoldsInitializers(named: map<string, Tensor>, inputs: Env, env: Env) {
    forall name <- named :: name in env &&
      env[name] == if name in inputs then inputs[name] else Bytes(Shifted(named[name]))
  }

  lemma {:induction false} BindHolds(named: map<string, Tensor>, inputs: Env, env: Env, names: seq<string>,
                                     values: seq<Value>)
    requires HoldsInitializers(named, inputs, env) && forall name <- names :: name !in named
    ensures HoldsInitializers(named, inputs, Bind(env, names, values))
    decreases |names|
  {
    hide Shifted;
    if names != [] && values != [] {
      BindHolds(named, inputs, env[names[0] := values[0]], names[1..], values[1..]);
    }
  }

  /** Half of it signed, half shifted: the operator rejects it. */
  lemma HalfOverriddenFails(named: map<string, Tensor>, inputs: Env, node: Node, env: Env, operators: Operators)
    requires NodeFine(named, node) && HoldsInitializers(named, inputs, env) && InputsTyped(named, inputs)
    requires !OverridesTogether(named, inputs, node)
    ensures EvalNode(node, env, operators).None?
  {
    var v := Inputs(node, env);
    assert |node.inputs| == 4;
    assert v[1] == Lookup(env, node.inputs[1]) && v[3] == Lookup(env, node.inputs[3]);
    assert ByteInput(v, 1).Some? && ByteInput(v, 3).Some?;
    hide Flip, HoldsInitializers, InputsTyped;
    assert ByteInput(v, 1).value.elem != ByteInput(v, 3).value.elem;
  }

  lemma {:induction false} RunFails(named: map<string, Tensor>, inputs: Env, nodes: seq<Node>, n: nat, env: Env,
                                    operators: Operators)
    requires n < |nodes| && forall node <- nodes :: NodeFine(named, node)
    requires HoldsInitializers(named, inputs, env) && InputsTyped(named, inputs)
    requires !OverridesTogether(named, inputs, nodes[n])
    ensures Execute(nodes, env, operators).None?
  {
    assert nodes[0] in nodes;
    assert forall name <- nodes[0].outputs :: name !in named;
    hide HoldsInitializers, InputsTyped, NodeFine, OverridesTogether, EvalNode, Bind;
    if n == 0 {
      HalfOverriddenFails(named, inputs, nodes[0], env, operators);
    } else {
      var values := EvalNode(nodes[0], env, operators);
      if values.Some? {
        BindHolds(named, inputs, env, nodes[0].outputs, values.value);
        RunFails(named, inputs, nodes[1..], n - 1, Bind(env, nodes[0].outputs, values.value), operators);
      }
    }
  }

  lemma ConvertedHolds(inits: seq<Initializer>, inputs: Env)
    ensures HoldsInitializers(ByName(inits), inputs, InitialEnv(ShiftAll(inits), inputs))
  {
    ShiftedByName(inits);
    hide ByName, ShiftAll, Shifted;
  }

  /** With inputs of the declared types, the converted graph runs where the original does exactly
      if the caller overrides no signed matrix without its zero point, nor the other way round. */
  lemma RunsExactlyWhen(g: Graph, inputs: Env, operators: Operators)
    requires Accepted(g) && WellTyped(g) && InputsTyped(ByName(g.initializers), inputs)
    requires Run(g, inputs, operators).Some?
    ensures Run(Converted(g), inputs, operators).Some? <==> AllTogether(g, inputs)
  {
    if AllTogether(g, inputs) {
      ConversionPreservesMeaning(g, inputs, operators);
    } else {
      var named := ByName(g.initializers);
      forall n | 0 <= n < |g.nodes| ensures NodeFine(named, g.nodes[n]) {
        AcceptedNodesAreFine(g, n);
      }
      hide Accepted, WellTyped, InitialEnv, ByName, NodeFine, OverridesTogether, InputsTyped;
      ConvertedHolds(g.initializers, inputs);
      var n :| 0 <= n < |g.nodes| && !OverridesTogether(named, inputs, g.nodes[n]);
      RunFails(named, inputs, g.nodes, n, InitialEnv(ShiftAll(g.initializers), inputs), operators);
    }
  }

  // ---------------------------------------------------------------- the graph's own outputs

  function GraphOutputs(g: Graph, env: Env): (r: seq<Option<Value>>)
    ensures |r| == |g.outputs| && forall i :: 0 <= i < |r| ==> r[i] == Lookup(env, g.outputs[i])
  {
    seq(|g.outputs|, i requires 0 <= i < |g.outputs| => Lookup(env, g.outputs[i]))
  }

  /** The consumer check looks at node inputs only.  So the model's own outputs are kept
      exactly when none of them is, itself, a signed initializer. */
  lemma OutputsKeptExactlyWhen(g: Graph, inputs: Env, operators: Operators)
    requires Accepted(g) && WellTyped(g) && AllTogether(g, inputs)
    requires Run(g, inputs, operators).Some?
    ensures var run' := Run(Converted(g), inputs, operators);
            run'.Some? &&
            (GraphOutputs(g, Run(g, inputs, operators).value) == GraphOutputs(Converted(g), run'.value) <==>
             forall name <- g.outputs :: !Shifts(ByName(g.initializers), inputs, name))
  {
    ConversionPreservesMeaning(g, inputs, operators);
    var named := ByName(g.initializers);
    var env, env' := Run(g, inputs, operators).value, Run(Converted(g), inputs, operators).value;
    hide Accepted, WellTyped, AllTogether, Run, ByName;
    var before, after := GraphOutputs(g, env), GraphOutputs(Converted(g), env');
    forall i | 0 <= i < |g.outputs| ensures before[i] == after[i] <==> !Shifts(named, inputs, g.outputs[i]) {
      OutputKept(named, inputs, env, env', g.outputs[i]);
    }
    hide Shifts, Agree;
    if before == after {
      forall name | name in g.outputs ensures !Shifts(named, inputs, name) {
        var i :| 0 <= i < |g.outputs| && g.outputs[i] == name;
        assert before[i] == after[i];
      }
    }
  }

  lemma OutputKept(named: map<string, Tensor>, inputs: Env, env: Env, env': Env, name: string)
    requires Agree(named, inputs, env, env')
    ensures Lookup(env, name) == Lookup(env', name) <==> !Shifts(named, inputs, name)
  {
    if Shifts(named, inputs, name) {
      assert name in env;
      assert Shifted(named[name]).elem == UInt8;
    }
  }
}
