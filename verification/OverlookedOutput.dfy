/** A graph the re-encoding accepts and whose outputs it changes: 147 one-by-one products that
    share a signed zero point, which the graph also returns.  A caller that overrides the zero point
    alone cannot run it any more
    (ai/scripts/make_android_portable_model.py:46-69). */
module OverlookedOutput {
  import opened Wrappers
  import opened Collections
  import opened Grouping
  import opened PortableModel
  import opened GraphMeaning

  const MATRICES := 147

  function MatrixName(i: nat): string { Repeat('w', i + 1) }

  function ResultName(i: nat): string { Repeat('y', i + 1) }

  function InputName(): string { "x" }

  function ZeroName(): string { "z" }

  function One(elem: ElemType): Tensor {
    Tensor(elem, [1, 1], [1])
  }

  function SharedZero(): Tensor {
    Tensor(Int8, [], [0])
  }

  function ProductNode(i: nat): Node {
    Node(MATMUL, [InputName(), MatrixName(i), "", ZeroName()], [ResultName(i)])
  }

  function Matrices(n: nat): (r: seq<Initializer>)
    ensures |r| == n && forall i :: 0 <= i < n ==> r[i] == Initializer(MatrixName(i), One(Int8))
  {
    seq(n, i requires 0 <= i < n => Initializer(MatrixName(i), One(Int8)))
  }

  function Products(n: nat): (r: seq<Node>)
    ensures |r| == n && forall i :: 0 <= i < n ==> r[i] == ProductNode(i)
  {
    seq(n, i requires 0 <= i < n => ProductNode(i))
  }

  function Overlooked(): Graph {
    Graph(Matrices(MATRICES) + [Initializer(ZeroName(), SharedZero())], Products(MATRICES), [ZeroName()])
  }

  function OneInput(): Env {
    map[InputName() := Bytes(One(UInt8))]
  }

  lemma NamesDiffer(i: nat, j: nat)
    ensures MatrixName(i) == MatrixName(j) ==> i == j
    ensures MatrixName(i) != ZeroName() && MatrixName(i) != InputName() && MatrixName(i) != ""
            && ZeroName() != InputName() && ZeroName() != ""
    ensures ResultName(i) != MatrixName(j) && ResultName(i) != ZeroName() && ResultName(i) != InputName()
            && ResultName(i) != ""
  {
    assert |MatrixName(i)| == i + 1 && |MatrixName(j)| == j + 1 && |ResultName(i)| == i + 1;
    assert MatrixName(i)[0] == 'w' && MatrixName(j)[0] == 'w' && ResultName(i)[0] == 'y';
    assert InputName()[0] == 'x' && ZeroName()[0] == 'z';
  }

  // ---------------------------------------------------------------- what the names stand for

  lemma {:induction false} ByNameOfMatrices(n: nat)
    ensures forall i: nat :: i < n ==>
              MatrixName(i) in ByName(Matrices(n)) && ByName(Matrices(n))[MatrixName(i)] == One(Int8)
    ensures forall name <- ByName(Matrices(n)) :: exists i: nat :: i < n && name == MatrixName(i)
  {
    hide MatrixName, One;
    if n > 0 {
      ByNameOfMatrices(n - 1);
      OneMoreMatrix(n);
      hide ByName, Matrices;
    }
  }

  lemma OneMoreMatrix(n: nat)
    requires n > 0
    ensures ByName(Matrices(n)) == ByName(Matrices(n - 1))[MatrixName(n - 1) := One(Int8)]
  {
    hide MatrixName, One;
    assert Matrices(n)[..n - 1] == Matrices(n - 1);
  }

  ghost predicate Names(named: map<string, Tensor>) {
    && (forall i: nat :: i < MATRICES ==> MatrixName(i) in named && named[MatrixName(i)] == One(Int8))
    && ZeroName() in named && named[ZeroName()] == SharedZero()
    && forall name <- named :: name == ZeroName() || exists i: nat :: i < MATRICES && name == MatrixName(i)
  }

  lemma NamesAre()
    ensures Names(ByName(Overlooked().initializers))
  {
    var inits := Matrices(MATRICES);
    assert Overlooked().initializers[..MATRICES] == inits;
    ByNameOfMatrices(MATRICES);
    forall i: nat | i < MATRICES ensures MatrixName(i) != ZeroName() {
      NamesDiffer(i, i);
    }
    hide MatrixName, ZeroName, One, SharedZero, Matrices;
  }

  // ---------------------------------------------------------------- it is accepted

  lemma {:induction false} AllSigned(inits: seq<Initializer>)
    requires forall i :: 0 <= i < |inits| ==> inits[i].tensor.elem == Int8
    ensures SignedCount(inits) == |inits|
  {
    if inits != [] {
      AllSigned(inits[..|inits| - 1]);
    }
  }

  /** Only inputs 1 and 3 carry the name of an initializer. */
  lemma {:induction false} UsesAre(n: nat, name: string, use: Use)
    requires (name, use) in AllUses(Products(n))
    ensures name == InputName() || name == "" || AllowedUse(use)
  {
    if n > 0 {
      assert Products(n)[..n - 1] == Products(n - 1);
      hide InputName, ZeroName, MatrixName;
      var last := NodeUses(ProductNode(n - 1));
      if (name, use) in AllUses(Products(n - 1)) {
        UsesAre(n - 1, name, use);
      } else {
        assert (name, use) in last;
        var p :| 0 <= p < 4 && last[p] == (name, use);
      }
    }
  }

  lemma UsedRight(n: nat, p: nat, name: string)
    requires n < MATRICES && p < 4 && ProductNode(n).inputs[p] == name && name != InputName() && name != ""
    ensures var uses := ValuesOf(AllUses(Products(MATRICES)), name);
            uses != [] && forall use <- uses :: AllowedUse(use)
  {
    var all := AllUses(Products(MATRICES));
    UseIsListed(Products(MATRICES), n, p);
    hide AllUses;
    assert (name, (MATMUL, p)) in all;
    ValuesOfMember(all, name, (MATMUL, p));
    forall use | use in ValuesOf(all, name) ensures AllowedUse(use) {
      ValuesOfMember(all, name, use);
      UsesAre(MATRICES, name, use);
    }
  }

  lemma IsAccepted()
    ensures Accepted(Overlooked())
  {
    AllSigned(Overlooked().initializers);
    NodesAccepted();
    InitializersAccepted();
  }

  lemma NodesAccepted()
    ensures forall node <- Overlooked().nodes :: NodeAccepted(ByName(Overlooked().initializers), node)
  {
    var g := Overlooked();
    NamesAre();
    hide ByName, MatrixName, ResultName, ZeroName, InputName;
    forall node | node in g.nodes ensures NodeAccepted(ByName(g.initializers), node) {
      var i :| 0 <= i < MATRICES && g.nodes[i] == node;
      assert node == ProductNode(i);
    }
  }

  lemma InitializersAccepted()
    ensures forall init <- Overlooked().initializers :: InitializerAccepted(Overlooked().nodes, init)
  {
    var g := Overlooked();
    hide AllUses, MatrixName, ZeroName, InputName;
    forall init | init in g.initializers ensures InitializerAccepted(g.nodes, init) {
      var i :| 0 <= i <= MATRICES && g.initializers[i] == init;
      if i < MATRICES {
        NamesDiffer(i, i);
        UsedRight(i, 1, MatrixName(i));
      } else {
        NamesDiffer(0, 0);
        UsedRight(0, 3, ZeroName());
      }
    }
  }

  lemma IsWellTyped()
    ensures WellTyped(Overlooked()) && AllTogether(Overlooked(), OneInput())
  {
    var g := Overlooked();
    NamesAre();
    var named := ByName(g.initializers);
    forall node | node in g.nodes
      ensures (forall name <- node.outputs :: name !in named) && ZeroPointTyped(named, node)
              && OverridesTogether(named, OneInput(), node)
    {
      var i :| 0 <= i < MATRICES && g.nodes[i] == node;
      NamesDiffer(i, i);
      forall j: nat ensures ResultName(i) != MatrixName(j) {
        NamesDiffer(i, j);
      }
      hide ByName, MatrixName, ResultName, ZeroName, InputName, Products;
    }
  }

  // ---------------------------------------------------------------- it runs

  function AnyOperators(): Operators {
    Operators(MatrixKernel(), (node: Node, inputs: seq<Option<Value>>) => None)
  }

  ghost predicate Ready(env: Env) {
    && InputName() in env && env[InputName()] == Bytes(One(UInt8))
    && ZeroName() in env && env[ZeroName()] == Bytes(SharedZero())
    && "" !in env
    && forall i: nat :: i < MATRICES ==> MatrixName(i) in env && env[MatrixName(i)] == Bytes(One(Int8))
  }

  lemma OneTimesOne()
    ensures MatMulInteger(MatrixKernel(), One(UInt8), One(Int8), None, Some(SharedZero())).Some?
  {
    assert Product([1, 1]) == 1 && Product([]) == 1 by {
      assert [1, 1][..1] == [1];
      assert [1][..0] == [];
    }
  }

  lemma ProductRuns(env: Env, i: nat)
    requires Ready(env) && i < MATRICES
    ensures EvalNode(ProductNode(i), env, AnyOperators()).Some?
    ensures |EvalNode(ProductNode(i), env, AnyOperators()).value| == 1
  {
    OneTimesOne();
    hide MatMulInteger, MatrixKernel, One, SharedZero, MatrixName, ResultName;
    var v := Inputs(ProductNode(i), env);
    assert v[0] == Some(Bytes(One(UInt8))) && v[1] == Some(Bytes(One(Int8)));
    assert v[2] == None && v[3] == Some(Bytes(SharedZero()));
  }

  lemma StaysReady(env: Env, i: nat, v: Value)
    requires Ready(env)
    ensures Ready(env[ResultName(i) := v])
  {
    NamesDiffer(i, i);
    forall j: nat ensures ResultName(i) != MatrixName(j) {
      NamesDiffer(i, j);
    }
    hide MatrixName, ResultName, InputName, ZeroName, One, SharedZero;
  }

  lemma {:induction false} ProductsRun(n: nat, env: Env)
    requires n <= MATRICES && Ready(env)
    ensures Execute(Products(MATRICES)[n..], env, AnyOperators()).Some?
    decreases MATRICES - n
  {
    var nodes := Products(MATRICES)[n..];
    if n < MATRICES {
      assert nodes[0] == ProductNode(n) && nodes[1..] == Products(MATRICES)[n + 1..];
      ProductRuns(env, n);
      var v := EvalNode(ProductNode(n), env, AnyOperators()).value;
      assert Bind(env, [ResultName(n)], v) == env[ResultName(n) := v[0]];
      StaysReady(env, n, v[0]);
      hide Ready, EvalNode, Products, AnyOperators, Bind, ResultName;
      ProductsRun(n + 1, env[ResultName(n) := v[0]]);
    }
  }

  /** The caller gives the zero point as well, as it was. */
  function HalfInput(): Env {
    OneInput()[ZeroName() := Bytes(SharedZero())]
  }

  lemma StartsReady(inputs: Env)
    requires inputs == OneInput() || inputs == HalfInput()
    ensures Ready(InitialEnv(Overlooked().initializers, inputs))
  {
    NamesAre();
    InputsAre(inputs);
    hide Overlooked, OneInput, HalfInput, ByName, MatrixName, InputName, ZeroName, One, SharedZero;
  }

  lemma InputsAre(inputs: Env)
    requires inputs == OneInput() || inputs == HalfInput()
    ensures InputName() in inputs && inputs[InputName()] == Bytes(One(UInt8))
    ensures ZeroName() in inputs ==> inputs[ZeroName()] == Bytes(SharedZero())
    ensures "" !in inputs && "" != ZeroName()
    ensures forall i: nat :: MatrixName(i) !in inputs && MatrixName(i) != ""
  {
    NamesDiffer(0, 0);
    forall i: nat ensures MatrixName(i) != ZeroName() && MatrixName(i) != InputName() && MatrixName(i) != "" {
      NamesDiffer(i, i);
    }
    assert "" != InputName();
    hide MatrixName, InputName, ZeroName, One, SharedZero;
  }

  lemma ItRuns(inputs: Env)
    requires inputs == OneInput() || inputs == HalfInput()
    ensures Run(Overlooked(), inputs, AnyOperators()).Some?
  {
    StartsReady(inputs);
    hide Ready, InitialEnv, Execute, Products, AnyOperators;
    var g := Overlooked();
    assert g.nodes == Products(MATRICES)[0..];
    ProductsRun(0, InitialEnv(g.initializers, inputs));
  }

  /** The graph is accepted, valid and runs, and the re-encoding changes what it returns. */
  lemma AcceptedButChanged()
    ensures var g := Overlooked();
            && Accepted(g) && WellTyped(g) && AllTogether(g, OneInput())
            && Run(g, OneInput(), AnyOperators()).Some? && Run(Converted(g), OneInput(), AnyOperators()).Some?
            && GraphOutputs(g, Run(g, OneInput(), AnyOperators()).value)
               != GraphOutputs(Converted(g), Run(Converted(g), OneInput(), AnyOperators()).value)
  {
    IsAccepted();
    IsWellTyped();
    hide Accepted, WellTyped, AllTogether, Run, GraphOutputs;
    ItRuns(OneInput());
    NamesAre();
    NamesDiffer(0, 0);
    assert Shifts(ByName(Overlooked().initializers), OneInput(), ZeroName());
    assert ZeroName() in Overlooked().outputs;
    hide ByName;
    OutputsKeptExactlyWhen(Overlooked(), OneInput(), AnyOperators());
  }

  lemma HalfOverridden()
    ensures InputsTyped(ByName(Overlooked().initializers), HalfInput()) && !AllTogether(Overlooked(), HalfInput())
  {
    NamesAre();
    NamesDiffer(0, 0);
    var g := Overlooked();
    assert g.nodes[0] == ProductNode(0);
    assert !OverridesTogether(ByName(g.initializers), HalfInput(), g.nodes[0]) by {
      hide ByName, MatrixName, ResultName, ZeroName, InputName;
    }
    hide ByName, MatrixName, InputName, ZeroName;
  }

  /** And with the zero point overridden, by an equal one, it runs before the re-encoding and not after. */
  lemma AcceptedButStopped()
    ensures var g := Overlooked();
            && Accepted(g) && WellTyped(g) && InputsTyped(ByName(g.initializers), HalfInput())
            && Run(g, HalfInput(), AnyOperators()).Some? && Run(Converted(g), HalfInput(), AnyOperators()).None?
  {
    hide *;
    IsAccepted();
    IsWellTyped();
    HalfOverridden();
    ItRuns(HalfInput());
    RunsExactlyWhen(Overlooked(), HalfInput(), AnyOperators());
  }
}
