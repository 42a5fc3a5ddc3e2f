/** What the two-dimensional MatMulInteger computes: unit rows and columns pick rows and columns, sums go to
    sums, and the accumulator has 32 bits. */
module MatrixMeaning {
  import opened Wrappers
  import opened PortableModel
  import opened GraphMeaning

  /** The accumulator keeps the value modulo 2^32, in the range of a signed 32-bit integer. */
  lemma Int32Means(x: int)
    ensures -0x8000_0000 <= Int32(x) < 0x8000_0000 && (Int32(x) - x) % 0x1_0000_0000 == 0
    ensures -0x8000_0000 <= x < 0x8000_0000 ==> Int32(x) == x
  {
    var shifted, q := x + 0x8000_0000, (x + 0x8000_0000) / 0x1_0000_0000;
    assert Int32(x) - x == 0x1_0000_0000 * (-q);
  }

  /** 1 at `p`, 0 elsewhere. */
  function Unit(n: nat, p: nat): (r: seq<int>)
    ensures |r| == n && forall k :: 0 <= k < n ==> r[k] == if k == p then 1 else 0
  {
    seq(n, k => if k == p then 1 else 0)
  }

  lemma {:induction false} UnitRow(b: seq<int>, p: nat, col: nat, depth: nat, cols: nat, k: nat)
    requires k <= depth && p < depth
    ensures Dot(Unit(depth, p), b, 0, col, depth, cols, k) == if p < k then At(b, p * cols + col) else 0
  {
    if k > 0 {
      UnitRow(b, p, col, depth, cols, k - 1);
      assert 0 * depth == 0;
    }
  }

  lemma {:induction false} UnitColumn(a: seq<int>, q: nat, row: nat, depth: nat, k: nat)
    requires k <= depth && q < depth
    ensures Dot(a, Unit(depth, q), row, 0, depth, 1, k) == if q < k then At(a, row * depth + q) else 0
  {
    if k > 0 {
      UnitColumn(a, q, row, depth, k - 1);
    }
  }

  /** Unit row `p` times a matrix is its row `p`. */
  lemma UnitRowPicks(b: seq<int>, p: nat, depth: nat, cols: nat)
    requires p < depth
    ensures MatrixProduct([depth], Unit(depth, p), [depth, cols], b).Some?
    ensures var r := MatrixProduct([depth], Unit(depth, p), [depth, cols], b).value;
            && r.Whole? && r.dims == [cols] && |r.ints| == cols
            && forall t: nat :: t < cols ==> r.ints[t] == Int32(At(b, p * cols + t))
  {
    var aDims := [depth];
    assert aDims[..|aDims| - 1] == [];
    assert Product([]) * cols == cols;
    forall t: nat | t < cols ensures Cell(Unit(depth, p), b, depth, cols, t) == Int32(At(b, p * cols + t)) {
      UnitRow(b, p, t, depth, cols, depth);
      assert t / cols == 0 && t % cols == t;
    }
    hide Cell;
  }

  /** A matrix times unit column `q` is its column `q`. */
  lemma UnitColumnPicks(a: seq<int>, q: nat, rows: nat, depth: nat)
    requires q < depth
    ensures MatrixProduct([rows, depth], a, [depth, 1], Unit(depth, q)).Some?
    ensures var r := MatrixProduct([rows, depth], a, [depth, 1], Unit(depth, q)).value;
            && r.Whole? && r.dims == [rows, 1] && |r.ints| == rows
            && forall t: nat :: t < rows ==> r.ints[t] == Int32(At(a, t * depth + q))
  {
    var aDims := [rows, depth];
    assert aDims[..|aDims| - 1] == [rows] && [rows][..0] == [];
    assert Product([rows]) == Product([]) * rows == rows;
    forall t: nat | t < rows ensures Cell(a, Unit(depth, q), depth, 1, t) == Int32(At(a, t * depth + q)) {
      UnitColumn(a, q, t, depth, depth);
      assert t / 1 == t && t % 1 == 0;
    }
    hide Cell;
  }

  /** Products add up: in the first operand, before the accumulator wraps. */
  lemma {:induction false} DotAddsUp(a: seq<int>, c: seq<int>, sum: seq<int>, b: seq<int>, row: nat, col: nat,
                                     depth: nat, cols: nat, k: nat)
    requires |a| == |c| == |sum| && forall i :: 0 <= i < |a| ==> sum[i] == a[i] + c[i]
    ensures Dot(sum, b, row, col, depth, cols, k) ==
            Dot(a, b, row, col, depth, cols, k) + Dot(c, b, row, col, depth, cols, k)
  {
    if k > 0 {
      DotAddsUp(a, c, sum, b, row, col, depth, cols, k - 1);
      var i, y := row * depth + k - 1, At(b, (k - 1) * cols + col);
      assert At(sum, i) == At(a, i) + At(c, i);
      Distributes(At(a, i), At(c, i), y);
    }
  }

  lemma Distributes(x: int, z: int, y: int)
    ensures (x + z) * y == x * y + z * y
  {}

  // ---------------------------------------------------------------- bytes

  /** What a byte stands for in a tensor of its type. */
  function ByteValue(elem: ElemType, b: Byte): int {
    if elem == Int8 && b >= 128 then b as int - 256 else b as int
  }

  /** The unsigned bytes of a unit row. */
  function UnitBytes(n: nat, p: nat): (t: Tensor)
    ensures t.elem == UInt8 && t.dims == [n] && |t.bytes| == n
    ensures forall k :: 0 <= k < n ==> t.bytes[k] == if k == p then 1 else 0
  {
    Tensor(UInt8, [n], seq(n, k => if k == p then 1 else 0))
  }

  /** Row `row`, column `col` of a matrix of bytes less a zero point. */
  function Cleared(b: Tensor, z: Tensor, row: nat, col: nat, cols: nat): int {
    var i := row * cols + col;
    if i < |b.bytes| && |z.bytes| == 1 then ByteValue(b.elem, b.bytes[i]) - ByteValue(z.elem, z.bytes[0]) else 0
  }

  /** The operator on bytes: a unit row picks a row of the matrix, each byte less the zero point. */
  lemma MatMulPicks(b: Tensor, z: Tensor, p: nat, depth: nat, cols: nat)
    requires p < depth && b.dims == [depth, cols] && |b.bytes| == depth * cols && z.dims == [] && |z.bytes| == 1
    requires (b.elem == Int8 || b.elem == UInt8) && z.elem == b.elem
    ensures MatMulInteger(MatrixKernel(), UnitBytes(depth, p), b, None, Some(z)).Some?
    ensures var r := MatMulInteger(MatrixKernel(), UnitBytes(depth, p), b, None, Some(z)).value;
            && r.Whole? && r.dims == [cols] && |r.ints| == cols
            && forall t: nat :: t < cols ==> r.ints[t] == Int32(Cleared(b, z, p, t, cols))
  {
    var k := MatrixKernel();
    UnitCentred(depth, p, k.left);
    MatrixCentred(b, z, depth, cols);
    var right := Centred(b, Some(z), k.right).value;
    UnitRowPicks(right, p, depth, cols);
    var product := MatrixProduct([depth], Unit(depth, p), [depth, cols], right);
    assert k.product([depth], Unit(depth, p), [depth, cols], right) == product;
    hide *;
    MatMulIs(k, UnitBytes(depth, p), b, z, Unit(depth, p), right);
    forall t: nat | t < cols ensures product.value.ints[t] == Int32(Cleared(b, z, p, t, cols)) {
      CellIsCleared(b, z, right, p, t, depth, cols);
    }
  }

  lemma CellIsCleared(b: Tensor, z: Tensor, right: seq<int>, row: nat, col: nat, depth: nat, cols: nat)
    requires row < depth && col < cols && |b.bytes| == |right| == depth * cols && |z.bytes| == 1
    requires forall i: nat :: i < |b.bytes| ==>
               right[i] == ByteValue(b.elem, b.bytes[i]) - ByteValue(z.elem, z.bytes[0])
    ensures row * cols + col < depth * cols && At(right, row * cols + col) == Cleared(b, z, row, col, cols)
  {
    hide ByteValue;
    InMatrix(row, col, depth, cols);
  }

  lemma MatMulIs(k: Kernel, a: Tensor, b: Tensor, z: Tensor, left: seq<int>, right: seq<int>)
    requires Centred(a, None, k.left) == Some(left) && Centred(b, Some(z), k.right) == Some(right)
    ensures MatMulInteger(k, a, b, None, Some(z)) == k.product(a.dims, left, b.dims, right)
  {
    hide Centred;
  }

  lemma InMatrix(p: nat, t: nat, depth: nat, cols: nat)
    requires p < depth && t < cols
    ensures p * cols + t < depth * cols
  {
    Distributes(p + 1, depth - p - 1, cols);
    Distributes(p, 1, cols);
    NotNegative(depth - p - 1, cols);
    hide *;
  }

  lemma NotNegative(x: nat, y: nat)
    ensures x * y >= 0
  {}

  lemma ProductOne(n: nat)
    ensures Product([]) == 1 && Product([n]) == n
  {
    assert [n][..0] == [];
  }

  lemma ProductTwo(m: nat, n: nat)
    ensures Product([m, n]) == m * n
  {
    assert [m, n][..1] == [m];
    ProductOne(m);
  }

  lemma UnitCentred(depth: nat, p: nat, entry: Broadcast)
    requires p < depth
    ensures Centred(UnitBytes(depth, p), None, entry) == Some(Unit(depth, p))
  {
    ProductOne(depth);
    var t := UnitBytes(depth, p);
    assert ByteTyped(t);
    assert Centred(t, None, entry).value == Unit(depth, p);
  }

  lemma MatrixCentred(b: Tensor, z: Tensor, depth: nat, cols: nat)
    requires b.dims == [depth, cols] && |b.bytes| == depth * cols && z.dims == [] && |z.bytes| == 1
    requires (b.elem == Int8 || b.elem == UInt8) && z.elem == b.elem
    ensures var r := Centred(b, Some(z), MatrixKernel().right);
            && r.Some? && |r.value| == |b.bytes|
            && forall i: nat :: i < |b.bytes| ==>
                 r.value[i] == ByteValue(b.elem, b.bytes[i]) - ByteValue(z.elem, z.bytes[0])
  {
    ProductTwo(depth, cols);
    ProductOne(0);
    var entry := MatrixKernel().right;
    assert forall i: nat :: entry(b.dims, z.dims, i) == 0;
    assert ZeroPointFits(b, z, entry);
  }
}
