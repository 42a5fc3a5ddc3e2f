/** Exact vector arithmetic. */
module Vectors {
  type Vec = seq<real>

  function Times(x: real, y: real): real {
    x * y
  }

  function Dot(a: Vec, b: Vec): real
    requires |a| == |b|
  {
    if a == [] then 0.0 else Dot(a[..|a| - 1], b[..|b| - 1]) + Times(a[|a| - 1], b[|b| - 1])
  }

  function Scale(s: real, a: Vec): (r: Vec)
    ensures |r| == |a| && forall i :: 0 <= i < |a| ==> r[i] == Times(s, a[i])
  {
    seq(|a|, i requires 0 <= i < |a| => Times(s, a[i]))
  }

  function Sub(a: Vec, b: Vec): (r: Vec)
    requires |a| == |b|
    ensures |r| == |a|
  {
    seq(|a|, i requires 0 <= i < |a| => a[i] - b[i])
  }

  function Add(a: Vec, b: Vec): (r: Vec)
    requires |a| == |b|
    ensures |r| == |a|
  {
    seq(|a|, i requires 0 <= i < |a| => a[i] + b[i])
  }

  function Zero(n: nat): (r: Vec)
    ensures |r| == n
  {
    seq(n, i => 0.0)
  }

  ghost predicate AllOfLength(vs: seq<Vec>, n: nat) {
    forall i :: 0 <= i < |vs| ==> |vs[i]| == n
  }

  function Sum(vs: seq<Vec>, n: nat): (r: Vec)
    requires AllOfLength(vs, n)
    ensures |r| == n
  {
    if vs == [] then Zero(n) else Add(Sum(vs[..|vs| - 1], n), vs[|vs| - 1])
  }

  // ---------------------------------------------------------------- bilinearity

  lemma {:induction false} DotSub(a: Vec, b: Vec, c: Vec)
    requires |a| == |b| == |c|
    ensures Dot(Sub(a, b), c) == Dot(a, c) - Dot(b, c)
  {
    hide Times;
    if a != [] {
      var n := |a| - 1;
      DotSub(a[..n], b[..n], c[..n]);
      assert Sub(a, b)[..n] == Sub(a[..n], b[..n]);
      DistributeMinus(a[n], b[n], c[n]);
    }
  }

  lemma {:induction false} DotAdd(a: Vec, b: Vec, c: Vec)
    requires |a| == |b| == |c|
    ensures Dot(Add(a, b), c) == Dot(a, c) + Dot(b, c)
  {
    hide Times;
    if a != [] {
      var n := |a| - 1;
      DotAdd(a[..n], b[..n], c[..n]);
      assert Add(a, b)[..n] == Add(a[..n], b[..n]);
      Distribute(a[n], b[n], c[n]);
    }
  }

  lemma Distribute(x: real, y: real, z: real)
    ensures Times(x + y, z) == Times(x, z) + Times(y, z)
  {}

  lemma DistributeMinus(x: real, y: real, z: real)
    ensures Times(x - y, z) == Times(x, z) - Times(y, z)
  {}

  lemma TimesZero(s: real)
    ensures Times(s, 0.0) == 0.0 && Times(0.0, s) == 0.0
  {}

  lemma TimesOne(s: real)
    ensures Times(s, 1.0) == s
  {}

  lemma {:induction false} DotScale(s: real, a: Vec, c: Vec)
    requires |a| == |c|
    ensures Dot(Scale(s, a), c) == Times(s, Dot(a, c))
  {
    hide Times;
    TimesZero(s);
    if a != [] {
      var n := |a| - 1;
      DotScale(s, a[..n], c[..n]);
      assert Scale(s, a)[..n] == Scale(s, a[..n]);
      Factor(s, a[n], c[n], Dot(a[..n], c[..n]));
    }
  }

  lemma Factor(s: real, x: real, y: real, rest: real)
    ensures Times(s, rest) + Times(Times(s, x), y) == Times(s, rest + Times(x, y))
  {}

  lemma {:induction false} DotZero(c: Vec)
    ensures Dot(Zero(|c|), c) == 0.0
  {
    if c != [] {
      TimesZero(c[|c| - 1]);
      DotZero(c[..|c| - 1]);
      assert Zero(|c|)[..|c| - 1] == Zero(|c| - 1);
    }
  }

  /** A sum of vectors orthogonal to `c` is orthogonal to `c`. */
  lemma {:induction false} DotSum(vs: seq<Vec>, c: Vec)
    requires AllOfLength(vs, |c|) && forall i :: 0 <= i < |vs| ==> Dot(vs[i], c) == 0.0
    ensures Dot(Sum(vs, |c|), c) == 0.0
  {
    if vs == [] {
      DotZero(c);
    } else {
      var rest := vs[..|vs| - 1];
      DotSum(rest, c);
      DotAdd(Sum(rest, |c|), vs[|vs| - 1], c);
    }
  }

  // ---------------------------------------------------------------- symmetry and length

  lemma TimesSymmetric(x: real, y: real)
    ensures Times(x, y) == Times(y, x)
  {}

  lemma {:induction false} DotSymmetric(a: Vec, b: Vec)
    requires |a| == |b|
    ensures Dot(a, b) == Dot(b, a)
  {
    hide Times;
    if a != [] {
      var n := |a| - 1;
      DotSymmetric(a[..n], b[..n]);
      TimesSymmetric(a[n], b[n]);
    }
  }

  lemma DotScaleBoth(s: real, a: Vec)
    ensures Dot(Scale(s, a), Scale(s, a)) == Times(s, Times(s, Dot(a, a)))
  {
    DotScale(s, a, Scale(s, a));
    DotSymmetric(a, Scale(s, a));
    DotScale(s, a, a);
  }

  lemma {:induction false} DotOfConcat(a: Vec, b: Vec, c: Vec, d: Vec)
    requires |a| == |c| && |b| == |d|
    ensures Dot(a + b, c + d) == Dot(a, c) + Dot(b, d)
    ensures |a| == 1 ==> Dot(a, c) == a[0] * c[0]
  {
    assert |a| == 1 ==> a[..0] == [] == c[..0];
    if b == [] {
      assert a + b == a && c + d == c;
    } else {
      var n := |b| - 1;
      DotOfConcat(a, b[..n], c, d[..n]);
      assert (a + b)[..|a + b| - 1] == a + b[..n] && (c + d)[..|c + d| - 1] == c + d[..n];
    }
  }

  lemma Square(x: real)
    ensures Times(x, x) >= 0.0 && (Times(x, x) == 0.0 <==> x == 0.0)
  {
    hide Times;
    TimesZero(x);
    if x > 0.0 {
      TimesPositive(x, x);
    } else if x < 0.0 {
      TimesPositive(-x, -x);
      TimesNegated(x, x);
    }
  }

  lemma TimesPositive(x: real, y: real)
    requires x > 0.0 && y > 0.0
    ensures Times(x, y) > 0.0
  {}

  lemma TimesNegated(x: real, y: real)
    ensures Times(-x, -y) == Times(x, y)
  {}

  lemma TimesAssociates(x: real, y: real, z: real)
    ensures Times(x, Times(y, z)) == Times(Times(x, y), z)
  {}

  /** A positive factor keeps the order. */
  lemma TimesKeepsOrder(factor: real, x: real, y: real)
    requires factor > 0.0
    ensures x < y <==> Times(factor, x) < Times(factor, y)
  {
    hide Times;
    if x < y {
      TimesPositive(factor, y - x);
      TimesDifference(factor, y, x);
    } else if y < x {
      TimesPositive(factor, x - y);
      TimesDifference(factor, x, y);
    }
  }

  lemma TimesDifference(factor: real, x: real, y: real)
    ensures Times(factor, x - y) == Times(factor, x) - Times(factor, y)
  {}

  /** Only the zero vector has no length. */
  lemma {:induction false} DotWithItself(a: Vec)
    ensures Dot(a, a) >= 0.0
    ensures Dot(a, a) == 0.0 <==> forall i :: 0 <= i < |a| ==> a[i] == 0.0
  {
    hide Times;
    if a != [] {
      var n := |a| - 1;
      DotWithItself(a[..n]);
      Square(a[n]);
    }
  }

  lemma {:induction false} DotOfZeros(a: Vec, c: Vec)
    requires |a| == |c| && forall i :: 0 <= i < |a| ==> a[i] == 0.0
    ensures Dot(a, c) == 0.0
  {
    if a != [] {
      var n := |a| - 1;
      DotOfZeros(a[..n], c[..n]);
      TimesZero(c[n]);
    }
  }

  /** The products of several vectors with `c`, added up. */
  ghost function Total(vs: seq<Vec>, c: Vec): real
    requires AllOfLength(vs, |c|)
  {
    if vs == [] then 0.0 else Total(vs[..|vs| - 1], c) + Dot(vs[|vs| - 1], c)
  }

  lemma {:induction false} DotOfSum(vs: seq<Vec>, c: Vec)
    requires AllOfLength(vs, |c|)
    ensures Dot(Sum(vs, |c|), c) == Total(vs, c)
  {
    if vs == [] {
      DotZero(c);
    } else {
      var rest := vs[..|vs| - 1];
      DotOfSum(rest, c);
      DotAdd(Sum(rest, |c|), vs[|vs| - 1], c);
    }
  }
}
