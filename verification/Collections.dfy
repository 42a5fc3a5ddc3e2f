/** Small facts about sequences and sets that several modules need. */
module Collections {

  ghost function Elements<T>(s: seq<T>): set<T> {
    set x | x in s
  }

  ghost function Range(from: nat, to: nat): (r: set<nat>)
    requires from <= to
    ensures |r| == to - from && forall i: nat :: i in r <==> from <= i < to
  {
    if from == to then {} else Range(from, to - 1) + {to - 1}
  }

  ghost predicate Distinct<T>(s: seq<T>) {
    forall i, j :: 0 <= i < j < |s| ==> s[i] != s[j]
  }

  ghost predicate Increasing(s: seq<nat>) {
    forall i, j :: 0 <= i < j < |s| ==> s[i] < s[j]
  }

  function Repeat<T>(x: T, n: nat): (r: seq<T>)
    ensures |r| == n && forall i :: 0 <= i < n ==> r[i] == x
  {
    seq(n, i => x)
  }

  lemma {:induction false} DistinctCardinality<T>(s: seq<T>)
    requires Distinct(s)
    ensures |Elements(s)| == |s|
  {
    if s != [] {
      var rest, last := s[..|s| - 1], s[|s| - 1];
      DistinctCardinality(rest);
      assert s == rest + [last];
      ElementsOfAppend(rest, last);
    }
  }

  lemma ElementsOfAppend<T>(s: seq<T>, x: T)
    ensures Elements(s + [x]) == Elements(s) + {x}
  {}

  lemma RemoveSubset<T>(a: set<T>, b: set<T>)
    requires a <= b
    ensures |b - a| == |b| - |a|
  {
    assert b == a + (b - a);
  }

  lemma SubsetOfSameSize<T>(a: set<T>, b: set<T>)
    requires a <= b && |a| == |b|
    ensures a == b
  {
    RemoveSubset(a, b);
    assert b - a == {};
  }

  // ---------------------------------------------------------------- weighing lists

  /** Sum of `w` over a list.  With an indicator function it counts an element. */
  ghost function Weight<T>(s: seq<T>, w: T -> int): int {
    if s == [] then 0 else Weight(s[..|s| - 1], w) + w(s[|s| - 1])
  }

  ghost function Count<T>(s: seq<T>, x: T): int {
    Weight(s, IndicatorOf(x))
  }

  ghost function IndicatorOf<T>(x: T): T -> int {
    (y: T) => if y == x then 1 else 0
  }

  lemma WeightOfAppend<T>(s: seq<T>, x: T, w: T -> int)
    ensures Weight(s + [x], w) == Weight(s, w) + w(x)
  {
    assert (s + [x])[..|s|] == s;
  }

  lemma {:induction false} WeightOfConcat<T>(a: seq<T>, b: seq<T>, w: T -> int)
    ensures Weight(a + b, w) == Weight(a, w) + Weight(b, w)
  {
    if b == [] {
      assert a + b == a;
    } else {
      var rest, last := b[..|b| - 1], b[|b| - 1];
      WeightOfConcat(a, rest, w);
      assert a + b == (a + rest) + [last];
      WeightOfAppend(a + rest, last, w);
    }
  }

  lemma CutAt<T>(s: seq<T>, i: nat)
    requires i < |s|
    ensures s == (s[..i] + [s[i]]) + s[i + 1..]
  {}

  function Drop<T>(s: seq<T>, i: nat): (r: seq<T>)
    requires i < |s|
    ensures |r| == |s| - 1
  {
    s[..i] + s[i + 1..]
  }

  lemma MultisetOfDrop<T>(s: seq<T>, i: nat)
    requires i < |s|
    ensures multiset(s) == multiset(Drop(s, i)) + multiset{s[i]}
  {
    CutAt(s, i);
  }

  lemma SameRest<T>(m: multiset<T>, n: multiset<T>, x: T)
    requires m + multiset{x} == n + multiset{x}
    ensures m == n
  {
    assert m == m + multiset{x} - multiset{x};
    assert n == n + multiset{x} - multiset{x};
  }

  lemma WeightWithout<T>(s: seq<T>, i: nat, w: T -> int)
    requires i < |s|
    ensures Weight(s, w) == Weight(Drop(s, i), w) + w(s[i])
  {
    hide Weight;
    var left, x, right := s[..i], s[i], s[i + 1..];
    CutAt(s, i);
    WeightOfConcat(left + [x], right, w);
    WeightOfAppend(left, x, w);
    WeightOfConcat(left, right, w);
  }

  lemma {:induction false} DistinctMultiset<T>(s: seq<T>)
    requires Distinct(s)
    ensures multiset(s) == multiset(Elements(s))
  {
    if s != [] {
      var rest, last := s[..|s| - 1], s[|s| - 1];
      DistinctMultiset(rest);
      assert s == rest + [last];
      ElementsOfAppend(rest, last);
      assert last !in Elements(rest);
    }
  }

  /** An element of a list without repetitions is counted once. */
  lemma {:induction false} CountInDistinct<T>(s: seq<T>, x: T)
    requires Distinct(s)
    ensures Count(s, x) == if x in s then 1 else 0
  {
    if s != [] {
      var rest, last := s[..|s| - 1], s[|s| - 1];
      CountInDistinct(rest, x);
      assert s == rest + [last];
    }
  }

  /** The weight of a list does not depend on its order. */
  lemma {:induction false} WeightOfMultiset<T>(a: seq<T>, b: seq<T>, w: T -> int)
    requires multiset(a) == multiset(b)
    ensures Weight(a, w) == Weight(b, w)
    decreases |a|
  {
    hide *;
    assert |multiset(a)| == |a| && |multiset(b)| == |b|;
    if a == [] {
      assert b == [];
    } else {
      assert a[0] in multiset(b);
      var i :| 0 <= i < |b| && b[i] == a[0];
      MultisetOfDrop(a, 0);
      MultisetOfDrop(b, i);
      SameRest(multiset(Drop(a, 0)), multiset(Drop(b, i)), a[0]);
      WeightOfMultiset(Drop(a, 0), Drop(b, i), w);
      WeightWithout(a, 0, w);
      WeightWithout(b, i, w);
    }
  }

  /** Two lists without repetitions and with the same elements weigh the same. */
  lemma SameElementsSameWeight<T>(a: seq<T>, b: seq<T>, w: T -> int)
    requires Distinct(a) && Distinct(b) && Elements(a) == Elements(b)
    ensures Weight(a, w) == Weight(b, w)
  {
    DistinctMultiset(a);
    DistinctMultiset(b);
    hide *;
    WeightOfMultiset(a, b, w);
  }
}
