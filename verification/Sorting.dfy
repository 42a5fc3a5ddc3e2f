/** Python's `sorted` on a list: an insertion sort by any total order. */
module Sorting {
  import opened Collections

  type Order<!T> = (T, T) -> bool

  ghost predicate IsOrder<T(!new)>(less: Order<T>) {
    && (forall a, b :: less(a, b) || less(b, a) || a == b)
    && (forall a, b :: !(less(a, b) && less(b, a)))
    && (forall a, b, c :: less(a, b) && less(b, c) ==> less(a, c))
  }

  /** Insert `x` before the first larger element. */
  function Insert<T>(x: T, s: seq<T>, less: Order<T>): (r: seq<T>)
    ensures multiset(r) == multiset(s) + multiset{x}
  {
    if s == [] then [x]
    else if less(x, s[0]) then [x] + s
    else
      assert s == [s[0]] + s[1..];
      [s[0]] + Insert(x, s[1..], less)
  }

  /** `sorted(s)`. */
  function Sort<T>(s: seq<T>, less: Order<T>): (r: seq<T>)
    ensures multiset(r) == multiset(s)
  {
    if s == [] then []
    else
      assert s == s[..|s| - 1] + [s[|s| - 1]];
      Insert(s[|s| - 1], Sort(s[..|s| - 1], less), less)
  }

  ghost predicate Ascends<T>(s: seq<T>, less: Order<T>) {
    forall i, j :: 0 <= i < j < |s| ==> !less(s[j], s[i])
  }

  lemma HeadIsLeast<T(!new)>(s: seq<T>, x: T, less: Order<T>)
    requires IsOrder(less) && s != [] && Ascends(s, less) && x in s
    ensures !less(x, s[0])
  {}

  lemma {:induction false} InsertAscends<T(!new)>(x: T, s: seq<T>, less: Order<T>)
    requires IsOrder(less) && Ascends(s, less)
    ensures Ascends(Insert(x, s, less), less)
  {
    if s != [] {
      if less(x, s[0]) {
        forall j | 0 <= j < |s| ensures !less(s[j], x) {
          HeadIsLeast(s, s[j], less);
        }
      } else {
        InsertAscends(x, s[1..], less);
        hide IsOrder;
        var rest := Insert(x, s[1..], less);
        forall j | 0 <= j < |rest| ensures !less(rest[j], s[0]) {
          assert rest[j] in multiset(rest);
          assert rest[j] in multiset(s[1..]) || rest[j] == x;
          if rest[j] != x {
            assert rest[j] in s[1..];
          }
        }
      }
    }
  }

  lemma {:induction false} SortAscends<T(!new)>(s: seq<T>, less: Order<T>)
    requires IsOrder(less)
    ensures Ascends(Sort(s, less), less)
  {
    if s != [] {
      SortAscends(s[..|s| - 1], less);
      InsertAscends(s[|s| - 1], Sort(s[..|s| - 1], less), less);
    }
  }

  /** There is only one way to put a multiset in order. */
  lemma {:induction false} OrderIsUnique<T(!new)>(s: seq<T>, t: seq<T>, less: Order<T>)
    requires IsOrder(less) && Ascends(s, less) && Ascends(t, less) && multiset(s) == multiset(t)
    ensures s == t
  {
    hide *;
    if s == [] {
      SameLength(s, t);
    } else {
      SameLength(s, t);
      SameHead(s, t, less);
      WithoutHead(s, less);
      WithoutHead(t, less);
      OrderIsUnique(s[1..], t[1..], less);
      HeadAndTail(s);
      HeadAndTail(t);
    }
  }

  lemma SameHead<T(!new)>(s: seq<T>, t: seq<T>, less: Order<T>)
    requires s != [] && t != []
    requires IsOrder(less) && Ascends(s, less) && Ascends(t, less) && multiset(s) == multiset(t)
    ensures s[0] == t[0]
  {
    assert s[0] in multiset(t) && t[0] in multiset(s);
    HeadIsLeast(t, s[0], less);
    HeadIsLeast(s, t[0], less);
    hide Ascends;
  }

  lemma WithoutHead<T>(s: seq<T>, less: Order<T>)
    requires s != []
    ensures multiset(s[1..]) == multiset(s) - multiset{s[0]}
    ensures Ascends(s, less) ==> Ascends(s[1..], less)
  {
    assert s == [s[0]] + s[1..];
  }

  lemma HeadAndTail<T>(s: seq<T>)
    requires s != []
    ensures s == [s[0]] + s[1..]
  {}

  lemma SameLength<T>(s: seq<T>, t: seq<T>)
    requires multiset(s) == multiset(t)
    ensures |s| == |t|
  {
    assert |multiset(s)| == |s| && |multiset(t)| == |t|;
  }

  /** Lists with the same elements, each equally often, sort to one list. */
  lemma SortForgetsOrder<T(!new)>(s: seq<T>, t: seq<T>, less: Order<T>)
    requires IsOrder(less) && multiset(s) == multiset(t)
    ensures Sort(s, less) == Sort(t, less)
  {
    SortAscends(s, less);
    SortAscends(t, less);
    hide Ascends, IsOrder;
    OrderIsUnique(Sort(s, less), Sort(t, less), less);
  }

  lemma SortMembers<T>(s: seq<T>, less: Order<T>, x: T)
    ensures x in Sort(s, less) <==> x in s
  {
    hide Sort;
    assert x in multiset(Sort(s, less)) <==> x in multiset(s);
  }

  /** Sorting keeps repeats: however elements are weighed, the list weighs the same. */
  lemma SortKeepsWeight<T>(s: seq<T>, less: Order<T>, w: T -> int)
    ensures Weight(Sort(s, less), w) == Weight(s, w)
  {
    hide Sort;
    WeightOfMultiset(Sort(s, less), s, w);
  }
}
