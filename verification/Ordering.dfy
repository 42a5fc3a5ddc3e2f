/** Python's order on strings, and `sorted` on sets and lists of them. */
module Ordering {
  import opened Collections
  import opened Sorting

  /** Code-point order, as `<` on Python strings. */
  predicate Less(a: string, b: string) {
    if b == [] then false
    else if a == [] then true
    else a[0] < b[0] || (a[0] == b[0] && Less(a[1..], b[1..]))
  }

  lemma {:induction false} LessTrichotomy(a: string, b: string)
    ensures Less(a, b) || Less(b, a) || a == b
    ensures !(Less(a, b) && Less(b, a))
    ensures !Less(a, a)
  {
    if a != [] {
      LessTrichotomy(a[1..], a[1..]);
    }
    if a != [] && b != [] {
      LessTrichotomy(a[1..], b[1..]);
      if a[0] == b[0] && a[1..] == b[1..] {
        assert a == [a[0]] + a[1..] == b;
      }
    }
  }

  lemma {:induction false} LessTransitive(a: string, b: string, c: string)
    requires Less(a, b) && Less(b, c)
    ensures Less(a, c)
  {
    if a != [] && a[0] == b[0] == c[0] {
      LessTransitive(a[1..], b[1..], c[1..]);
    }
  }

  /** The strings agree up to some position, where the first ends or has the smaller character. */
  ghost predicate DiffersAt(a: string, b: string, k: nat) {
    k <= |a| && k < |b| && a[..k] == b[..k] && (k == |a| || a[k] < b[k])
  }

  lemma {:induction false} LessMeans(a: string, b: string)
    ensures Less(a, b) <==> exists k: nat :: DiffersAt(a, b, k)
  {
    if Less(a, b) {
      if a == [] || a[0] < b[0] {
        assert DiffersAt(a, b, 0);
      } else {
        LessMeans(a[1..], b[1..]);
        var k: nat :| DiffersAt(a[1..], b[1..], k);
        assert a[..k + 1] == [a[0]] + a[1..][..k] == [b[0]] + b[1..][..k] == b[..k + 1];
        assert DiffersAt(a, b, k + 1);
      }
    }
    if k: nat :| DiffersAt(a, b, k) {
      if k > 0 {
        assert a[0] == a[..k][0] == b[..k][0] == b[0];
        assert a[1..][..k - 1] == a[..k][1..] == b[..k][1..] == b[1..][..k - 1];
        LessMeans(a[1..], b[1..]);
        assert DiffersAt(a[1..], b[1..], k - 1);
      }
    }
  }

  ghost predicate Least(s: set<string>, m: string) {
    m in s && forall x <- s :: x == m || Less(m, x)
  }

  lemma {:induction false} LeastExists(s: set<string>)
    requires s != {}
    ensures exists m :: Least(s, m)
  {
    var x :| x in s;
    if s == {x} {
      assert Least(s, x);
    } else {
      var rest := s - {x};
      assert s == rest + {x};
      LeastExists(rest);
      var m :| Least(rest, m);
      LessTrichotomy(x, m);
      if Less(x, m) {
        forall y | y in rest ensures Less(x, y) {
          if y != m {
            LessTransitive(x, m, y);
          }
        }
        assert Least(s, x);
      } else {
        assert Least(s, m);
      }
    }
  }

  lemma LeastUnique(s: set<string>, a: string, b: string)
    requires Least(s, a) && Least(s, b)
    ensures a == b
  {
    LessTrichotomy(a, b);
  }

  /** `sorted(s)`. */
  ghost function Sorted(s: set<string>): seq<string> {
    if s == {} then []
    else
      LeastExists(s);
      var m :| Least(s, m);
      [m] + Sorted(s - {m})
  }

  lemma {:induction false} SortedElements(s: set<string>)
    ensures Elements(Sorted(s)) == s && |Sorted(s)| == |s|
  {
    if s != {} {
      LeastExists(s);
      var m :| Least(s, m);
      SortedStep(s, m);
      SortedElements(s - {m});
      hide Sorted;
      ElementsOfCons(m, Sorted(s - {m}));
    }
  }

  lemma ElementsOfCons<T>(x: T, s: seq<T>)
    ensures Elements([x] + s) == {x} + Elements(s)
  {}

  ghost predicate Ascending(s: seq<string>) {
    forall i, j :: 0 <= i < j < |s| ==> Less(s[i], s[j])
  }

  lemma {:induction false} SortedAscends(s: set<string>)
    ensures Ascending(Sorted(s))
  {
    if s != {} {
      LeastExists(s);
      var m :| Least(s, m);
      SortedStep(s, m);
      SortedAscends(s - {m});
      SortedElements(s - {m});
      hide Sorted;
      AscendingCons(m, Sorted(s - {m}));
    }
  }

  lemma AscendingCons(m: string, rest: seq<string>)
    requires Ascending(rest) && forall x <- Elements(rest) :: Less(m, x)
    ensures Ascending([m] + rest)
  {
    forall j | 0 <= j < |rest| ensures Less(m, rest[j]) {
      assert rest[j] in Elements(rest);
    }
  }

  lemma SortedStep(s: set<string>, m: string)
    requires Least(s, m)
    ensures Sorted(s) == [m] + Sorted(s - {m})
  {
    var least :| Least(s, least) && Sorted(s) == [least] + Sorted(s - {least});
    LeastUnique(s, least, m);
  }

  method TakeLeast(s: set<string>) returns (m: string)
    requires s != {}
    ensures Least(s, m)
  {
    m :| m in s;
    var todo := s - {m};
    while todo != {}
      invariant m in s && todo <= s
      invariant forall x <- s - todo :: x == m || Less(m, x)
      decreases todo
    {
      var x :| x in todo;
      LessTrichotomy(x, m);
      if Less(x, m) {
        forall y | y in s - todo && y != m ensures Less(x, y) {
          LessTransitive(x, m, y);
        }
        m := x;
      }
      todo := todo - {x};
    }
  }

  /** `sorted(s)` by repeated selection of the least remaining string. */
  method SortSet(s: set<string>) returns (r: seq<string>)
    ensures r == Sorted(s)
  {
    r := [];
    var rest := s;
    while rest != {}
      invariant r + Sorted(rest) == Sorted(s)
      decreases rest
    {
      hide Least, Sorted;
      var m := TakeLeast(rest);
      SortedStep(rest, m);
      assert m in rest by { LeastIsMember(rest, m); }
      Regroup(r, m, Sorted(rest - {m}));
      r := r + [m];
      rest := rest - {m};
    }
    assert Sorted(rest) == [];
    assert r + [] == r;
  }

  lemma Regroup<T>(a: seq<T>, x: T, b: seq<T>)
    ensures a + ([x] + b) == (a + [x]) + b
  {}

  lemma LeastIsMember(s: set<string>, m: string)
    requires Least(s, m)
    ensures m in s
  {}

  // ---------------------------------------------------------------- lists

  lemma LessIsOrder()
    ensures IsOrder(Less)
  {
    forall a, b ensures (Less(a, b) || Less(b, a) || a == b) && !(Less(a, b) && Less(b, a)) {
      LessTrichotomy(a, b);
    }
    hide Less;
    forall a, b, c | Less(a, b) && Less(b, c) ensures Less(a, c) {
      LessTransitive(a, b, c);
    }
  }

  lemma AscendingAscends(s: seq<string>)
    requires Ascending(s)
    ensures Distinct(s) && Ascends(s, Less)
  {
    forall i, j | 0 <= i < j < |s| ensures s[i] != s[j] && !Less(s[j], s[i]) {
      LessTrichotomy(s[i], s[j]);
    }
  }

  /** There is only one way to put a set in order. */
  lemma AscendingUnique(a: seq<string>, b: seq<string>)
    requires Ascending(a) && Ascending(b) && Elements(a) == Elements(b)
    ensures a == b
  {
    AscendingAscends(a);
    AscendingAscends(b);
    DistinctMultiset(a);
    DistinctMultiset(b);
    LessIsOrder();
    hide *;
    OrderIsUnique(a, b, Less);
  }

  /** A list keeps its repeats when it is sorted; without any, that is sorting the set of its elements. */
  lemma SortOfDistinct(s: seq<string>)
    requires Distinct(s)
    ensures Sort(s, Less) == Sorted(Elements(s))
  {
    hide *;
    var t := Sorted(Elements(s));
    SortedElements(Elements(s));
    SortedAscends(Elements(s));
    AscendingAscends(t);
    DistinctMultiset(s);
    DistinctMultiset(t);
    LessIsOrder();
    SortAscends(s, Less);
    OrderIsUnique(Sort(s, Less), t, Less);
  }
}
