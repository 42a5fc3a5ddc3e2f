/** Python's `d.setdefault(k, []).append(v)`: lists under keys that remember the order in
    which they were first used. */
module Grouping {
  import opened Collections

  datatype Groups<!K(==), V> = Groups(keys: seq<K>, lists: map<K, seq<V>>) {

    function Add(k: K, v: V): Groups<K, V> {
      if k in lists then Groups(keys, lists[k := lists[k] + [v]])
      else Groups(keys + [k], lists[k := [v]])
    }
  }

  function NoGroups<K(==), V>(): Groups<K, V> {
    Groups([], map[])
  }

  /** The dictionary after appending every pair in turn. */
  function GroupAll<K(==), V>(pairs: seq<(K, V)>): Groups<K, V> {
    if pairs == [] then NoGroups()
    else
      var (k, v) := pairs[|pairs| - 1];
      GroupAll(pairs[..|pairs| - 1]).Add(k, v)
  }

  lemma GroupAllStep<K, V>(pairs: seq<(K, V)>, k: K, v: V)
    ensures GroupAll(pairs + [(k, v)]) == GroupAll(pairs).Add(k, v)
  {
    assert (pairs + [(k, v)])[..|pairs|] == pairs;
  }

  /** The values paired with `k`, in order. */
  function ValuesOf<K(==), V>(pairs: seq<(K, V)>, k: K): seq<V> {
    if pairs == [] then []
    else
      var last := pairs[|pairs| - 1];
      ValuesOf(pairs[..|pairs| - 1], k) + if last.0 == k then [last.1] else []
  }

  ghost predicate HasKey<K, V>(pairs: seq<(K, V)>, k: K) {
    exists i :: 0 <= i < |pairs| && pairs[i].0 == k
  }

  /** Every used key is listed once, and holds exactly its own values in order. */
  lemma {:induction false} GroupAllIsByKey<K, V>(pairs: seq<(K, V)>)
    ensures var g := GroupAll(pairs);
            && Distinct(g.keys)
            && (forall k :: k in g.keys <==> HasKey(pairs, k))
            && (forall k :: k in g.lists <==> HasKey(pairs, k))
            && (forall k :: k in g.lists ==> g.lists[k] == ValuesOf(pairs, k))
    ensures forall k :: !HasKey(pairs, k) ==> ValuesOf(pairs, k) == []
  {
    if pairs != [] {
      var rest, last := pairs[..|pairs| - 1], pairs[|pairs| - 1];
      GroupAllIsByKey(rest);
      assert HasKey(pairs, last.0);
      forall k ensures HasKey(pairs, k) <==> HasKey(rest, k) || k == last.0 {
        if HasKey(rest, k) {
          var i :| 0 <= i < |rest| && rest[i].0 == k;
          assert pairs[i].0 == k;
        }
      }
    }
  }

  lemma {:induction false} ValuesOfMember<K, V>(pairs: seq<(K, V)>, k: K, v: V)
    ensures v in ValuesOf(pairs, k) <==> (k, v) in pairs
  {
    if pairs != [] {
      var rest, last := pairs[..|pairs| - 1], pairs[|pairs| - 1];
      ValuesOfMember(rest, k, v);
      assert pairs == rest + [last];
    }
  }

  /** A key of the dictionary holds at least one value, and only values paired with it. */
  lemma KeyHoldsItsValues<K, V>(pairs: seq<(K, V)>, k: K)
    ensures var g := GroupAll(pairs);
            && (k in g.keys <==> k in g.lists)
            && (k in g.lists <==> HasKey(pairs, k))
            && (k in g.lists ==> g.lists[k] != [] && forall v :: v in g.lists[k] <==> (k, v) in pairs)
  {
    GroupAllIsByKey(pairs);
    hide GroupAll;
    if HasKey(pairs, k) {
      var i :| 0 <= i < |pairs| && pairs[i].0 == k;
      forall v ensures v in ValuesOf(pairs, k) <==> (k, v) in pairs {
        ValuesOfMember(pairs, k, v);
      }
      assert (k, pairs[i].1) == pairs[i] && pairs[i] in pairs;
      assert pairs[i].1 in ValuesOf(pairs, k);
    }
  }

  // ---------------------------------------------------------------- nothing is lost by grouping

  function Seconds<K, V>(pairs: seq<(K, V)>): seq<V> {
    if pairs == [] then [] else Seconds(pairs[..|pairs| - 1]) + [pairs[|pairs| - 1].1]
  }

  function Flatten<K, V>(keys: seq<K>, lists: map<K, seq<V>>): seq<V> {
    if keys == [] then []
    else
      var last := keys[|keys| - 1];
      Flatten(keys[..|keys| - 1], lists) + if last in lists then lists[last] else []
  }

  lemma {:induction false} FlattenIgnores<K, V>(keys: seq<K>, lists: map<K, seq<V>>, k: K, list: seq<V>)
    requires k !in keys
    ensures Flatten(keys, lists[k := list]) == Flatten(keys, lists)
  {
    if keys != [] {
      FlattenIgnores(keys[..|keys| - 1], lists, k, list);
    }
  }

  lemma {:induction false} FlattenExtended<K, V>(keys: seq<K>, lists: map<K, seq<V>>, k: K, v: V, w: V -> int)
    requires Distinct(keys) && k in keys && k in lists
    ensures Weight(Flatten(keys, lists[k := lists[k] + [v]]), w) == Weight(Flatten(keys, lists), w) + w(v)
  {
    var rest, last := keys[..|keys| - 1], keys[|keys| - 1];
    var longer := lists[k := lists[k] + [v]];
    var before := Flatten(rest, lists);
    if last == k {
      FlattenIgnores(rest, lists, k, lists[k] + [v]);
      assert before + (lists[k] + [v]) == (before + lists[k]) + [v];
      WeightOfAppend(before + lists[k], v, w);
    } else {
      FlattenExtended(rest, lists, k, v, w);
      var list := if last in lists then lists[last] else [];
      WeightOfConcat(Flatten(rest, longer), list, w);
      WeightOfConcat(before, list, w);
    }
  }

  /** Grouping loses and repeats nothing: however values are weighed, the grouped lists
      weigh as much as the pairs. */
  lemma {:induction false} GroupingKeepsWeight<K, V>(pairs: seq<(K, V)>, w: V -> int)
    ensures var g := GroupAll(pairs);
            Weight(Flatten(g.keys, g.lists), w) == Weight(Seconds(pairs), w)
  {
    if pairs != [] {
      var rest, last := pairs[..|pairs| - 1], pairs[|pairs| - 1];
      GroupingKeepsWeight(rest, w);
      GroupAllIsByKey(rest);
      var g := GroupAll(rest);
      assert pairs == rest + [last];
      GroupAllStep(rest, last.0, last.1);
      hide GroupAll, Flatten, Weight;
      WeightOfAppend(Seconds(rest), last.1, w);
      AddAddsWeight(g, last.0, last.1, w);
    } else {
      NothingFlat<K, V>(w);
    }
  }

  lemma NothingFlat<K, V>(w: V -> int)
    ensures Weight(Flatten<K, V>([], map[]), w) == 0 && Weight(Seconds<K, V>([]), w) == 0
  {}

  lemma AddAddsWeight<K, V>(g: Groups<K, V>, k: K, v: V, w: V -> int)
    requires Distinct(g.keys) && (k in g.keys <==> k in g.lists)
    ensures Weight(Flatten(g.Add(k, v).keys, g.Add(k, v).lists), w) == Weight(Flatten(g.keys, g.lists), w) + w(v)
  {
    if k in g.lists {
      FlattenExtended(g.keys, g.lists, k, v, w);
    } else {
      FlattenIgnores(g.keys, g.lists, k, [v]);
      assert (g.keys + [k])[..|g.keys|] == g.keys;
      WeightOfAppend(Flatten(g.keys, g.lists), v, w);
    }
  }

  lemma {:induction false} ValuesDistinct<K, V>(pairs: seq<(K, V)>, k: K)
    requires Distinct(Seconds(pairs))
    ensures Distinct(ValuesOf(pairs, k))
    ensures forall v :: v in ValuesOf(pairs, k) ==> v in Seconds(pairs)
  {
    if pairs != [] {
      var rest, last := pairs[..|pairs| - 1], pairs[|pairs| - 1];
      var all := Seconds(pairs);
      assert forall i :: 0 <= i < |Seconds(rest)| ==> all[i] == Seconds(rest)[i];
      assert all[|all| - 1] == last.1;
      assert last.1 !in Seconds(rest);
      ValuesDistinct(rest, k);
    }
  }
}
