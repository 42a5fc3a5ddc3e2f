/** Assembling a training snapshot: reports in full, history sampled, one row per masked
    text (ai/retraining/snapshot.py:119-213).  Masking (`preprocess`) is any function. */
module Snapshot {
  import opened Wrappers
  import opened Collections
  import DatasetDigest
  import Sampling

  type Mask = string -> string

  /** A validated report; `validatedAt` is its time in UTC, if it has one. */
  datatype Report = Report(id: string, text: string, verdict: string, validatedAt: Option<int>)

  /** A dataset row; hand-built rows carry no origin. */
  datatype Row = Row(text: string, verdict: string, origin: Option<string>)

  datatype SnapshotRow = SnapshotRow(text: string, verdict: string, origin: string)

  // ---------------------------------------------------------------- which report owns a text

  /** Sort key order: undated reports come before every dated one. */
  predicate Earlier(a: Report, b: Report) {
    b.validatedAt.Some? && (a.validatedAt.None? || a.validatedAt.value < b.validatedAt.value)
  }

  /** i comes before j in a stable sort: earlier key, or same key and earlier in the source. */
  predicate SortsBefore(reports: seq<Report>, i: nat, j: nat)
    requires i < |reports| && j < |reports|
  {
    Earlier(reports[i], reports[j]) || (!Earlier(reports[j], reports[i]) && i < j)
  }

  ghost predicate StablyOrdered(reports: seq<Report>, order: seq<nat>) {
    && (forall a :: 0 <= a < |order| ==> order[a] < |reports|)
    && (forall a, b :: 0 <= a < b < |order| ==> SortsBefore(reports, order[a], order[b]))
  }

  /** `sorted` lists `reports` in the order `order`. */
  ghost predicate Lists(reports: seq<Report>, sorted: seq<Report>, order: seq<nat>) {
    && |sorted| == |order| == |reports| && StablyOrdered(reports, order)
    && (forall i :: 0 <= i < |reports| ==> i in order)
    && (forall a :: 0 <= a < |order| ==> sorted[a] == reports[order[a]])
  }

  ghost predicate StablySorted(reports: seq<Report>, sorted: seq<Report>) {
    exists order :: Lists(reports, sorted, order)
  }

  /** `sorted` lists the first `n` reports in the order `order`. */
  ghost predicate ListsFirst(reports: seq<Report>, sorted: seq<Report>, order: seq<nat>, n: nat) {
    && |sorted| == |order| == n <= |reports| && StablyOrdered(reports, order)
    && (forall a :: 0 <= a < n ==> order[a] < n && sorted[a] == reports[order[a]])
    && (forall i :: 0 <= i < n ==> i in order)
  }

  /** `sorted(reports, key=...)`. */
  method SortReports(reports: seq<Report>) returns (sorted: seq<Report>)
    ensures StablySorted(reports, sorted)
  {
    sorted := [];
    ghost var order: seq<nat> := [];
    for i := 0 to |reports|
      invariant ListsFirst(reports, sorted, order, i)
    {
      hide StablyOrdered, Earlier;
      var p := i;
      while p > 0 && Earlier(reports[i], sorted[p - 1])
        invariant 0 <= p <= i
        invariant forall a :: p <= a < i ==> Earlier(reports[i], sorted[a])
      {
        p := p - 1;
      }
      InsertNext(reports, sorted, order, i, p);
      sorted := sorted[..p] + [reports[i]] + sorted[p..];
      order := order[..p] + [i] + order[p..];
    }
    assert Lists(reports, sorted, order);
  }

  lemma InsertNext(reports: seq<Report>, sorted: seq<Report>, order: seq<nat>, i: nat, p: nat)
    requires ListsFirst(reports, sorted, order, i) && i < |reports| && p <= i
    requires forall a :: p <= a < i ==> Earlier(reports[i], sorted[a])
    requires p > 0 ==> !Earlier(reports[i], sorted[p - 1])
    ensures ListsFirst(reports, sorted[..p] + [reports[i]] + sorted[p..], order[..p] + [i] + order[p..], i + 1)
  {
    hide StablyOrdered, Earlier;
    InsertKeepsOrder(reports, order, i, p);
    InsertKeepsElements(order, i, p);
  }

  lemma InsertKeepsOrder(reports: seq<Report>, order: seq<nat>, i: nat, p: nat)
    requires StablyOrdered(reports, order) && i < |reports| && p <= |order|
    requires forall a :: 0 <= a < |order| ==> order[a] < i
    requires forall a :: p <= a < |order| ==> Earlier(reports[i], reports[order[a]])
    requires p > 0 ==> !Earlier(reports[i], reports[order[p - 1]])
    ensures StablyOrdered(reports, order[..p] + [i] + order[p..])
  {
    var next := order[..p] + [i] + order[p..];
    forall a | 0 <= a < p ensures SortsBefore(reports, order[a], i) {
      if a < p - 1 {
        assert SortsBefore(reports, order[a], order[p - 1]);
      }
    }
    forall a, b | 0 <= a < b < |next| ensures SortsBefore(reports, next[a], next[b]) {
      var a' := if a < p then a else a - 1;
      var b' := if b < p then b else b - 1;
      if a != p && b != p {
        assert SortsBefore(reports, order[a'], order[b']);
      }
    }
  }

  lemma InsertKeepsElements(order: seq<nat>, i: nat, p: nat)
    requires p <= |order|
    ensures forall x :: x in order || x == i ==> x in order[..p] + [i] + order[p..]
  {
    assert order == order[..p] + order[p..];
  }

  /** Report `i` owns the masked text `key`: the most recently validated one that masks to it,
      the last of them in source order on a tie. */
  ghost predicate Owns(reports: seq<Report>, mask: Mask, key: string, i: nat) {
    && i < |reports| && mask(reports[i].text) == key
    && forall j: nat :: j < |reports| && j != i && mask(reports[j].text) == key ==> SortsBefore(reports, j, i)
  }

  lemma OwnerUnique(reports: seq<Report>, mask: Mask, key: string, i: nat, j: nat)
    requires Owns(reports, mask, key, i) && Owns(reports, mask, key, j)
    ensures i == j
  {}

  ghost function OwnedKeys(reports: seq<Report>, mask: Mask): set<string> {
    set i | 0 <= i < |reports| :: mask(reports[i].text)
  }

  /** A dictionary that remembers the order of first insertion. */
  datatype Owners = Owners(keys: seq<string>, byKey: map<string, Report>) {
    function Put(key: string, r: Report): Owners {
      Owners(if key in byKey then keys else keys + [key], byKey[key := r])
    }

    ghost predicate Ok() {
      Distinct(keys) && byKey.Keys == Elements(keys)
    }

    predicate Filled() {
      forall i :: 0 <= i < |keys| ==> keys[i] in byKey
    }

    /** `by_masked.values()`. */
    function Values(): (r: seq<Report>)
      requires Filled()
      ensures |r| == |keys| && forall i :: 0 <= i < |keys| ==> r[i] == byKey[keys[i]]
    {
      seq(|keys|, i requires 0 <= i < |keys| => byKey[keys[i]])
    }
  }

  /** The masked texts of the first `n` sorted reports, by their first use. */
  ghost function FirstUses(sorted: seq<Report>, mask: Mask, n: nat): seq<string>
    requires n <= |sorted|
  {
    if n == 0 then []
    else
      var key := mask(sorted[n - 1].text);
      FirstUses(sorted, mask, n - 1) + if key in FirstUses(sorted, mask, n - 1) then [] else [key]
  }

  /** `r` is the last of the first `n` sorted reports that mask to `key`. */
  ghost predicate LastWriter(sorted: seq<Report>, mask: Mask, n: nat, key: string, r: Report)
    requires n <= |sorted|
  {
    exists a :: 0 <= a < n && mask(sorted[a].text) == key && r == sorted[a] &&
                forall b :: a < b < n ==> mask(sorted[b].text) != key
  }

  ghost predicate KeysUpTo(sorted: seq<Report>, mask: Mask, n: nat, o: Owners)
    requires n <= |sorted|
  {
    o.keys == FirstUses(sorted, mask, n)
  }

  lemma OneMoreKey(sorted: seq<Report>, mask: Mask, n: nat, o: Owners)
    requires n < |sorted| && o.Ok() && KeysUpTo(sorted, mask, n, o)
    ensures KeysUpTo(sorted, mask, n + 1, o.Put(mask(sorted[n].text), sorted[n]))
  {
    var key := mask(sorted[n].text);
    assert key in o.keys <==> key in Elements(o.keys);
  }

  /** After `n` writes the dictionary has each key seen so far, with its last writer. */
  ghost predicate OwnersUpTo(sorted: seq<Report>, mask: Mask, n: nat, o: Owners)
    requires n <= |sorted|
  {
    && o.Ok() && KeysUpTo(sorted, mask, n, o)
    && o.byKey.Keys == OwnedKeys(sorted[..n], mask)
    && forall key <- o.byKey :: LastWriter(sorted, mask, n, key, o.byKey[key])
  }

  /** The `by_masked` loop over the sorted reports. */
  method CollectOwners(sorted: seq<Report>, mask: Mask) returns (o: Owners)
    ensures OwnersUpTo(sorted, mask, |sorted|, o)
  {
    hide LastWriter;
    o := Owners([], map[]);
    for n := 0 to |sorted|
      invariant OwnersUpTo(sorted, mask, n, o)
    {
      hide *;
      OneMoreWrite(sorted, mask, n, o);
      o := o.Put(mask(sorted[n].text), sorted[n]);
    }
  }

  lemma OneMoreWrite(sorted: seq<Report>, mask: Mask, n: nat, o: Owners)
    requires n < |sorted| && OwnersUpTo(sorted, mask, n, o)
    ensures OwnersUpTo(sorted, mask, n + 1, o.Put(mask(sorted[n].text), sorted[n]))
  {
    var key := mask(sorted[n].text);
    var next := o.Put(key, sorted[n]);
    OneMoreKey(sorted, mask, n, o);
    hide KeysUpTo;
    ElementsOfAppend(o.keys, key);
    OwnedKeysStep(sorted, mask, n);
    NewestWrites(sorted, mask, n);
    forall k | k in next.byKey ensures LastWriter(sorted, mask, n + 1, k, next.byKey[k]) {
      if k != key {
        StillLastWriter(sorted, mask, n, k, o.byKey[k]);
      }
    }
    hide LastWriter, OwnedKeys, Elements;
    assert next.byKey.Keys == o.byKey.Keys + {key};
  }

  lemma OwnedKeysStep(reports: seq<Report>, mask: Mask, n: nat)
    requires n < |reports|
    ensures OwnedKeys(reports[..n + 1], mask) == OwnedKeys(reports[..n], mask) + {mask(reports[n].text)}
  {
    var before, after := reports[..n], reports[..n + 1];
    assert forall i :: 0 <= i < n ==> before[i] == after[i];
    assert after[n] == reports[n];
    forall k | k in OwnedKeys(before, mask) ensures k in OwnedKeys(after, mask) {
      var i :| 0 <= i < n && mask(before[i].text) == k;
      assert mask(after[i].text) == k;
    }
  }

  lemma NewestWrites(sorted: seq<Report>, mask: Mask, n: nat)
    requires n < |sorted|
    ensures LastWriter(sorted, mask, n + 1, mask(sorted[n].text), sorted[n])
  {}

  lemma StillLastWriter(sorted: seq<Report>, mask: Mask, n: nat, key: string, r: Report)
    requires n < |sorted| && LastWriter(sorted, mask, n, key, r) && mask(sorted[n].text) != key
    ensures LastWriter(sorted, mask, n + 1, key, r)
  {
    var a :| 0 <= a < n && mask(sorted[a].text) == key && r == sorted[a] &&
             forall b :: a < b < n ==> mask(sorted[b].text) != key;
    assert forall b :: a < b < n + 1 ==> mask(sorted[b].text) != key;
  }

  /** The report the last writer leaves behind is the owner. */
  lemma LastWriterOwns(reports: seq<Report>, sorted: seq<Report>, order: seq<nat>, mask: Mask, key: string, r: Report)
    requires Lists(reports, sorted, order)
    requires LastWriter(sorted, mask, |sorted|, key, r)
    ensures OwnedBy(reports, mask, key, r)
  {
    var a :| 0 <= a < |sorted| && mask(sorted[a].text) == key && r == sorted[a] &&
             forall b :: a < b < |sorted| ==> mask(sorted[b].text) != key;
    var i := order[a];
    forall j: nat | j < |reports| && j != i && mask(reports[j].text) == key ensures SortsBefore(reports, j, i) {
      assert j in order;
      var b :| 0 <= b < |order| && order[b] == j;
      assert mask(sorted[b].text) == key;
      assert b < a;
    }
    assert Owns(reports, mask, key, i);
  }

  ghost predicate OwnedBy(reports: seq<Report>, mask: Mask, key: string, r: Report) {
    exists i: nat :: Owns(reports, mask, key, i) && r == reports[i]
  }

  lemma OwnerIsOne(reports: seq<Report>, mask: Mask, key: string, r: Report, s: Report)
    requires OwnedBy(reports, mask, key, r) && OwnedBy(reports, mask, key, s)
    ensures r == s
  {
    var i: nat :| Owns(reports, mask, key, i) && r == reports[i];
    var j: nat :| Owns(reports, mask, key, j) && s == reports[j];
    OwnerUnique(reports, mask, key, i, j);
  }

  lemma SameKeys(reports: seq<Report>, sorted: seq<Report>, order: seq<nat>, mask: Mask)
    requires Lists(reports, sorted, order)
    ensures OwnedKeys(sorted, mask) == OwnedKeys(reports, mask)
  {
    forall key | key in OwnedKeys(sorted, mask) ensures key in OwnedKeys(reports, mask) {
      var a :| 0 <= a < |sorted| && mask(sorted[a].text) == key;
      assert mask(reports[order[a]].text) == key;
    }
    forall key | key in OwnedKeys(reports, mask) ensures key in OwnedKeys(sorted, mask) {
      var i :| 0 <= i < |reports| && mask(reports[i].text) == key;
      assert i in order;
      var a :| 0 <= a < |order| && order[a] == i;
      assert mask(sorted[a].text) == key;
    }
  }

  /** The dictionary gives every reported text its owner. */
  ghost predicate OwnersAre(reports: seq<Report>, mask: Mask, owned: map<string, Report>) {
    && owned.Keys == OwnedKeys(reports, mask)
    && forall key <- owned :: OwnedBy(reports, mask, key, owned[key])
  }

  /** `by_masked`: every reported text with its owner, in the order the sorted reports use them. */
  ghost predicate Dictionary(o: Owners, reports: seq<Report>, mask: Mask) {
    && o.Ok() && OwnersAre(reports, mask, o.byKey)
    && exists sorted :: StablySorted(reports, sorted) && o.keys == FirstUses(sorted, mask, |sorted|)
  }

  /** Sorting and then letting the last writer win. */
  method FindOwners(reports: seq<Report>, mask: Mask) returns (o: Owners)
    ensures Dictionary(o, reports, mask)
  {
    hide *;
    var sorted := SortReports(reports);
    o := CollectOwners(sorted, mask);
    OwnersFound(reports, sorted, mask, o);
  }

  lemma OwnersFound(reports: seq<Report>, sorted: seq<Report>, mask: Mask, o: Owners)
    requires StablySorted(reports, sorted) && OwnersUpTo(sorted, mask, |sorted|, o)
    ensures Dictionary(o, reports, mask)
  {
    hide Lists, LastWriter, OwnedBy, OwnedKeys, FirstUses;
    var order :| Lists(reports, sorted, order);
    assert sorted[..|sorted|] == sorted;
    SameKeys(reports, sorted, order, mask);
    forall key | key in o.byKey ensures OwnedBy(reports, mask, key, o.byKey[key]) {
      LastWriterOwns(reports, sorted, order, mask, key, o.byKey[key]);
    }
  }

  /** There is only one stable sort, */
  lemma StableSortIsOne(reports: seq<Report>, s: seq<Report>, t: seq<Report>)
    requires StablySorted(reports, s) && StablySorted(reports, t)
    ensures s == t
  {
    var a :| Lists(reports, s, a);
    var b :| Lists(reports, t, b);
    forall k | 0 <= k < |reports| ensures a[k] == b[k] {
      SameOrder(reports, a, b, k);
    }
  }

  lemma {:induction false} SameOrder(reports: seq<Report>, a: seq<nat>, b: seq<nat>, k: nat)
    requires StablyOrdered(reports, a) && StablyOrdered(reports, b) && k < |a| == |b| == |reports|
    requires forall i :: 0 <= i < |reports| ==> i in a && i in b
    ensures forall i :: 0 <= i <= k ==> a[i] == b[i]
  {
    if k > 0 {
      SameOrder(reports, a, b, k - 1);
    }
    if a[k] != b[k] {
      ComesLater(reports, a, b, k);
      ComesLater(reports, b, a, k);
      NotBothBefore(reports, a[k], b[k]);
    }
  }

  lemma NotBothBefore(reports: seq<Report>, i: nat, j: nat)
    requires i < |reports| && j < |reports|
    ensures !(SortsBefore(reports, i, j) && SortsBefore(reports, j, i))
  {}

  /** Where two stable orders first part, each puts the other's choice later. */
  lemma ComesLater(reports: seq<Report>, a: seq<nat>, b: seq<nat>, k: nat)
    requires StablyOrdered(reports, a) && StablyOrdered(reports, b) && k < |a| == |b| == |reports|
    requires (forall i :: 0 <= i < |reports| ==> i in b) && (forall i :: 0 <= i < k ==> a[i] == b[i]) && a[k] != b[k]
    ensures SortsBefore(reports, b[k], a[k])
  {
    assert a[k] in b;
    var i :| 0 <= i < |b| && b[i] == a[k];
    NotBothBefore(reports, a[k], a[k]);
    assert forall m :: 0 <= m < k ==> SortsBefore(reports, a[m], a[k]);
    assert i > k;
  }

  /** and so only one dictionary of owners: a snapshot's reports are a function of its inputs. */
  lemma DictionaryIsOne(o: Owners, p: Owners, reports: seq<Report>, mask: Mask)
    requires Dictionary(o, reports, mask) && Dictionary(p, reports, mask)
    ensures o == p
  {
    hide FirstUses, StablySorted, OwnedKeys, OwnedBy;
    var s :| StablySorted(reports, s) && o.keys == FirstUses(s, mask, |s|);
    var t :| StablySorted(reports, t) && p.keys == FirstUses(t, mask, |t|);
    StableSortIsOne(reports, s, t);
    forall key | key in o.byKey ensures o.byKey[key] == p.byKey[key] {
      OwnerIsOne(reports, mask, key, o.byKey[key], p.byKey[key]);
    }
  }

  // ---------------------------------------------------------------- history

  ghost predicate DatasetHas(rows: seq<Row>, mask: Mask, key: string, n: nat)
    requires n <= |rows|
  {
    exists i :: 0 <= i < n && mask(rows[i].text) == key
  }

  /** Row `i` is streamed: no report owns its text and no earlier row has it. */
  ghost predicate Streamed(rows: seq<Row>, mask: Mask, owned: set<string>, i: nat)
    requires i < |rows|
  {
    mask(rows[i].text) !in owned && !DatasetHas(rows, mask, mask(rows[i].text), i)
  }

  function HistoryRow(row: Row): SnapshotRow {
    SnapshotRow(row.text, row.verdict, if row.origin.Some? then row.origin.value else "dataset")
  }

  /** The first `n` dataset rows, without superseded rows and duplicates. */
  ghost function Stream(rows: seq<Row>, mask: Mask, owned: set<string>, n: nat): seq<SnapshotRow>
    requires n <= |rows|
  {
    if n == 0 then []
    else if Streamed(rows, mask, owned, n - 1) then Stream(rows, mask, owned, n - 1) + [HistoryRow(rows[n - 1])]
    else Stream(rows, mask, owned, n - 1)
  }

  ghost function Superseded(rows: seq<Row>, mask: Mask, owned: set<string>, n: nat): nat
    requires n <= |rows|
  {
    if n == 0 then 0
    else Superseded(rows, mask, owned, n - 1) + if mask(rows[n - 1].text) in owned then 1 else 0
  }

  /** A report owns the row's text and gives it another label. */
  ghost predicate Corrects(reports: seq<Report>, mask: Mask, row: Row) {
    exists r :: OwnedBy(reports, mask, mask(row.text), r) && r.verdict != row.verdict
  }

  ghost function Relabelled(rows: seq<Row>, reports: seq<Report>, mask: Mask, n: nat): nat
    requires n <= |rows|
  {
    if n == 0 then 0
    else Relabelled(rows, reports, mask, n - 1) + if Corrects(reports, mask, rows[n - 1]) then 1 else 0
  }

  lemma CorrectsByOwner(reports: seq<Report>, mask: Mask, owned: map<string, Report>, row: Row)
    requires OwnersAre(reports, mask, owned)
    ensures Corrects(reports, mask, row) <==>
            mask(row.text) in owned && owned[mask(row.text)].verdict != row.verdict
  {
    var key := mask(row.text);
    if key in owned {
      forall r | OwnedBy(reports, mask, key, r) ensures r == owned[key] {
        OwnerIsOne(reports, mask, key, r, owned[key]);
      }
    } else {
      forall r ensures OwnedBy(reports, mask, key, r) ==> key in OwnedKeys(reports, mask) {}
    }
  }

  /** What a run fills in. */
  class Manifest {
    var reports: nat
    var reportIds: seq<string>
    var rowsSeen: nat
    var duplicatesDropped: nat
    var superseded: nat
    var relabelled: nat
    var historyAfterSampling: nat
    var total: nat
    var labelCounts: map<string, nat>
    /** What `dataset_sha256` is the SHA-256 of. */
    var datasetText: string

    constructor (reports: nat, reportIds: seq<string>)
      ensures this.reports == reports && this.reportIds == reportIds
      ensures rowsSeen == duplicatesDropped == superseded == relabelled == historyAfterSampling == total == 0
    {
      this.reports, this.reportIds := reports, reportIds;
      rowsSeen, duplicatesDropped, superseded, relabelled, historyAfterSampling, total := 0, 0, 0, 0, 0, 0;
      labelCounts, datasetText := map[], "";
    }
  }

  ghost predicate SeenIs(rows: seq<Row>, mask: Mask, owned: set<string>, n: nat, seen: set<string>)
    requires n <= |rows|
  {
    forall key :: key in seen <==> key !in owned && DatasetHas(rows, mask, key, n)
  }

  lemma DatasetHasStep(rows: seq<Row>, mask: Mask, n: nat)
    requires n < |rows|
    ensures forall key :: DatasetHas(rows, mask, key, n + 1) <==>
              DatasetHas(rows, mask, key, n) || key == mask(rows[n].text)
  {
    forall key | DatasetHas(rows, mask, key, n) ensures DatasetHas(rows, mask, key, n + 1) {
      var i :| 0 <= i < n && mask(rows[i].text) == key;
      assert 0 <= i < n + 1;
    }
    assert DatasetHas(rows, mask, mask(rows[n].text), n + 1);
  }

  /** The generator's set of texts already seen tells which row to stream. */
  lemma SeenStep(rows: seq<Row>, mask: Mask, owned: set<string>, n: nat, seen: set<string>)
    requires n < |rows| && SeenIs(rows, mask, owned, n, seen)
    ensures var key := mask(rows[n].text);
            (Streamed(rows, mask, owned, n) <==> key !in owned && key !in seen) &&
            SeenIs(rows, mask, owned, n + 1, if key in owned then seen else seen + {key})
  {
    DatasetHasStep(rows, mask, n);
    hide DatasetHas;
  }

  /** What one more dataset row does to the stream and the counts. */
  lemma OneMoreRow(rows: seq<Row>, reports: seq<Report>, mask: Mask, owned: map<string, Report>, n: nat,
                   seen: set<string>)
    requires n < |rows| && OwnersAre(reports, mask, owned) && SeenIs(rows, mask, owned.Keys, n, seen)
    ensures var key := mask(rows[n].text);
            var streamed := key !in owned && key !in seen;
            && Stream(rows, mask, owned.Keys, n + 1)
               == Stream(rows, mask, owned.Keys, n) + (if streamed then [HistoryRow(rows[n])] else [])
            && Superseded(rows, mask, owned.Keys, n + 1)
               == Superseded(rows, mask, owned.Keys, n) + (if key in owned then 1 else 0)
            && Relabelled(rows, reports, mask, n + 1) == Relabelled(rows, reports, mask, n)
               + (if key in owned && owned[key].verdict != rows[n].verdict then 1 else 0)
            && SeenIs(rows, mask, owned.Keys, n + 1, if streamed then seen + {key} else seen)
  {
    SeenStep(rows, mask, owned.Keys, n, seen);
    CorrectsByOwner(reports, mask, owned, rows[n]);
    hide OwnersAre, SeenIs, Streamed, Corrects;
    if mask(rows[n].text) in seen {
      assert seen + {mask(rows[n].text)} == seen;
    }
  }

  lemma NoRows(rows: seq<Row>, reports: seq<Report>, mask: Mask, owned: set<string>)
    ensures Stream(rows, mask, owned, 0) == []
    ensures Superseded(rows, mask, owned, 0) == Relabelled(rows, reports, mask, 0) == 0
    ensures SeenIs(rows, mask, owned, 0, {})
  {}

  /** The `history` generator, consumed to its end. */
  method History(rows: seq<Row>, ghost reports: seq<Report>, mask: Mask, owned: map<string, Report>, m: Manifest)
    returns (stream: seq<SnapshotRow>)
    requires OwnersAre(reports, mask, owned)
    requires m.rowsSeen == m.duplicatesDropped == m.superseded == m.relabelled == 0
    modifies m`rowsSeen, m`duplicatesDropped, m`superseded, m`relabelled
    ensures stream == Stream(rows, mask, owned.Keys, |rows|)
    ensures m.rowsSeen == |rows| == m.superseded + m.duplicatesDropped + |stream|
    ensures m.superseded == Superseded(rows, mask, owned.Keys, |rows|)
    ensures m.relabelled == Relabelled(rows, reports, mask, |rows|)
  {
    hide *;
    NoRows(rows, reports, mask, owned.Keys);
    stream := [];
    var seen: set<string> := {};
    for n := 0 to |rows|
      invariant stream == Stream(rows, mask, owned.Keys, n)
      invariant SeenIs(rows, mask, owned.Keys, n, seen)
      invariant m.rowsSeen == n == m.superseded + m.duplicatesDropped + |stream|
      invariant m.superseded == Superseded(rows, mask, owned.Keys, n)
      invariant m.relabelled == Relabelled(rows, reports, mask, n)
    {
      OneMoreRow(rows, reports, mask, owned, n, seen);
      m.rowsSeen := m.rowsSeen + 1;
      var key := mask(rows[n].text);
      if key in owned {
        m.superseded := m.superseded + 1;
        if owned[key].verdict != rows[n].verdict {
          m.relabelled := m.relabelled + 1;
        }
        continue;
      }
      if key in seen {
        m.duplicatesDropped := m.duplicatesDropped + 1;
        continue;
      }
      seen := seen + {key};
      stream := stream + [HistoryRow(rows[n])];
    }
  }

  // ---------------------------------------------------------------- no text twice

  ghost predicate DistinctKeys(rows: seq<SnapshotRow>, mask: Mask) {
    forall i, j :: 0 <= i < j < |rows| ==> mask(rows[i].text) != mask(rows[j].text)
  }

  ghost predicate HasMasked(rows: seq<SnapshotRow>, mask: Mask, key: string) {
    exists i :: 0 <= i < |rows| && mask(rows[i].text) == key
  }

  /** The stream has every unowned dataset text exactly once, and no owned one. */
  lemma {:induction false} StreamIs(rows: seq<Row>, mask: Mask, owned: set<string>, n: nat)
    requires n <= |rows|
    ensures DistinctKeys(Stream(rows, mask, owned, n), mask)
    ensures forall key :: HasMasked(Stream(rows, mask, owned, n), mask, key) <==>
              key !in owned && DatasetHas(rows, mask, key, n)
  {
    if n > 0 {
      StreamIs(rows, mask, owned, n - 1);
      DatasetHasStep(rows, mask, n - 1);
      if Streamed(rows, mask, owned, n - 1) {
        hide HasMasked, DistinctKeys, DatasetHas;
        AppendKey(Stream(rows, mask, owned, n - 1), HistoryRow(rows[n - 1]), mask);
      }
    }
  }

  lemma AppendKey(rows: seq<SnapshotRow>, r: SnapshotRow, mask: Mask)
    requires DistinctKeys(rows, mask) && !HasMasked(rows, mask, mask(r.text))
    ensures DistinctKeys(rows + [r], mask)
    ensures forall key :: HasMasked(rows + [r], mask, key) <==> HasMasked(rows, mask, key) || key == mask(r.text)
  {
    var all := rows + [r];
    assert all[|rows|] == r;
    forall key | HasMasked(rows, mask, key) ensures HasMasked(all, mask, key) {
      var i :| 0 <= i < |rows| && mask(rows[i].text) == key;
      assert all[i] == rows[i];
    }
  }

  // ---------------------------------------------------------------- the snapshot

  /** Rows left for history under a cap: reports are never dropped. */
  ghost function Budget(reports: seq<Report>, mask: Mask, cap: int): nat {
    if cap > |OwnedKeys(reports, mask)| then cap - |OwnedKeys(reports, mask)| else 0
  }

  ghost function WholeStream(rows: seq<Row>, reports: seq<Report>, mask: Mask): seq<SnapshotRow> {
    Stream(rows, mask, OwnedKeys(reports, mask), |rows|)
  }

  /** `draws` is what the generator returns while the history passes the reservoir. */
  ghost predicate DrawsFit(rows: seq<Row>, reports: seq<Report>, mask: Mask, cap: Option<int>, draws: seq<nat>) {
    cap.Some? && Budget(reports, mask, cap.value) > 0 ==>
      Sampling.ValidDraws(Budget(reports, mask, cap.value), |WholeStream(rows, reports, mask)|, draws)
  }

  ghost function Sampled(rows: seq<Row>, reports: seq<Report>, mask: Mask, cap: Option<int>,
                         draws: seq<nat>): seq<SnapshotRow>
    requires DrawsFit(rows, reports, mask, cap, draws)
  {
    if cap.None? then WholeStream(rows, reports, mask)
    else if Budget(reports, mask, cap.value) == 0 then []
    else Sampling.Reservoir(WholeStream(rows, reports, mask), Budget(reports, mask, cap.value), draws)
  }

  function ReportRow(r: Report): SnapshotRow {
    SnapshotRow(r.text, r.verdict, "report")
  }

  /** Each reported text once, with the label of its owner. */
  ghost predicate OwnersInFull(part: seq<SnapshotRow>, reports: seq<Report>, mask: Mask) {
    && |part| == |OwnedKeys(reports, mask)|
    && DistinctKeys(part, mask)
    && (forall i :: 0 <= i < |part| ==> RowOfOwner(part[i], reports, mask))
    && (forall key <- OwnedKeys(reports, mask) :: HasMasked(part, mask, key))
  }

  ghost predicate RowOfOwner(row: SnapshotRow, reports: seq<Report>, mask: Mask) {
    exists r :: OwnedBy(reports, mask, mask(row.text), r) && row == ReportRow(r)
  }

  function ReportRows(o: Owners): (part: seq<SnapshotRow>)
    requires o.Filled()
    ensures |part| == |o.keys| && forall i :: 0 <= i < |part| ==> part[i] == ReportRow(o.byKey[o.keys[i]])
  {
    seq(|o.keys|, i requires 0 <= i < |o.keys| => ReportRow(o.byKey[o.keys[i]]))
  }

  /** The owners' rows in dictionary order, then the sample. */
  ghost predicate SnapshotFrom(o: Owners, out: seq<SnapshotRow>, rows: seq<Row>, reports: seq<Report>, mask: Mask,
                               cap: Option<int>, draws: seq<nat>)
    requires DrawsFit(rows, reports, mask, cap, draws)
  {
    Dictionary(o, reports, mask) && o.Filled() && out == ReportRows(o) + Sampled(rows, reports, mask, cap, draws)
  }

  ghost predicate IsSnapshot(out: seq<SnapshotRow>, rows: seq<Row>, reports: seq<Report>, mask: Mask, cap: Option<int>,
                             draws: seq<nat>)
    requires DrawsFit(rows, reports, mask, cap, draws)
  {
    exists o :: SnapshotFrom(o, out, rows, reports, mask, cap, draws)
  }

  /** The two parts of a snapshot. */
  ghost predicate InTwoParts(out: seq<SnapshotRow>, rows: seq<Row>, reports: seq<Report>, mask: Mask, cap: Option<int>,
                             draws: seq<nat>)
    requires DrawsFit(rows, reports, mask, cap, draws)
  {
    var owners := |OwnedKeys(reports, mask)|;
    && |out| >= owners
    && OwnersInFull(out[..owners], reports, mask)
    && out[owners..] == Sampled(rows, reports, mask, cap, draws)
  }

  lemma SnapshotParts(out: seq<SnapshotRow>, rows: seq<Row>, reports: seq<Report>, mask: Mask, cap: Option<int>,
                      draws: seq<nat>)
    requires DrawsFit(rows, reports, mask, cap, draws) && IsSnapshot(out, rows, reports, mask, cap, draws)
    ensures InTwoParts(out, rows, reports, mask, cap, draws)
  {
    hide Sampled, DrawsFit, OwnedKeys, OwnersInFull;
    var o :| SnapshotFrom(o, out, rows, reports, mask, cap, draws);
    var part := ReportRows(o);
    RowsOfOwners(reports, mask, o, part);
    assert |part| == |OwnedKeys(reports, mask)| by { FullHasSize(part, reports, mask); }
    assert out[..|part|] == part;
    assert out[|part|..] == Sampled(rows, reports, mask, cap, draws);
  }

  lemma OkIsFilled(o: Owners)
    requires o.Ok()
    ensures o.Filled() && |o.keys| == |o.byKey.Keys|
  {
    DistinctCardinality(o.keys);
    forall i | 0 <= i < |o.keys| ensures o.keys[i] in o.byKey {
      assert o.keys[i] in Elements(o.keys);
    }
  }

  lemma RowsOfOwners(reports: seq<Report>, mask: Mask, o: Owners, part: seq<SnapshotRow>)
    requires o.Ok() && OwnersAre(reports, mask, o.byKey) && |part| == |o.keys|
    requires forall i :: 0 <= i < |part| ==> o.keys[i] in o.byKey && part[i] == ReportRow(o.byKey[o.keys[i]])
    ensures OwnersInFull(part, reports, mask)
  {
    DistinctCardinality(o.keys);
    forall i | 0 <= i < |part| ensures mask(part[i].text) == o.keys[i] && RowOfOwner(part[i], reports, mask) {
      OwnerHasKey(reports, mask, o.keys[i], o.byKey[o.keys[i]]);
    }
    hide OwnedKeys, RowOfOwner, OwnedBy;
    forall key | key in OwnedKeys(reports, mask) ensures HasMasked(part, mask, key) {
      assert key in o.keys;
      var i :| 0 <= i < |o.keys| && o.keys[i] == key;
      assert mask(part[i].text) == key;
    }
  }

  lemma OwnerHasKey(reports: seq<Report>, mask: Mask, key: string, r: Report)
    requires OwnedBy(reports, mask, key, r)
    ensures mask(r.text) == key
  {}

  /** `[r.report_id for r in by_masked.values() if r.report_id]`. */
  function GivenIds(reports: seq<Report>): seq<string> {
    if reports == [] then []
    else
      var last := reports[|reports| - 1].id;
      GivenIds(reports[..|reports| - 1]) + if last == "" then [] else [last]
  }

  ghost function RowsLabelled(rows: seq<SnapshotRow>, verdict: string): set<nat> {
    set i: nat | i < |rows| && rows[i].verdict == verdict
  }

  ghost function LabelCount(rows: seq<SnapshotRow>, verdict: string): nat {
    |RowsLabelled(rows, verdict)|
  }

  /** Every label that occurs, with the number of rows that have it. */
  ghost predicate CountsLabels(counts: map<string, nat>, rows: seq<SnapshotRow>) {
    && (forall v :: v in counts <==> LabelCount(rows, v) > 0)
    && (forall v <- counts :: counts[v] == LabelCount(rows, v))
  }

  /** The loop that fills `label_counts`. */
  method CountLabels(rows: seq<SnapshotRow>) returns (counts: map<string, nat>)
    ensures CountsLabels(counts, rows)
  {
    counts := map[];
    NoLabels(rows);
    hide CountsLabels;
    for n := 0 to |rows|
      invariant CountsLabels(counts, rows[..n])
    {
      OneMoreLabel(counts, rows, n);
      var v := rows[n].verdict;
      counts := counts[v := (if v in counts then counts[v] else 0) + 1];
    }
    assert rows[..|rows|] == rows;
  }

  lemma OneMoreLabel(counts: map<string, nat>, rows: seq<SnapshotRow>, n: nat)
    requires n < |rows| && CountsLabels(counts, rows[..n])
    ensures var v := rows[n].verdict;
            CountsLabels(counts[v := (if v in counts then counts[v] else 0) + 1], rows[..n + 1])
  {
    hide LabelCount;
    forall v: string
      ensures LabelCount(rows[..n + 1], v) == LabelCount(rows[..n], v) + (if rows[n].verdict == v then 1 else 0)
    {
      LabelledStep(rows, n, v);
    }
  }

  lemma LabelledStep(rows: seq<SnapshotRow>, n: nat, v: string)
    requires n < |rows|
    ensures LabelCount(rows[..n + 1], v) == LabelCount(rows[..n], v) + (if rows[n].verdict == v then 1 else 0)
  {
    var before, after := RowsLabelled(rows[..n], v), RowsLabelled(rows[..n + 1], v);
    assert after == before + (if rows[n].verdict == v then {n} else {});
    assert n !in before;
  }

  lemma NoLabels(rows: seq<SnapshotRow>)
    ensures CountsLabels(map[], rows[..0])
  {
    forall v ensures LabelCount(rows[..0], v) == 0 {
      assert RowsLabelled(rows[..0], v) == {};
    }
  }

  /** The masked text and label of every row. */
  function Pairs(rows: seq<SnapshotRow>, mask: Mask): (r: seq<(string, string)>)
    ensures |r| == |rows| && forall i :: 0 <= i < |rows| ==> r[i] == (mask(rows[i].text), rows[i].verdict)
  {
    seq(|rows|, i requires 0 <= i < |rows| => (mask(rows[i].text), rows[i].verdict))
  }

  /** `build_snapshot`.  `maxHistory` of none keeps the whole history. */
  method BuildSnapshot(rows: seq<Row>, reports: seq<Report>, mask: Mask, maxHistory: Option<int>, draws: seq<nat>)
    returns (out: seq<SnapshotRow>, m: Manifest)
    requires DrawsFit(rows, reports, mask, maxHistory, draws)
    ensures fresh(m)
    ensures exists o ::
              SnapshotFrom(o, out, rows, reports, mask, maxHistory, draws) && m.reportIds == GivenIds(o.Values())
    ensures m.reports == |OwnedKeys(reports, mask)|
    ensures m.total == |out| == m.reports + m.historyAfterSampling
    ensures if maxHistory.None? || Budget(reports, mask, maxHistory.value) > 0 then
              m.rowsSeen == |rows| == m.superseded + m.duplicatesDropped + |WholeStream(rows, reports, mask)| &&
              m.superseded == Superseded(rows, mask, OwnedKeys(reports, mask), |rows|) &&
              m.relabelled == Relabelled(rows, reports, mask, |rows|)
            else m.rowsSeen == m.superseded == m.duplicatesDropped == m.relabelled == 0
    ensures CountsLabels(m.labelCounts, out)
    ensures m.datasetText == DatasetDigest.Text(Pairs(out, mask))
  {
    hide *;
    var o := FindOwners(reports, mask);
    KnowsOwners(o, reports, mask);
    m := new Manifest(|o.keys|, GivenIds(o.Values()));
    var sampled := SampleHistory(rows, reports, mask, o, maxHistory, draws, m);
    m.historyAfterSampling := |sampled|;
    out := ReportRows(o) + sampled;
    m.total := |out|;
    m.labelCounts := CountLabels(out);
    m.datasetText := DatasetDigest.DigestText(Pairs(out, mask));
    assert SnapshotFrom(o, out, rows, reports, mask, maxHistory, draws) by {
      FromParts(o, out, rows, reports, mask, maxHistory, draws);
    }
  }

  lemma KnowsOwners(o: Owners, reports: seq<Report>, mask: Mask)
    requires Dictionary(o, reports, mask)
    ensures o.Ok() && OwnersAre(reports, mask, o.byKey) && o.Filled()
    ensures |o.keys| == |o.byKey.Keys| && o.byKey.Keys == OwnedKeys(reports, mask)
  {
    OkIsFilled(o);
  }

  lemma FromParts(o: Owners, out: seq<SnapshotRow>, rows: seq<Row>, reports: seq<Report>, mask: Mask,
                  cap: Option<int>, draws: seq<nat>)
    requires DrawsFit(rows, reports, mask, cap, draws) && Dictionary(o, reports, mask) && o.Filled()
    requires out == ReportRows(o) + Sampled(rows, reports, mask, cap, draws)
    ensures SnapshotFrom(o, out, rows, reports, mask, cap, draws)
  {
    hide DrawsFit, Dictionary, Sampled;
  }

  /** The history that fits beside the reports. */
  method SampleHistory(rows: seq<Row>, ghost reports: seq<Report>, mask: Mask, o: Owners, maxHistory: Option<int>,
                       draws: seq<nat>, m: Manifest)
    returns (sampled: seq<SnapshotRow>)
    requires DrawsFit(rows, reports, mask, maxHistory, draws)
    requires OwnersAre(reports, mask, o.byKey) && |o.keys| == |o.byKey.Keys| && o.byKey.Keys == OwnedKeys(reports, mask)
    requires m.rowsSeen == m.duplicatesDropped == m.superseded == m.relabelled == 0
    modifies m`rowsSeen, m`duplicatesDropped, m`superseded, m`relabelled
    ensures sampled == Sampled(rows, reports, mask, maxHistory, draws)
    ensures if maxHistory.None? || Budget(reports, mask, maxHistory.value) > 0 then
              m.rowsSeen == |rows| == m.superseded + m.duplicatesDropped + |WholeStream(rows, reports, mask)| &&
              m.superseded == Superseded(rows, mask, OwnedKeys(reports, mask), |rows|) &&
              m.relabelled == Relabelled(rows, reports, mask, |rows|)
            else m.rowsSeen == m.superseded == m.duplicatesDropped == m.relabelled == 0
  {
    hide OwnedKeys, OwnersAre, Stream, Superseded, Relabelled, Sampling.ValidDraws, Sampling.Reservoir;
    sampled := [];
    if maxHistory.None? {
      sampled := History(rows, reports, mask, o.byKey, m);
    } else {
      var budget := if maxHistory.value > |o.keys| then maxHistory.value - |o.keys| else 0;
      // A lazy generator: a reservoir of size 0 never asks it for a row.
      var stream: seq<SnapshotRow> := [];
      if budget > 0 {
        stream := History(rows, reports, mask, o.byKey, m);
      }
      var r, _ := Sampling.ReservoirSample(stream, budget, draws);
      sampled := r.value;
    }
  }

  lemma FullHasSize(part: seq<SnapshotRow>, reports: seq<Report>, mask: Mask)
    requires OwnersInFull(part, reports, mask)
    ensures |part| == |OwnedKeys(reports, mask)|
  {}

  // ---------------------------------------------------------------- what a snapshot guarantees

  /** Sampling keeps texts distinct, and takes them only from the unowned dataset texts. */
  lemma SampledIsFromStream(rows: seq<Row>, reports: seq<Report>, mask: Mask, cap: Option<int>, draws: seq<nat>)
    requires DrawsFit(rows, reports, mask, cap, draws)
    ensures DistinctKeys(Sampled(rows, reports, mask, cap, draws), mask)
    ensures forall key :: HasMasked(Sampled(rows, reports, mask, cap, draws), mask, key) ==>
                            key !in OwnedKeys(reports, mask) && DatasetHas(rows, mask, key, |rows|)
  {
    hide OwnedKeys, DatasetHas, Stream, Sampling.Reservoir, Sampling.ValidDraws;
    var stream := WholeStream(rows, reports, mask);
    StreamIs(rows, mask, OwnedKeys(reports, mask), |rows|);
    if cap.Some? && Budget(reports, mask, cap.value) > 0 {
      var k := Budget(reports, mask, cap.value);
      ReservoirKeepsKeys(stream, mask, k, draws);
    }
  }

  lemma ReservoirKeepsKeys(stream: seq<SnapshotRow>, mask: Mask, k: nat, draws: seq<nat>)
    requires Sampling.ValidDraws(k, |stream|, draws) && DistinctKeys(stream, mask)
    ensures DistinctKeys(Sampling.Reservoir(stream, k, draws), mask)
    ensures forall key :: HasMasked(Sampling.Reservoir(stream, k, draws), mask, key) ==> HasMasked(stream, mask, key)
  {
    hide Sampling.ValidDraws, Sampling.Reservoir, Sampling.Kept;
    Sampling.KeptDistinct(k, |stream|, draws);
    Sampling.ReservoirHoldsKeptItems(stream, k, draws);
    var kept, sample := Sampling.Kept(k, |stream|, draws), Sampling.Reservoir(stream, k, draws);
    forall i, j | 0 <= i < j < |sample| ensures mask(sample[i].text) != mask(sample[j].text) {
      assert kept[i] != kept[j];
      assert sample[i] == stream[kept[i]] && sample[j] == stream[kept[j]];
    }
    forall key | HasMasked(sample, mask, key) ensures HasMasked(stream, mask, key) {
      var i :| 0 <= i < |sample| && mask(sample[i].text) == key;
      assert mask(stream[kept[i]].text) == key;
    }
  }

  /** No masked text twice, every reported text once and with its owner's label, and nothing
      that neither source has. */
  lemma SnapshotIsClean(out: seq<SnapshotRow>, rows: seq<Row>, reports: seq<Report>, mask: Mask, cap: Option<int>,
                        draws: seq<nat>)
    requires DrawsFit(rows, reports, mask, cap, draws) && IsSnapshot(out, rows, reports, mask, cap, draws)
    ensures DistinctKeys(out, mask)
    ensures forall key <- OwnedKeys(reports, mask) :: HasMasked(out, mask, key)
    ensures forall i :: 0 <= i < |out| && mask(out[i].text) in OwnedKeys(reports, mask) ==>
            RowOfOwner(out[i], reports, mask)
    ensures forall i :: 0 <= i < |out| ==>
                          mask(out[i].text) in OwnedKeys(reports, mask) ||
                          DatasetHas(rows, mask, mask(out[i].text), |rows|)
  {
    hide *;
    var owners := |OwnedKeys(reports, mask)|;
    SnapshotShape(out, rows, reports, mask, cap, draws);
    forall i: nat | i < owners
      ensures mask(out[i].text) in OwnedKeys(reports, mask) && RowOfOwner(out[i], reports, mask)
    {
      ReportPart(out, rows, reports, mask, cap, draws, i);
    }
    forall i: nat | owners <= i < |out|
      ensures mask(out[i].text) !in OwnedKeys(reports, mask) && DatasetHas(rows, mask, mask(out[i].text), |rows|)
    {
      HistoryPart(out, rows, reports, mask, cap, draws, i);
    }
    DistinctHalves(out, owners, mask);
  }

  lemma SnapshotShape(out: seq<SnapshotRow>, rows: seq<Row>, reports: seq<Report>, mask: Mask, cap: Option<int>,
                      draws: seq<nat>)
    requires DrawsFit(rows, reports, mask, cap, draws) && IsSnapshot(out, rows, reports, mask, cap, draws)
    ensures var owners := |OwnedKeys(reports, mask)|;
            owners <= |out| && DistinctKeys(out[..owners], mask) && DistinctKeys(out[owners..], mask)
    ensures forall key <- OwnedKeys(reports, mask) :: HasMasked(out, mask, key)
  {
    hide *;
    SampledIsFromStream(rows, reports, mask, cap, draws);
    SnapshotParts(out, rows, reports, mask, cap, draws);
    TailIsSample(out, rows, reports, mask, cap, draws);
    HeadIsOwners(out, rows, reports, mask, cap, draws);
    forall key | key in OwnedKeys(reports, mask) ensures HasMasked(out, mask, key) {
      KeyOfHead(out, |OwnedKeys(reports, mask)|, mask, key);
    }
  }

  lemma HeadIsOwners(out: seq<SnapshotRow>, rows: seq<Row>, reports: seq<Report>, mask: Mask, cap: Option<int>,
                     draws: seq<nat>)
    requires DrawsFit(rows, reports, mask, cap, draws) && InTwoParts(out, rows, reports, mask, cap, draws)
    ensures var owners := |OwnedKeys(reports, mask)|;
            && owners <= |out| && DistinctKeys(out[..owners], mask)
            && (forall key <- OwnedKeys(reports, mask) :: HasMasked(out[..owners], mask, key))
            && (forall i :: 0 <= i < owners ==> RowOfOwner(out[..owners][i], reports, mask))
  {
    hide DrawsFit, OwnedKeys, Sampled, DistinctKeys, HasMasked, RowOfOwner;
  }

  lemma KeyOfHead(out: seq<SnapshotRow>, n: nat, mask: Mask, key: string)
    requires n <= |out| && HasMasked(out[..n], mask, key)
    ensures HasMasked(out, mask, key)
  {
    var i :| 0 <= i < n && mask(out[..n][i].text) == key;
    assert out[i] == out[..n][i];
  }

  lemma ReportPart(out: seq<SnapshotRow>, rows: seq<Row>, reports: seq<Report>, mask: Mask, cap: Option<int>,
                   draws: seq<nat>, i: nat)
    requires DrawsFit(rows, reports, mask, cap, draws) && IsSnapshot(out, rows, reports, mask, cap, draws)
    requires i < |OwnedKeys(reports, mask)|
    ensures i < |out| && mask(out[i].text) in OwnedKeys(reports, mask) && RowOfOwner(out[i], reports, mask)
  {
    hide *;
    SnapshotParts(out, rows, reports, mask, cap, draws);
    HeadIsOwners(out, rows, reports, mask, cap, draws);
    assert out[i] == out[..|OwnedKeys(reports, mask)|][i];
    OwnerRowIsOwned(out[i], reports, mask);
  }

  lemma HistoryPart(out: seq<SnapshotRow>, rows: seq<Row>, reports: seq<Report>, mask: Mask, cap: Option<int>,
                    draws: seq<nat>, i: nat)
    requires DrawsFit(rows, reports, mask, cap, draws) && IsSnapshot(out, rows, reports, mask, cap, draws)
    requires |OwnedKeys(reports, mask)| <= i < |out|
    ensures mask(out[i].text) !in OwnedKeys(reports, mask) && DatasetHas(rows, mask, mask(out[i].text), |rows|)
  {
    hide *;
    SampledIsFromStream(rows, reports, mask, cap, draws);
    SnapshotParts(out, rows, reports, mask, cap, draws);
    TailIsSample(out, rows, reports, mask, cap, draws);
    TailHasKey(out, |OwnedKeys(reports, mask)|, i, mask);
  }

  lemma TailIsSample(out: seq<SnapshotRow>, rows: seq<Row>, reports: seq<Report>, mask: Mask, cap: Option<int>,
                     draws: seq<nat>)
    requires DrawsFit(rows, reports, mask, cap, draws) && InTwoParts(out, rows, reports, mask, cap, draws)
    ensures var owners := |OwnedKeys(reports, mask)|;
            owners <= |out| && out[owners..] == Sampled(rows, reports, mask, cap, draws)
  {
    hide DrawsFit, OwnersInFull, OwnedKeys, Sampled;
  }

  lemma TailHasKey(out: seq<SnapshotRow>, n: nat, i: nat, mask: Mask)
    requires n <= i < |out|
    ensures HasMasked(out[n..], mask, mask(out[i].text))
  {
    assert out[n..][i - n] == out[i];
  }

  lemma OwnerRowIsOwned(row: SnapshotRow, reports: seq<Report>, mask: Mask)
    requires RowOfOwner(row, reports, mask)
    ensures mask(row.text) in OwnedKeys(reports, mask)
  {}

  lemma DistinctHalves(out: seq<SnapshotRow>, n: nat, mask: Mask)
    requires n <= |out| && DistinctKeys(out[..n], mask) && DistinctKeys(out[n..], mask)
    requires forall i, j :: 0 <= i < n <= j < |out| ==> mask(out[i].text) != mask(out[j].text)
    ensures DistinctKeys(out, mask)
  {
    var a, b := out[..n], out[n..];
    forall i, j | 0 <= i < j < |out| ensures mask(out[i].text) != mask(out[j].text) {
      if j < n {
        assert a[i] == out[i] && a[j] == out[j];
      } else if n <= i {
        assert b[i - n] == out[i] && b[j - n] == out[j];
      }
    }
  }

  /** The exact size under a cap, and so never more than the larger of the cap and the reports. */
  lemma CapBoundsSnapshot(out: seq<SnapshotRow>, rows: seq<Row>, reports: seq<Report>, mask: Mask, cap: int,
                          draws: seq<nat>)
    requires DrawsFit(rows, reports, mask, Some(cap), draws) && IsSnapshot(out, rows, reports, mask, Some(cap), draws)
    ensures var owners, available := |OwnedKeys(reports, mask)|, |WholeStream(rows, reports, mask)|;
            |out| == if cap <= owners then owners
                     else if owners + available <= cap then owners + available
                     else cap
  {
    SnapshotParts(out, rows, reports, mask, Some(cap), draws);
    hide OwnedKeys, WholeStream, OwnersInFull, Sampling.ValidDraws, IsSnapshot;
  }

  /** Without a cap the snapshot has exactly the masked texts of the two sources. */
  lemma UncappedIsUnion(out: seq<SnapshotRow>, rows: seq<Row>, reports: seq<Report>, mask: Mask, draws: seq<nat>,
                        key: string)
    requires DrawsFit(rows, reports, mask, None, draws) && IsSnapshot(out, rows, reports, mask, None, draws)
    ensures HasMasked(out, mask, key) <==> key in OwnedKeys(reports, mask) || DatasetHas(rows, mask, key, |rows|)
  {
    hide OwnedKeys, Stream, OwnersInFull, DatasetHas, DistinctKeys, RowOfOwner, IsSnapshot;
    SnapshotIsClean(out, rows, reports, mask, None, draws);
    StreamIs(rows, mask, OwnedKeys(reports, mask), |rows|);
    if HasMasked(Stream(rows, mask, OwnedKeys(reports, mask), |rows|), mask, key) {
      UncappedTail(out, rows, reports, mask, draws, key);
    }
  }

  lemma UncappedTail(out: seq<SnapshotRow>, rows: seq<Row>, reports: seq<Report>, mask: Mask, draws: seq<nat>,
                     key: string)
    requires DrawsFit(rows, reports, mask, None, draws) && IsSnapshot(out, rows, reports, mask, None, draws)
    requires HasMasked(Stream(rows, mask, OwnedKeys(reports, mask), |rows|), mask, key)
    ensures HasMasked(out, mask, key)
  {
    SnapshotParts(out, rows, reports, mask, None, draws);
    hide OwnedKeys, Stream, OwnersInFull, IsSnapshot;
    var owners := |OwnedKeys(reports, mask)|;
    var tail := out[owners..];
    var i :| 0 <= i < |tail| && mask(tail[i].text) == key;
    assert out[owners + i] == tail[i];
  }

  // ---------------------------------------------------------------- every text has the same chance

  /** The draw sequences under which a snapshot takes `key` from the history. */
  ghost function TracesTaking(rows: seq<Row>, reports: seq<Report>, mask: Mask, cap: int, key: string): set<seq<nat>>
    requires Budget(reports, mask, cap) > 0
  {
    var stream := WholeStream(rows, reports, mask);
    set t | t in Sampling.Traces(Budget(reports, mask, cap), |stream|) &&
            HasMasked(Sampling.Reservoir(stream, Budget(reports, mask, cap), t), mask, key)
  }

  /** Those are the draws under which the snapshot has a text that no report owns. */
  lemma TakenMeans(out: seq<SnapshotRow>, rows: seq<Row>, reports: seq<Report>, mask: Mask, cap: int, draws: seq<nat>,
                   key: string)
    requires Budget(reports, mask, cap) > 0 && DrawsFit(rows, reports, mask, Some(cap), draws)
    requires draws in Sampling.Traces(Budget(reports, mask, cap), |WholeStream(rows, reports, mask)|)
    requires IsSnapshot(out, rows, reports, mask, Some(cap), draws) && key !in OwnedKeys(reports, mask)
    ensures HasMasked(out, mask, key) <==> draws in TracesTaking(rows, reports, mask, cap, key)
  {
    var n, sample := |OwnedKeys(reports, mask)|, Sampled(rows, reports, mask, Some(cap), draws);
    SnapshotParts(out, rows, reports, mask, Some(cap), draws);
    TailIsSample(out, rows, reports, mask, Some(cap), draws);
    hide *;
    HeadIsOwned(out, rows, reports, mask, Some(cap), draws);
    KeyIsInTail(out, n, mask, key, OwnedKeys(reports, mask));
    TakenIs(rows, reports, mask, cap, draws, key);
  }

  lemma HeadIsOwned(out: seq<SnapshotRow>, rows: seq<Row>, reports: seq<Report>, mask: Mask, cap: Option<int>,
                    draws: seq<nat>)
    requires DrawsFit(rows, reports, mask, cap, draws) && IsSnapshot(out, rows, reports, mask, cap, draws)
    ensures var owned := OwnedKeys(reports, mask);
            |owned| <= |out| && forall i :: 0 <= i < |owned| ==> mask(out[i].text) in owned
  {
    hide *;
    SnapshotShape(out, rows, reports, mask, cap, draws);
    forall i | 0 <= i < |OwnedKeys(reports, mask)| ensures mask(out[i].text) in OwnedKeys(reports, mask) {
      ReportPart(out, rows, reports, mask, cap, draws, i);
    }
  }

  lemma KeyIsInTail(out: seq<SnapshotRow>, n: nat, mask: Mask, key: string, owned: set<string>)
    requires n <= |out| && key !in owned && forall i :: 0 <= i < n ==> mask(out[i].text) in owned
    ensures HasMasked(out, mask, key) <==> HasMasked(out[n..], mask, key)
  {
    if i :| 0 <= i < |out| && mask(out[i].text) == key {
      assert out[n..][i - n] == out[i];
    }
    if i :| 0 <= i < |out[n..]| && mask(out[n..][i].text) == key {
      assert out[n + i] == out[n..][i];
    }
  }

  lemma TakenIs(rows: seq<Row>, reports: seq<Report>, mask: Mask, cap: int, draws: seq<nat>, key: string)
    requires Budget(reports, mask, cap) > 0 && DrawsFit(rows, reports, mask, Some(cap), draws)
    requires draws in Sampling.Traces(Budget(reports, mask, cap), |WholeStream(rows, reports, mask)|)
    ensures draws in TracesTaking(rows, reports, mask, cap, key) <==>
            HasMasked(Sampled(rows, reports, mask, Some(cap), draws), mask, key)
  {
    hide Budget, WholeStream, HasMasked, Sampling.Reservoir, Sampling.Traces, Sampling.ValidDraws;
  }

  /** The reservoir has a text exactly if it kept the one position the stream has it at. */
  lemma KeptIsTaken(stream: seq<SnapshotRow>, mask: Mask, k: nat, draws: seq<nat>, p: nat)
    requires Sampling.ValidDraws(k, |stream|, draws) && DistinctKeys(stream, mask) && p < |stream|
    ensures HasMasked(Sampling.Reservoir(stream, k, draws), mask, mask(stream[p].text)) <==>
            p in Sampling.Kept(k, |stream|, draws)
  {
    Sampling.ReservoirHoldsKeptItems(stream, k, draws);
    hide Sampling.ValidDraws, Sampling.Reservoir, Sampling.Kept;
    var kept, sample := Sampling.Kept(k, |stream|, draws), Sampling.Reservoir(stream, k, draws);
    if m :| 0 <= m < |kept| && kept[m] == p {
      assert sample[m] == stream[p];
    }
    if m :| 0 <= m < |sample| && mask(sample[m].text) == mask(stream[p].text) {
      assert sample[m] == stream[kept[m]];
    }
  }

  /** Under a cap, every dataset text that no report owns is in the snapshot for exactly min(k, n)/n of
      all draw sequences, where `k` rows of history fit and `n` are streamed. */
  lemma HistoryIsFair(rows: seq<Row>, reports: seq<Report>, mask: Mask, cap: int, key: string)
    requires Budget(reports, mask, cap) > 0
    requires key !in OwnedKeys(reports, mask) && DatasetHas(rows, mask, key, |rows|)
    ensures var k, n := Budget(reports, mask, cap), |WholeStream(rows, reports, mask)|;
            |TracesTaking(rows, reports, mask, cap, key)| * n == (if k <= n then k else n) * |Sampling.Traces(k, n)|
  {
    var k, stream := Budget(reports, mask, cap), WholeStream(rows, reports, mask);
    var n := |stream|;
    StreamIs(rows, mask, OwnedKeys(reports, mask), |rows|);
    hide OwnedKeys, Budget, WholeStream, Stream, DatasetHas, Sampling.Reservoir, Sampling.Kept, Sampling.Traces,
         Sampling.ValidDraws;
    var p :| 0 <= p < n && mask(stream[p].text) == key;
    forall t | t in Sampling.Traces(k, n)
      ensures t in TracesTaking(rows, reports, mask, cap, key) <==> p in Sampling.Kept(k, n, t)
    {
      KeptIsTaken(stream, mask, k, t, p);
    }
    hide HasMasked, DistinctKeys;
    if k <= n {
      assert TracesTaking(rows, reports, mask, cap, key) == Sampling.TracesKeeping(k, n, p);
      Sampling.RetentionIsExact(k, n, p);
    } else {
      Sampling.NothingDropped(k, n, p);
      assert TracesTaking(rows, reports, mask, cap, key) == Sampling.Traces(k, n);
    }
  }

  // ---------------------------------------------------------------- the digest

  lemma PairsOfDrop(s: seq<SnapshotRow>, i: nat, mask: Mask)
    requires i < |s|
    ensures Pairs(Drop(s, i), mask) == Drop(Pairs(s, mask), i)
  {}

  /** Rows that are the same but for their order give pairs that are. */
  lemma {:induction false} PairsOfRows(a: seq<SnapshotRow>, b: seq<SnapshotRow>, mask: Mask)
    requires multiset(a) == multiset(b)
    ensures multiset(Pairs(a, mask)) == multiset(Pairs(b, mask))
    decreases |a|
  {
    hide *;
    assert |multiset(a)| == |a| && |multiset(b)| == |b|;
    if a == [] {
      assert Pairs(a, mask) == [] && Pairs(b, mask) == [];
    } else {
      assert a[0] in multiset(b);
      var i :| 0 <= i < |b| && b[i] == a[0];
      MultisetOfDrop(a, 0);
      MultisetOfDrop(b, i);
      SameRest(multiset(Drop(a, 0)), multiset(Drop(b, i)), a[0]);
      PairsOfRows(Drop(a, 0), Drop(b, i), mask);
      PairsOfDrop(a, 0, mask);
      PairsOfDrop(b, i, mask);
      MultisetOfDrop(Pairs(a, mask), 0);
      MultisetOfDrop(Pairs(b, mask), i);
    }
  }

  /** The dataset digest does not move with row order. */
  lemma RowOrderIsIrrelevant(a: seq<SnapshotRow>, b: seq<SnapshotRow>, mask: Mask)
    requires multiset(a) == multiset(b)
    ensures DatasetDigest.Text(Pairs(a, mask)) == DatasetDigest.Text(Pairs(b, mask))
  {
    PairsOfRows(a, b, mask);
    DatasetDigest.OrderIsIrrelevant(Pairs(a, mask), Pairs(b, mask));
  }
}
