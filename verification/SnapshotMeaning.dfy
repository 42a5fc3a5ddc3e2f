/** What every row of a snapshot is, and what its counters count, said of the dataset rows and the reports
    alone (ai/retraining/snapshot.py:148-223). */
module SnapshotMeaning {
  import opened Wrappers
  import opened Collections
  import opened Snapshot
  import Sampling

  // ---------------------------------------------------------------- history rows

  /** Dataset row `j` is the first with its masked text. */
  ghost predicate IsFirst(rows: seq<Row>, mask: Mask, j: nat) {
    j < |rows| && forall k :: 0 <= k < j ==> mask(rows[k].text) != mask(rows[j].text)
  }

  ghost predicate ComesFrom(row: SnapshotRow, source: Row) {
    && row.text == source.text && row.verdict == source.verdict
    && (source.origin.Some? ==> row.origin == source.origin.value)
    && (source.origin.None? ==> row.origin == "dataset")
  }

  /** `at` lists, ascending, the rows among the first `n` that are the first of their text and no report owns. */
  ghost predicate AreTaken(at: seq<nat>, rows: seq<Row>, mask: Mask, owned: set<string>, n: nat) {
    && n <= |rows| && Increasing(at)
    && forall j: nat :: j in at <==> j < n && mask(rows[j].text) !in owned && IsFirst(rows, mask, j)
  }

  ghost predicate ComeFrom(out: seq<SnapshotRow>, rows: seq<Row>, at: seq<nat>) {
    |out| == |at| && forall i :: 0 <= i < |at| ==> at[i] < |rows| && ComesFrom(out[i], rows[at[i]])
  }

  /** The stream takes the first row of each text that no report owns, as it is and in dataset order. */
  lemma {:induction false} StreamIsFilter(rows: seq<Row>, mask: Mask, owned: set<string>, n: nat) returns (at: seq<nat>)
    requires n <= |rows|
    ensures AreTaken(at, rows, mask, owned, n) && ComeFrom(Stream(rows, mask, owned, n), rows, at)
  {
    hide *;
    if n == 0 {
      at := [];
      NothingTaken(rows, mask, owned);
    } else {
      var before := StreamIsFilter(rows, mask, owned, n - 1);
      StreamStep(rows, mask, owned, n - 1);
      TakenStep(before, rows, mask, owned, n - 1);
      var takes := mask(rows[n - 1].text) !in owned && IsFirst(rows, mask, n - 1);
      at := if takes then before + [n - 1] else before;
      if takes {
        OneMoreFrom(Stream(rows, mask, owned, n - 1), Stream(rows, mask, owned, n), rows, before, n - 1);
      }
    }
  }

  lemma NothingTaken(rows: seq<Row>, mask: Mask, owned: set<string>)
    ensures AreTaken([], rows, mask, owned, 0) && ComeFrom(Stream(rows, mask, owned, 0), rows, [])
  {}

  lemma OneMoreFrom(before: seq<SnapshotRow>, after: seq<SnapshotRow>, rows: seq<Row>, at: seq<nat>, x: nat)
    requires ComeFrom(before, rows, at) && x < |rows|
    requires |after| == |before| + 1 && after[..|before|] == before && ComesFrom(after[|before|], rows[x])
    ensures ComeFrom(after, rows, at + [x])
  {
    hide ComesFrom;
    forall i | 0 <= i < |at| ensures ComesFrom(after[i], rows[at[i]]) {
      assert after[i] == before[i];
    }
  }

  lemma TakenStep(at: seq<nat>, rows: seq<Row>, mask: Mask, owned: set<string>, n: nat)
    requires n < |rows| && AreTaken(at, rows, mask, owned, n)
    ensures var takes := mask(rows[n].text) !in owned && IsFirst(rows, mask, n);
            AreTaken(if takes then at + [n] else at, rows, mask, owned, n + 1)
  {
    hide IsFirst;
    LastIn(at, n);
  }

  lemma LastIn(at: seq<nat>, x: nat)
    requires Increasing(at) && forall j <- at :: j < x
    ensures Increasing(at + [x])
    ensures forall j: nat :: j in at + [x] <==> j in at || j == x
  {
    assert forall i :: 0 <= i < |at| ==> at[i] in at;
  }

  lemma StreamStep(rows: seq<Row>, mask: Mask, owned: set<string>, n: nat)
    requires n < |rows|
    ensures var before, after := Stream(rows, mask, owned, n), Stream(rows, mask, owned, n + 1);
            if mask(rows[n].text) !in owned && IsFirst(rows, mask, n) then
              |after| == |before| + 1 && after[..|before|] == before && ComesFrom(after[|before|], rows[n])
            else after == before
  {}

  /** A history row of a snapshot is the first dataset row with its masked text. */
  ghost predicate FromDataset(row: SnapshotRow, rows: seq<Row>, mask: Mask) {
    exists j: nat :: IsFirst(rows, mask, j) && mask(rows[j].text) == mask(row.text) && ComesFrom(row, rows[j])
  }

  lemma StreamComesFrom(rows: seq<Row>, mask: Mask, owned: set<string>, i: nat)
    requires i < |Stream(rows, mask, owned, |rows|)|
    ensures FromDataset(Stream(rows, mask, owned, |rows|)[i], rows, mask)
  {
    var at := StreamIsFilter(rows, mask, owned, |rows|);
    hide Stream, IsFirst;
    assert at[i] in at;
  }

  lemma SampledComesFrom(rows: seq<Row>, reports: seq<Report>, mask: Mask, cap: Option<int>, draws: seq<nat>, i: nat)
    requires DrawsFit(rows, reports, mask, cap, draws) && i < |Sampled(rows, reports, mask, cap, draws)|
    ensures FromDataset(Sampled(rows, reports, mask, cap, draws)[i], rows, mask)
  {
    hide OwnedKeys, Stream, FromDataset, Sampling.Reservoir, Sampling.ValidDraws, Sampling.Kept;
    var stream := WholeStream(rows, reports, mask);
    if cap.None? {
      StreamComesFrom(rows, mask, OwnedKeys(reports, mask), i);
    } else {
      var k := Budget(reports, mask, cap.value);
      Sampling.ReservoirHoldsKeptItems(stream, k, draws);
      StreamComesFrom(rows, mask, OwnedKeys(reports, mask), Sampling.Kept(k, |stream|, draws)[i]);
    }
  }

  // ---------------------------------------------------------------- report rows

  /** Report `j` is the most recently validated of those with its masked text: an undated one counts as
      older than any dated one, and of equals the later in the source wins. */
  ghost predicate IsLatest(reports: seq<Report>, mask: Mask, j: nat) {
    j < |reports| &&
    forall k: nat :: k < |reports| && k != j && mask(reports[k].text) == mask(reports[j].text) ==>
      match (reports[k].validatedAt, reports[j].validatedAt)
      case (None, None) => k < j
      case (None, Some(_)) => true
      case (Some(_), None) => false
      case (Some(u), Some(t)) => u < t || (u == t && k < j)
  }

  lemma OwnsIsLatest(reports: seq<Report>, mask: Mask, key: string, j: nat)
    ensures Owns(reports, mask, key, j) <==>
            j < |reports| && mask(reports[j].text) == key && IsLatest(reports, mask, j)
  {}

  /** A report row is the most recently validated report with its masked text. */
  ghost predicate FromReports(row: SnapshotRow, reports: seq<Report>, mask: Mask) {
    exists j: nat :: j < |reports| && IsLatest(reports, mask, j) && mask(reports[j].text) == mask(row.text) &&
                     row.text == reports[j].text && row.verdict == reports[j].verdict && row.origin == "report"
  }

  lemma OwnerRowIs(row: SnapshotRow, reports: seq<Report>, mask: Mask)
    requires RowOfOwner(row, reports, mask)
    ensures FromReports(row, reports, mask)
  {
    var r :| OwnedBy(reports, mask, mask(row.text), r) && row == ReportRow(r);
    var j: nat :| Owns(reports, mask, mask(row.text), j) && r == reports[j];
    OwnsIsLatest(reports, mask, mask(row.text), j);
    hide Owns, IsLatest;
  }

  // ---------------------------------------------------------------- every row

  /** Every row of a snapshot: where a report has its masked text, the text and label of the most recently
      validated one; otherwise the text, label and origin of the first dataset row that has it. */
  lemma EveryRowIs(out: seq<SnapshotRow>, rows: seq<Row>, reports: seq<Report>, mask: Mask, cap: Option<int>,
                   draws: seq<nat>, i: nat)
    requires DrawsFit(rows, reports, mask, cap, draws) && IsSnapshot(out, rows, reports, mask, cap, draws)
    requires i < |out|
    ensures if exists r :: r in reports && mask(r.text) == mask(out[i].text) then FromReports(out[i], reports, mask)
            else FromDataset(out[i], rows, mask)
  {
    hide *;
    ReportedMeans(reports, mask, mask(out[i].text));
    SnapshotIsClean(out, rows, reports, mask, cap, draws);
    SnapshotParts(out, rows, reports, mask, cap, draws);
    TailIsSample(out, rows, reports, mask, cap, draws);
    HeadIsOwned(out, rows, reports, mask, cap, draws);
    var owners := |OwnedKeys(reports, mask)|;
    if mask(out[i].text) in OwnedKeys(reports, mask) {
      OwnerRowIs(out[i], reports, mask);
    } else {
      assert i >= owners;
      assert out[i] == out[owners..][i - owners];
      SampledComesFrom(rows, reports, mask, cap, draws, i - owners);
    }
  }

  lemma ReportedMeans(reports: seq<Report>, mask: Mask, key: string)
    ensures key in OwnedKeys(reports, mask) <==> exists r :: r in reports && mask(r.text) == key
  {
    if r :| r in reports && mask(r.text) == key {
      var i :| 0 <= i < |reports| && reports[i] == r;
    }
  }

  /** Without a cap, what follows the reports is the dataset without owned texts and duplicates, in its order. */
  lemma UncappedHistoryIs(out: seq<SnapshotRow>, rows: seq<Row>, reports: seq<Report>, mask: Mask, draws: seq<nat>)
    returns (at: seq<nat>)
    requires DrawsFit(rows, reports, mask, None, draws) && IsSnapshot(out, rows, reports, mask, None, draws)
    ensures |OwnedKeys(reports, mask)| <= |out|
    ensures AreTaken(at, rows, mask, OwnedKeys(reports, mask), |rows|)
    ensures ComeFrom(out[|OwnedKeys(reports, mask)|..], rows, at)
  {
    SnapshotParts(out, rows, reports, mask, None, draws);
    TailIsSample(out, rows, reports, mask, None, draws);
    at := StreamIsFilter(rows, mask, OwnedKeys(reports, mask), |rows|);
    hide OwnedKeys, Stream, ComesFrom, IsFirst, IsSnapshot, InTwoParts, AreTaken, ComeFrom;
  }

  // ---------------------------------------------------------------- the order of the reports

  /** `a` is used somewhere before `b` is used for the first time. */
  ghost predicate UsedBefore(sorted: seq<Report>, mask: Mask, n: nat, a: string, b: string)
    requires n <= |sorted|
  {
    exists p :: 0 <= p < n && mask(sorted[p].text) == a && forall q :: 0 <= q <= p ==> mask(sorted[q].text) != b
  }

  ghost predicate Used(sorted: seq<Report>, mask: Mask, n: nat, key: string)
    requires n <= |sorted|
  {
    exists p :: 0 <= p < n && mask(sorted[p].text) == key
  }

  lemma UsedStep(sorted: seq<Report>, mask: Mask, n: nat)
    requires n < |sorted|
    ensures forall key :: Used(sorted, mask, n + 1, key) <==> Used(sorted, mask, n, key) || key == mask(sorted[n].text)
    ensures forall a, b :: UsedBefore(sorted, mask, n, a, b) ==> UsedBefore(sorted, mask, n + 1, a, b)
    ensures forall a :: Used(sorted, mask, n, a) && !Used(sorted, mask, n, mask(sorted[n].text)) ==>
              UsedBefore(sorted, mask, n + 1, a, mask(sorted[n].text))
  {
    forall key | Used(sorted, mask, n, key) ensures Used(sorted, mask, n + 1, key) {
      var p :| 0 <= p < n && mask(sorted[p].text) == key;
    }
    forall a | Used(sorted, mask, n, a) && !Used(sorted, mask, n, mask(sorted[n].text))
      ensures UsedBefore(sorted, mask, n + 1, a, mask(sorted[n].text))
    {
      var p :| 0 <= p < n && mask(sorted[p].text) == a;
      forall q | 0 <= q <= p ensures mask(sorted[q].text) != mask(sorted[n].text) {}
    }
  }

  /** The report rows come in the order in which the sorted reports first use their masked texts. */
  lemma {:induction false} FirstUsesAre(sorted: seq<Report>, mask: Mask, n: nat)
    requires n <= |sorted|
    ensures Distinct(FirstUses(sorted, mask, n))
    ensures forall key :: key in FirstUses(sorted, mask, n) <==> Used(sorted, mask, n, key)
    ensures forall a, b :: 0 <= a < b < |FirstUses(sorted, mask, n)| ==>
              UsedBefore(sorted, mask, n, FirstUses(sorted, mask, n)[a], FirstUses(sorted, mask, n)[b])
  {
    if n > 0 {
      FirstUsesAre(sorted, mask, n - 1);
      UsedStep(sorted, mask, n - 1);
      hide Used, UsedBefore;
      var keys := FirstUses(sorted, mask, n - 1);
      forall a | 0 <= a < |keys| ensures Used(sorted, mask, n - 1, keys[a]) {
        assert keys[a] in keys;
      }
    }
  }

  // ---------------------------------------------------------------- the counters

  ghost function OwnedRows(rows: seq<Row>, mask: Mask, owned: set<string>, n: nat): set<nat> {
    set i: nat | i < |rows| && i < n && mask(rows[i].text) in owned
  }

  lemma {:induction false} SupersededCounts(rows: seq<Row>, mask: Mask, owned: set<string>, n: nat)
    requires n <= |rows|
    ensures Superseded(rows, mask, owned, n) == |OwnedRows(rows, mask, owned, n)|
  {
    hide OwnedRows;
    if n == 0 {
      NoOwnedRow(rows, mask, owned);
    } else {
      SupersededCounts(rows, mask, owned, n - 1);
      OwnedRowsStep(rows, mask, owned, n - 1);
    }
  }

  lemma NoOwnedRow(rows: seq<Row>, mask: Mask, owned: set<string>)
    ensures OwnedRows(rows, mask, owned, 0) == {}
  {}

  lemma OwnedRowsStep(rows: seq<Row>, mask: Mask, owned: set<string>, n: nat)
    requires n < |rows|
    ensures n !in OwnedRows(rows, mask, owned, n)
    ensures OwnedRows(rows, mask, owned, n + 1)
         == OwnedRows(rows, mask, owned, n) + if mask(rows[n].text) in owned then {n} else {}
  {}

  /** Dataset rows whose masked text has a most recent report with another label. */
  ghost function RelabelledRows(rows: seq<Row>, reports: seq<Report>, mask: Mask, n: nat): set<nat> {
    set i: nat | i < |rows| && i < n && OtherLabel(rows[i], reports, mask)
  }

  ghost predicate OtherLabel(row: Row, reports: seq<Report>, mask: Mask) {
    exists j: nat :: j < |reports| && mask(reports[j].text) == mask(row.text) && IsLatest(reports, mask, j) &&
                     reports[j].verdict != row.verdict
  }

  lemma OtherLabelCorrects(row: Row, reports: seq<Report>, mask: Mask)
    ensures Corrects(reports, mask, row) <==> OtherLabel(row, reports, mask)
  {
    forall j: nat ensures Owns(reports, mask, mask(row.text), j) <==>
                          j < |reports| && mask(reports[j].text) == mask(row.text) && IsLatest(reports, mask, j)
    {
      OwnsIsLatest(reports, mask, mask(row.text), j);
    }
    hide Owns, IsLatest;
    if OtherLabel(row, reports, mask) {
      var j: nat :| j < |reports| && mask(reports[j].text) == mask(row.text) && IsLatest(reports, mask, j) &&
                    reports[j].verdict != row.verdict;
      assert OwnedBy(reports, mask, mask(row.text), reports[j]);
    }
  }

  lemma {:induction false} RelabelledCounts(rows: seq<Row>, reports: seq<Report>, mask: Mask, n: nat)
    requires n <= |rows|
    ensures Relabelled(rows, reports, mask, n) == |RelabelledRows(rows, reports, mask, n)|
  {
    hide OtherLabel, Corrects;
    if n == 0 {
      assert RelabelledRows(rows, reports, mask, 0) == {};
    } else {
      RelabelledCounts(rows, reports, mask, n - 1);
      OtherLabelCorrects(rows[n - 1], reports, mask);
      assert RelabelledRows(rows, reports, mask, n) ==
             RelabelledRows(rows, reports, mask, n - 1) +
             if OtherLabel(rows[n - 1], reports, mask) then {n - 1} else {};
    }
  }

  /** The report ids of a list are those of its parts, in order; a report without one adds none. */
  lemma {:induction false} GivenIdsAre(a: seq<Report>, b: seq<Report>)
    ensures GivenIds(a + b) == GivenIds(a) + GivenIds(b)
    ensures |a| == 1 ==> GivenIds(a) == if a[0].id == "" then [] else [a[0].id]
  {
    assert |a| == 1 ==> a[..0] == [];
    if b == [] {
      assert a + b == a;
    } else {
      GivenIdsAre(a, b[..|b| - 1]);
      assert (a + b)[..|a + b| - 1] == a + b[..|b| - 1];
    }
  }
}
