/** What the two digests are taken of, row by row and file by file (ai/retraining/snapshot.py:215-223,
    ai/retraining/checksum.py:93-105). */
module DigestMeaning {
  import opened Collections
  import opened Ordering
  import opened Sorting
  import opened DatasetDigest
  import opened Snapshot
  import BundleDigest

  // ---------------------------------------------------------------- the training set

  /** One row is its masked text, NUL, its label and a line feed. */
  lemma OneRowText(p: Pair)
    ensures Text([p]) == p.0 + "\0" + p.1 + "\n"
  {
    assert Sort([p], PairLess) == [p] by {
      assert [p][..0] == [];
    }
    assert Entries([p]) == Entry(p) + Entries([]);
  }

  /** Rows are digested by text, and rows of one text by label. */
  lemma RowsAscend(pairs: seq<Pair>, i: nat, j: nat)
    requires i < j < |pairs|
    ensures |Sort(pairs, PairLess)| == |pairs|
    ensures var p, q := Sort(pairs, PairLess)[i], Sort(pairs, PairLess)[j];
            Less(p.0, q.0) || (p.0 == q.0 && (Less(p.1, q.1) || p.1 == q.1))
  {
    PairLessIsOrder();
    SortAscends(pairs, PairLess);
    SameLength(Sort(pairs, PairLess), pairs);
    var p, q := Sort(pairs, PairLess)[i], Sort(pairs, PairLess)[j];
    hide Sort, Less;
    LessTrichotomy(p.0, q.0);
    LessTrichotomy(p.1, q.1);
  }

  ghost function RowsWith(rows: seq<SnapshotRow>, mask: Mask, text: string, verdict: string): set<nat> {
    set i: nat | i < |rows| && mask(rows[i].text) == text && rows[i].verdict == verdict
  }

  lemma {:induction false} PairsCount(rows: seq<SnapshotRow>, mask: Mask, text: string, verdict: string)
    ensures multiset(Pairs(rows, mask))[(text, verdict)] == |RowsWith(rows, mask, text, verdict)|
  {
    if rows == [] {
      assert RowsWith(rows, mask, text, verdict) == {};
    } else {
      var n := |rows| - 1;
      PairsCount(rows[..n], mask, text, verdict);
      assert Pairs(rows, mask) == Pairs(rows[..n], mask) + [(mask(rows[n].text), rows[n].verdict)];
      OneMoreWith(rows, n, mask, text, verdict);
      hide RowsWith, Pairs;
    }
  }

  lemma OneMoreWith(rows: seq<SnapshotRow>, n: nat, mask: Mask, text: string, verdict: string)
    requires |rows| == n + 1
    ensures n !in RowsWith(rows[..n], mask, text, verdict)
    ensures RowsWith(rows, mask, text, verdict) == RowsWith(rows[..n], mask, text, verdict) +
            if mask(rows[n].text) == text && rows[n].verdict == verdict then {n} else {}
  {}

  /** Two snapshots are digested from one text exactly if they have the same number of rows for every masked
      text and label; the spelling before masking, the origin and the order of a row do not matter. */
  lemma DigestMeans(a: seq<SnapshotRow>, b: seq<SnapshotRow>, mask: Mask)
    requires || (OneLineEach(Pairs(a, mask)) && OneLineEach(Pairs(b, mask)))
             || (NulFree(Pairs(a, mask)) && NulFree(Pairs(b, mask)))
    ensures Text(Pairs(a, mask)) == Text(Pairs(b, mask)) <==>
            forall text, verdict :: |RowsWith(a, mask, text, verdict)| == |RowsWith(b, mask, text, verdict)|
  {
    hide *;
    OneTextPerDataset(Pairs(a, mask), Pairs(b, mask));
    var m, n := multiset(Pairs(a, mask)), multiset(Pairs(b, mask));
    forall text, verdict
      ensures m[(text, verdict)] == |RowsWith(a, mask, text, verdict)|
      ensures n[(text, verdict)] == |RowsWith(b, mask, text, verdict)|
    {
      PairsCount(a, mask, text, verdict);
      PairsCount(b, mask, text, verdict);
    }
    if forall text, verdict :: |RowsWith(a, mask, text, verdict)| == |RowsWith(b, mask, text, verdict)| {
      forall p: Pair ensures m[p] == n[p] {
        assert p == (p.0, p.1);
        assert |RowsWith(a, mask, p.0, p.1)| == |RowsWith(b, mask, p.0, p.1)|;
      }
      assert m == n;
    }
  }

  // ---------------------------------------------------------------- the bundle

  /** Letters A to Z become their lower-case letters, every other character stays. */
  lemma LowerMeans(s: string, i: nat)
    requires i < |s|
    ensures var c := s[i];
            BundleDigest.Lower(s)[i] ==
            if 'A' <= c <= 'Z' then "abcdefghijklmnopqrstuvwxyz"[c as int - 'A' as int] else c
  {}

  /** One file is its name, a tab, its digest in lower case and a line feed. */
  lemma OneFileText(name: string, digest: string)
    ensures BundleDigest.Canonical(map[name := digest]) ==
            if name == "version.json" then "" else name + "\t" + BundleDigest.Lower(digest) + "\n"
  {
    if name != "version.json" {
      BundleDigest.OneFile(name, digest);
    } else {
      NoFile(map[name := digest]);
    }
  }

  lemma NoFile(artifacts: map<string, string>)
    requires artifacts.Keys <= {"version.json"}
    ensures BundleDigest.Canonical(artifacts) == ""
  {
    assert BundleDigest.Covered(artifacts) == {};
  }

  /** The version file, which holds the digest, is not digested: adding or changing it changes nothing. */
  lemma VersionFileLeftOut(artifacts: map<string, string>, content: string)
    ensures BundleDigest.Canonical(artifacts["version.json" := content]) ==
            BundleDigest.Canonical(artifacts - {"version.json"})
  {
    var a, b := artifacts["version.json" := content], artifacts - {"version.json"};
    assert BundleDigest.Covered(a) == BundleDigest.Covered(b);
    var names := Sorted(BundleDigest.Covered(a));
    SortedElements(BundleDigest.Covered(a));
    BundleDigest.CoveredAreArtifacts(a, names);
    BundleDigest.CoveredAreArtifacts(b, names);
    forall i | 0 <= i < |names| ensures a[names[i]] == b[names[i]] {
      assert names[i] in Elements(names);
    }
    SameDigests(names, a, b);
  }

  lemma {:induction false} SameDigests(names: seq<string>, a: map<string, string>, b: map<string, string>)
    requires BundleDigest.Known(names, a) && BundleDigest.Known(names, b)
    requires forall i :: 0 <= i < |names| ==> a[names[i]] == b[names[i]]
    ensures BundleDigest.Lines(names, a) == BundleDigest.Lines(names, b)
  {
    if names != [] {
      SameDigests(names[1..], a, b);
    }
  }
}
