/** The canonical text a model bundle is digested from (ai/retraining/checksum.py:93-105).
    Two bundles get the same digest when this text is the same (SHA-256 aside), so the text
    must tell apart any two bundles whose files differ. */
module BundleDigest {
  import opened Wrappers
  import opened Collections
  import opened Ordering
  import opened Substrings

  function VersionFile(): string { "version.json" }

  function LowerChar(c: char): char {
    if 'A' <= c <= 'Z' then (c as int + 32) as char else c
  }

  /** `str.lower` on ASCII, which is all a hexadecimal digest has. */
  function Lower(s: string): (r: string)
    ensures |r| == |s| && forall i :: 0 <= i < |s| ==> r[i] == LowerChar(s[i])
  {
    seq(|s|, i requires 0 <= i < |s| => LowerChar(s[i]))
  }

  function Line(name: string, digest: string): string {
    name + "\t" + Lower(digest) + "\n"
  }

  predicate Known(names: seq<string>, artifacts: map<string, string>) {
    forall i :: 0 <= i < |names| ==> names[i] in artifacts
  }

  function Lines(names: seq<string>, artifacts: map<string, string>): string
    requires Known(names, artifacts)
  {
    if names == [] then "" else Line(names[0], artifacts[names[0]]) + Lines(names[1..], artifacts)
  }

  /** The files a digest covers. */
  ghost function Covered(artifacts: map<string, string>): set<string> {
    artifacts.Keys - {VersionFile()}
  }

  ghost function Canonical(artifacts: map<string, string>): string {
    SortedElements(Covered(artifacts));
    CoveredAreArtifacts(artifacts, Sorted(Covered(artifacts)));
    Lines(Sorted(Covered(artifacts)), artifacts)
  }

  lemma CoveredAreArtifacts(artifacts: map<string, string>, names: seq<string>)
    requires Elements(names) == Covered(artifacts)
    ensures Known(names, artifacts)
  {
    forall i | 0 <= i < |names| ensures names[i] in artifacts {
      assert names[i] in Elements(names);
    }
  }

  /** The names without the version file. */
  ghost function Kept(names: seq<string>): seq<string> {
    if names == [] then []
    else if names[|names| - 1] == VersionFile() then Kept(names[..|names| - 1])
    else Kept(names[..|names| - 1]) + [names[|names| - 1]]
  }

  lemma KeptMore(names: seq<string>, n: nat)
    requires n < |names|
    ensures Kept(names[..n + 1]) ==
            if names[n] == VersionFile() then Kept(names[..n]) else Kept(names[..n]) + [names[n]]
  {
    assert names[..n + 1][..n] == names[..n];
  }

  lemma {:induction false} KeptElements(names: seq<string>)
    ensures Elements(Kept(names)) == Elements(names) - {VersionFile()}
  {
    if names != [] {
      var rest, last := names[..|names| - 1], names[|names| - 1];
      KeptElements(rest);
      assert names == rest + [last];
      ElementsOfAppend(rest, last);
      ElementsOfAppend(Kept(rest), last);
    }
  }

  lemma {:induction false} KeptAscends(names: seq<string>)
    requires Ascending(names)
    ensures Ascending(Kept(names))
  {
    if names != [] {
      var rest, last := names[..|names| - 1], names[|names| - 1];
      KeptAscends(rest);
      KeptElements(rest);
      hide Kept;
      assert forall i :: 0 <= i < |Kept(rest)| ==> Kept(rest)[i] in Elements(Kept(rest));
      forall x | x in Elements(rest) ensures Less(x, last) {}
      KeptMore(names, |names| - 1);
      assert names[..|names|] == names;
    }
  }

  /** Dropping the version file after sorting is sorting what is covered. */
  lemma KeptIsCovered(artifacts: map<string, string>)
    ensures Kept(Sorted(artifacts.Keys)) == Sorted(Covered(artifacts))
  {
    hide Ascending, Sorted, Kept;
    SortedElements(artifacts.Keys);
    SortedAscends(artifacts.Keys);
    KeptElements(Sorted(artifacts.Keys));
    KeptAscends(Sorted(artifacts.Keys));
    SortedElements(Covered(artifacts));
    SortedAscends(Covered(artifacts));
    AscendingUnique(Kept(Sorted(artifacts.Keys)), Sorted(Covered(artifacts)));
  }

  lemma {:induction false} LinesOfAppend(names: seq<string>, name: string, artifacts: map<string, string>)
    requires Known(names, artifacts)
    requires name in artifacts
    ensures Lines(names + [name], artifacts) == Lines(names, artifacts) + Line(name, artifacts[name])
  {
    if names != [] {
      hide Line;
      assert (names + [name])[1..] == names[1..] + [name];
      LinesOfAppend(names[1..], name, artifacts);
    } else {
      hide Line;
      assert (names + [name])[1..] == [];
      assert Lines([], artifacts) == "";
    }
  }

  lemma OneMoreName(names: seq<string>, artifacts: map<string, string>, n: nat)
    requires n < |names| && names[n] in artifacts
    requires Known(Kept(names[..n]), artifacts)
    ensures Known(Kept(names[..n + 1]), artifacts)
    ensures Lines(Kept(names[..n + 1]), artifacts)
         == Lines(Kept(names[..n]), artifacts) +
            if names[n] == VersionFile() then "" else Line(names[n], artifacts[names[n]])
  {
    hide Kept, Lines, Line;
    KeptMore(names, n);
    LinesOfAppend(Kept(names[..n]), names[n], artifacts);
  }

  lemma NothingYet(names: seq<string>, artifacts: map<string, string>)
    ensures Kept(names[..0]) == [] && Lines([], artifacts) == ""
  {}

  lemma SortedAreArtifacts(artifacts: map<string, string>)
    ensures Known(Sorted(artifacts.Keys), artifacts)
  {
    SortedElements(artifacts.Keys);
    hide Sorted;
    forall i | 0 <= i < |Sorted(artifacts.Keys)| ensures Sorted(artifacts.Keys)[i] in artifacts {
      assert Sorted(artifacts.Keys)[i] in Elements(Sorted(artifacts.Keys));
    }
  }

  /** `sorted(artifacts.items())`, without the version file, one line each. */
  method CanonicalText(artifacts: map<string, string>) returns (text: string)
    ensures text == Canonical(artifacts)
  {
    hide Line, Lines, Kept, Sorted, Covered, VersionFile;
    var names := SortSet(artifacts.Keys);
    SortedAreArtifacts(artifacts);
    NothingYet(names, artifacts);
    text := "";
    for n := 0 to |names|
      invariant Known(Kept(names[..n]), artifacts)
      invariant text == Lines(Kept(names[..n]), artifacts)
    {
      OneMoreName(names, artifacts, n);
      if names[n] != VersionFile() {
        text := text + Line(names[n], artifacts[names[n]]);
      }
    }
    assert names[..|names|] == names;
    KeptIsCovered(artifacts);
  }

  // ---------------------------------------------------------------- reading a text back

  /** File names without line breaks; digests without line breaks or tabs. */
  ghost predicate Clean(artifacts: map<string, string>) {
    forall name <- Covered(artifacts) ::
      Without(name, '\n') && Without(artifacts[name], '\n') && Without(artifacts[name], '\t')
  }

  lemma LowerKeepsOut(s: string, c: char)
    requires Without(s, c) && (c == '\n' || c == '\t')
    ensures Without(Lower(s), c)
  {
    forall i | 0 <= i < |s| ensures LowerChar(s[i]) != c {
      assert s[i] != c;
    }
  }

  lemma LineSplits(n1: string, d1: string, x: string, n2: string, d2: string, y: string)
    requires Without(n1, '\n') && Without(d1, '\n') && Without(d1, '\t')
    requires Without(n2, '\n') && Without(d2, '\n') && Without(d2, '\t')
    requires Line(n1, d1) + x == Line(n2, d2) + y
    ensures n1 == n2 && Lower(d1) == Lower(d2) && x == y
  {
    LowerKeepsOut(d1, '\n');
    LowerKeepsOut(d1, '\t');
    LowerKeepsOut(d2, '\n');
    LowerKeepsOut(d2, '\t');
    var l1, l2 := Lower(d1), Lower(d2);
    assert Line(n1, d1) == n1 + "\t" + l1 + "\n" && Line(n2, d2) == n2 + "\t" + l2 + "\n";
    hide *;
    JoinWithout(n1, l1);
    JoinWithout(n2, l2);
    CutAtFirst('\n', n1 + "\t" + l1, x, n2 + "\t" + l2, y);
    CutAtLast('\t', n1, l1, n2, l2);
  }

  lemma JoinWithout(a: string, b: string)
    requires Without(a, '\n') && Without(b, '\n')
    ensures Without(a + "\t" + b, '\n')
  {}

  ghost predicate CleanList(names: seq<string>, artifacts: map<string, string>) {
    forall i :: 0 <= i < |names| ==>
                  names[i] in artifacts && Without(names[i], '\n') &&
                  Without(artifacts[names[i]], '\n') && Without(artifacts[names[i]], '\t')
  }

  lemma {:induction false} LinesTellApart(p: seq<string>, a: map<string, string>,
                                          q: seq<string>, b: map<string, string>)
    requires CleanList(p, a) && CleanList(q, b) && Lines(p, a) == Lines(q, b)
    ensures p == q && forall i :: 0 <= i < |p| ==> Lower(a[p[i]]) == Lower(b[q[i]])
  {
    if p != [] && q != [] {
      hide Line, Lower, Without;
      LineSplits(p[0], a[p[0]], Lines(p[1..], a), q[0], b[q[0]], Lines(q[1..], b));
      LinesTellApart(p[1..], a, q[1..], b);
      assert p == [p[0]] + p[1..] && q == [q[0]] + q[1..];
    }
  }

  lemma {:induction false} SameLines(p: seq<string>, a: map<string, string>, b: map<string, string>)
    requires forall i :: 0 <= i < |p| ==> p[i] in a && p[i] in b && Lower(a[p[i]]) == Lower(b[p[i]])
    ensures Lines(p, a) == Lines(p, b)
  {
    if p != [] {
      SameLines(p[1..], a, b);
    }
  }

  ghost predicate SameFiles(a: map<string, string>, b: map<string, string>) {
    Covered(a) == Covered(b) && forall name <- Covered(a) :: Lower(a[name]) == Lower(b[name])
  }

  /** Two bundles have one canonical text exactly when they hold the same files with the same
      digests, up to the case of the digests and whatever the version file is. */
  lemma OneTextPerBundle(a: map<string, string>, b: map<string, string>)
    requires Clean(a) && Clean(b)
    ensures Canonical(a) == Canonical(b) <==> SameFiles(a, b)
  {
    var p, q := Sorted(Covered(a)), Sorted(Covered(b));
    SortedElements(Covered(a));
    SortedElements(Covered(b));
    CoveredAreArtifacts(a, p);
    CoveredAreArtifacts(b, q);
    CleanNames(a, p);
    CleanNames(b, q);
    hide Sorted, Lines, Clean, Lower;
    if Canonical(a) == Canonical(b) {
      LinesTellApart(p, a, q, b);
      forall name | name in Covered(a) ensures Lower(a[name]) == Lower(b[name]) {
        assert name in Elements(p);
        var i :| 0 <= i < |p| && p[i] == name;
      }
    }
    if SameFiles(a, b) {
      forall i | 0 <= i < |p| ensures p[i] in b && Lower(a[p[i]]) == Lower(b[p[i]]) {
        assert p[i] in Elements(p);
      }
      SameLines(p, a, b);
    }
  }

  lemma CleanNames(artifacts: map<string, string>, names: seq<string>)
    requires Clean(artifacts) && Elements(names) == Covered(artifacts)
    ensures CleanList(names, artifacts)
  {
    forall i | 0 <= i < |names| ensures names[i] in Covered(artifacts) {
      assert names[i] in Elements(names);
    }
  }

  // ---------------------------------------------------------------- names with line breaks

  /** Digests without line breaks and tabs, whatever the names. */
  ghost predicate CleanDigests(artifacts: map<string, string>) {
    forall name <- Covered(artifacts) :: CleanDigest(artifacts[name])
  }

  ghost predicate CleanDigest(digest: string) {
    Without(digest, '\n') && Without(digest, '\t')
  }

  /** The name that reads like all of a first file's line and the start of a second one's. */
  function TwoInOne(first: string, digest: string, second: string): string {
    first + "\t" + Lower(digest) + "\n" + second
  }

  /** The name under which one file reads like all of these. */
  function OneName(names: seq<string>, artifacts: map<string, string>): string
    requires names != [] && Known(names, artifacts)
  {
    if |names| == 1 then names[0] else TwoInOne(names[0], artifacts[names[0]], OneName(names[1..], artifacts))
  }

  lemma {:induction false} OneFileReads(names: seq<string>, artifacts: map<string, string>)
    requires names != [] && Known(names, artifacts)
    ensures Lines(names, artifacts) == Line(OneName(names, artifacts), artifacts[names[|names| - 1]])
  {
    if |names| == 1 {
      assert Lines(names[1..], artifacts) == "";
    } else {
      OneFileReads(names[1..], artifacts);
      hide Line, TwoInOne;
      OneLineIsTwo(names[0], artifacts[names[0]], OneName(names[1..], artifacts), artifacts[names[|names| - 1]]);
    }
  }

  lemma OneLineIsTwo(first: string, d: string, second: string, e: string)
    ensures Line(TwoInOne(first, d, second), e) == Line(first, d) + Line(second, e)
  {}

  lemma OddName(x: string, digest: string, y: string)
    ensures !Without(TwoInOne(x, digest, y), '\n') && TwoInOne(x, digest, y) != VersionFile()
    ensures TwoInOne(x, digest, y) != x && TwoInOne(x, digest, y) != y
  {
    var odd := TwoInOne(x, digest, y);
    assert odd[|x| + 1 + |digest|] == '\n';
    assert Without(VersionFile(), '\n');
  }

  /** It is no version file, opens with the first name, and is that name only if there are no others. */
  lemma {:induction false} OneNameOpens(names: seq<string>, artifacts: map<string, string>)
    requires names != [] && Known(names, artifacts) && VersionFile() !in names
    ensures names[0] <= OneName(names, artifacts) && OneName(names, artifacts) != VersionFile()
  {
    if |names| > 1 {
      hide VersionFile, Without;
      OddName(names[0], artifacts[names[0]], OneName(names[1..], artifacts));
    }
  }

  lemma OneFile(name: string, digest: string)
    requires name != VersionFile()
    ensures var a := map[name := digest];
            Covered(a) == {name} && Canonical(a) == Line(name, digest)
  {
    hide VersionFile, Line;
    var a := map[name := digest];
    assert Covered(a) == {name};
    OnlySorted(a, [name]);
    assert [name][1..] == [];
    assert Lines([name], a) == Line(name, digest) + Lines([], a);
  }

  /** The names a bundle's lines are in the order of. */
  lemma CoveredInOrder(artifacts: map<string, string>) returns (names: seq<string>)
    ensures Elements(names) == Covered(artifacts) && |names| == |Covered(artifacts)| && Ascending(names)
    ensures Known(names, artifacts) && VersionFile() !in names && Canonical(artifacts) == Lines(names, artifacts)
    ensures CleanDigests(artifacts) ==> forall i :: 0 <= i < |names| ==> CleanDigest(artifacts[names[i]])
  {
    names := Sorted(Covered(artifacts));
    SortedElements(Covered(artifacts));
    SortedAscends(Covered(artifacts));
    OnlySorted(artifacts, names);
    hide Sorted, Lines, CleanDigest, VersionFile;
    forall i | 0 <= i < |names| ensures names[i] in Covered(artifacts) {
      assert names[i] in Elements(names);
    }
    assert VersionFile() !in Elements(names);
  }

  /** The one file a bundle reads as: its name, and its digest in lower case. */
  ghost function ReadAs(artifacts: map<string, string>): Option<(string, string)> {
    var names := Sorted(Covered(artifacts));
    SortedElements(Covered(artifacts));
    CoveredAreArtifacts(artifacts, names);
    if names == [] then None else Some((OneName(names, artifacts), Lower(artifacts[names[|names| - 1]])))
  }

  /** Whatever the names, two bundles have one text exactly when they read as the same file. */
  lemma OneTextPerReading(a: map<string, string>, b: map<string, string>)
    requires CleanDigests(a) && CleanDigests(b)
    ensures Canonical(a) == Canonical(b) <==> ReadAs(a) == ReadAs(b)
  {
    ReadsAsOneLine(a);
    ReadsAsOneLine(b);
    hide ReadAs, Canonical, CleanDigests, Lower;
    if Canonical(a) == Canonical(b) && ReadAs(a).Some? && ReadAs(b).Some? {
      SameLine(ReadAs(a).value.0, ReadAs(a).value.1, ReadAs(b).value.0, ReadAs(b).value.1);
    }
  }

  lemma ReadsAsOneLine(a: map<string, string>)
    requires CleanDigests(a)
    ensures Canonical(a) == if ReadAs(a).None? then "" else Line(ReadAs(a).value.0, ReadAs(a).value.1)
    ensures ReadAs(a).Some? ==>
              Canonical(a) != "" && CleanDigest(ReadAs(a).value.1) && Lower(ReadAs(a).value.1) == ReadAs(a).value.1
  {
    var names := CoveredInOrder(a);
    AscendingUnique(names, Sorted(Covered(a))) by {
      SortedAscends(Covered(a));
      SortedElements(Covered(a));
    }
    hide Sorted;
    if names != [] {
      var digest := a[names[|names| - 1]];
      OneFileReads(names, a);
      LowerKeepsOut(digest, '\n');
      LowerKeepsOut(digest, '\t');
      LowerTwice(digest);
    }
  }

  lemma LowerTwice(s: string)
    ensures Lower(Lower(s)) == Lower(s)
  {}

  /** With line breaks in file names, every bundle of two files or more shares its text with a bundle
      of one file. */
  lemma LineBreakInNameCollides(b: map<string, string>) returns (a: map<string, string>)
    requires CleanDigests(b) && |Covered(b)| >= 2
    ensures CleanDigests(a) && |Covered(a)| == 1 && Canonical(a) == Canonical(b) && !SameFiles(a, b)
  {
    var names := CoveredInOrder(b);
    OneFileReads(names, b);
    OneNameOpens(names, b);
    hide Line, Lines, VersionFile, CleanDigest;
    var name, digest := OneName(names, b), b[names[|names| - 1]];
    OneFile(name, digest);
    a := map[name := digest];
  }

  /** One file of this name reads like two. */
  ghost predicate ReadsAsTwo(name: string) {
    exists x, d, y :: name == TwoInOne(x, d, y) && IsPair(x, d, y)
  }

  ghost predicate IsPair(x: string, d: string, y: string) {
    Less(x, y) && CleanDigest(d) && x != VersionFile() && y != VersionFile()
  }

  /** Whatever the names, the bundles that share their text with another one are exactly those of two
      or more files, and those whose one file has a name that reads as two. */
  lemma SharedTextIff(b: map<string, string>)
    requires CleanDigests(b)
    ensures (exists a :: CleanDigests(a) && Canonical(a) == Canonical(b) && !SameFiles(a, b)) <==>
            |Covered(b)| >= 2 || exists name :: name in Covered(b) && ReadsAsTwo(name)
  {
    hide CleanDigests, Canonical, SameFiles, Covered, ReadsAsTwo;
    if |Covered(b)| >= 2 {
      var a := LineBreakInNameCollides(b);
    } else {
      if name :| name in Covered(b) && ReadsAsTwo(name) {
        var a := TwoForOne(b, name);
      }
      forall a | CleanDigests(a) && Canonical(a) == Canonical(b) && !SameFiles(a, b)
        ensures exists name :: name in Covered(b) && ReadsAsTwo(name)
      {
        var name := OneForMany(a, b);
      }
    }
  }

  lemma TwoForOne(b: map<string, string>, name: string) returns (a: map<string, string>)
    requires CleanDigests(b) && |Covered(b)| <= 1 && name in Covered(b) && ReadsAsTwo(name)
    ensures CleanDigests(a) && Canonical(a) == Canonical(b) && !SameFiles(a, b)
  {
    var x, d, y :| name == TwoInOne(x, d, y) && IsPair(x, d, y);
    var e := b[name];
    a := map[x := d, y := e];
    OddName(x, d, y);
    LessTrichotomy(x, y);
    var names := CoveredInOrder(b);
    assert name in Elements(names);
    assert names == [name];
    OneFileReads(names, b);
    OneLineIsTwo(x, d, y, e);
    hide Line, TwoInOne, VersionFile, CleanDigest, Less;
    assert Covered(a) == {x, y} == Elements([x, y]);
    OnlySorted(a, [x, y]);
    TwoLines(x, y, a);
    assert x !in Covered(b);
  }

  lemma TwoLines(x: string, y: string, a: map<string, string>)
    requires x in a && y in a
    ensures Lines([x, y], a) == Line(x, a[x]) + Line(y, a[y])
  {
    hide Line;
    assert [x, y][1..] == [y] && [y][1..] == [];
    assert Lines([y], a) == Line(y, a[y]) + Lines([], a);
  }

  lemma OneForMany(a: map<string, string>, b: map<string, string>) returns (name: string)
    requires CleanDigests(a) && CleanDigests(b) && |Covered(b)| <= 1
    requires Canonical(a) == Canonical(b) && !SameFiles(a, b)
    ensures name in Covered(b) && ReadsAsTwo(name)
  {
    var p := CoveredInOrder(a);
    var q := CoveredInOrder(b);
    hide Less, VersionFile, Lower, Line, Lines;
    if |p| <= 1 {
      AtMostOneEach(a, b, p, q);
      assert false;
    } else if q == [] {
      NothingReads(p, a, q, b);
      assert false;
    } else {
      name := q[0];
      assert q == [name] && name in Elements(q);
      OneFileReads(p, a);
      OneFileReads(q, b);
      SameLine(OneName(p, a), a[p[|p| - 1]], name, b[name]);
      ManyAreTwo(p, a);
    }
  }

  lemma NothingReads(p: seq<string>, a: map<string, string>, q: seq<string>, b: map<string, string>)
    requires Known(p, a) && Known(q, b) && Lines(p, a) == Lines(q, b) && q == []
    ensures p == []
  {
    NoLines(p, a);
  }

  lemma AtMostOneEach(a: map<string, string>, b: map<string, string>, p: seq<string>, q: seq<string>)
    requires CleanDigests(a) && CleanDigests(b) && |p| <= 1 && |q| <= 1
    requires Elements(p) == Covered(a) && Elements(q) == Covered(b)
    requires Known(p, a) && Known(q, b) && Lines(p, a) == Lines(q, b)
    ensures SameFiles(a, b)
  {
    hide VersionFile, Lower;
    if p == [] {
      NoLines(q, b);
    } else if q == [] {
      NoLines(p, a);
    } else {
      assert p[0] in Elements(p) && q[0] in Elements(q);
      OneFileReads(p, a);
      OneFileReads(q, b);
      hide Line, Lines;
      SameLine(p[0], a[p[0]], q[0], b[q[0]]);
    }
  }

  lemma ManyAreTwo(names: seq<string>, a: map<string, string>)
    requires |names| >= 2 && Ascending(names) && Known(names, a) && VersionFile() !in names
    requires CleanDigest(a[names[0]])
    ensures ReadsAsTwo(OneName(names, a))
  {
    hide VersionFile, CleanDigest, Less, TwoInOne;
    var x, rest := names[0], names[1..];
    var y := OneName(rest, a);
    OneNameOpens(rest, a);
    LessThanLonger(x, rest[0], y);
    assert x in names;
    assert OneName(names, a) == TwoInOne(x, a[x], y) && IsPair(x, a[x], y);
  }

  lemma {:induction false} LessThanLonger(x: string, y: string, longer: string)
    requires Less(x, y) && y <= longer
    ensures Less(x, longer)
  {
    if x != "" && x[0] == y[0] {
      LessThanLonger(x[1..], y[1..], longer[1..]);
    }
  }

  lemma NoLines(p: seq<string>, a: map<string, string>)
    requires Known(p, a) && Lines(p, a) == ""
    ensures p == []
  {}

  lemma SameLine(n1: string, d1: string, n2: string, d2: string)
    requires Without(d1, '\t') && Without(d2, '\t') && Line(n1, d1) == Line(n2, d2)
    ensures n1 == n2 && Lower(d1) == Lower(d2)
  {
    LowerKeepsOut(d1, '\t');
    LowerKeepsOut(d2, '\t');
    var l1, l2 := Lower(d1) + "\n", Lower(d2) + "\n";
    assert n1 + "\t" + l1 == Line(n1, d1) == Line(n2, d2) == n2 + "\t" + l2;
    CutAtLast('\t', n1, l1, n2, l2);
    assert l1[..|l1| - 1] == Lower(d1) && l2[..|l2| - 1] == Lower(d2);
  }

  lemma OnlySorted(artifacts: map<string, string>, names: seq<string>)
    requires Ascending(names) && Elements(names) == Covered(artifacts)
    ensures Known(names, artifacts)
    ensures Canonical(artifacts) == Lines(names, artifacts)
  {
    SortedElements(Covered(artifacts));
    SortedAscends(Covered(artifacts));
    AscendingUnique(names, Sorted(Covered(artifacts)));
    CoveredAreArtifacts(artifacts, names);
  }
}
