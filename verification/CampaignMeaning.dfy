/** What the links of campaign grouping are, said in counts of shared three-character windows, and the
    groups of messages that all read alike (ai/scripts/calibrate_match_threshold.py:74-125). */
module CampaignMeaning {
  import opened Collections
  import opened Connectivity
  import opened Fractions
  import opened Ordering
  import opened CampaignGroups

  // ---------------------------------------------------------------- trigrams

  /** A trigram is three characters in a row of the text with two spaces on each side. */
  lemma TrigramsAre(text: string, w: string)
    ensures w in Trigrams(text) <==>
            |w| == 3 && exists before, after :: before + w + after == [' ', ' '] + text + [' ', ' ']
  {
    var padded := [' ', ' '] + text + [' ', ' '];
    if w in Trigrams(text) {
      var i: nat :| i < |padded| - 2 && w == Window(padded, i);
      assert padded[..i] + w + padded[i + 3..] == padded;
    }
    if |w| == 3 {
      if before, after :| before + w + after == padded {
        var i := |before|;
        assert padded[i..i + 3] == w;
        assert w == Window(padded, i);
      }
    }
  }

  lemma SomeTrigram(text: string)
    ensures Trigrams(text) != {}
  {
    var padded := [' ', ' '] + text + [' ', ' '];
    assert Window(padded, 0) in Trigrams(text);
  }

  // ---------------------------------------------------------------- overlap

  /** Overlap is the share of the common trigrams in all of them: at least three quarters exactly if four
      times the common ones are at least three times all. */
  lemma JaccardCounts(a: set<string>, b: set<string>)
    ensures 0.0 <= Jaccard(a, b) <= 1.0
    ensures Jaccard(a, b) >= 0.75 <==> a != {} && b != {} && 4 * |a * b| >= 3 * |a + b|
    ensures a != {} && b != {} ==> Jaccard(a, b) * |a + b| as real == |a * b| as real
    ensures Jaccard(a, b) == 1.0 <==> a == b != {}
  {
    CommonIsLess(a, b);
    if a != {} && b != {} {
      UnionIsSome(a, b);
      Portion(|a * b|, |a + b|);
    }
  }

  lemma UnionIsSome(a: set<string>, b: set<string>)
    requires a != {}
    ensures |a + b| > 0
  {
    var x :| x in a;
    assert x in a + b;
  }

  lemma CommonIsLess(a: set<string>, b: set<string>)
    ensures |a * b| <= |a + b|
    ensures |a * b| == |a + b| <==> a == b
  {
    assert a * b <= a + b;
    RemoveSubset(a * b, a + b);
    if |a * b| == |a + b| {
      SubsetOfSameSize(a * b, a + b);
      assert a * b == a + b;
    }
    if a == b {
      assert a * b == a + b;
    }
  }

  // ---------------------------------------------------------------- buckets

  ghost function Before(s: set<string>, g: string): set<string> {
    set h | h in s && Less(h, g)
  }

  /** Message `a` is filed under `g`: one of its trigrams, with fewer than twelve of its others before it. */
  ghost predicate FiledUnder(grams: seq<set<string>>, a: nat, g: string) {
    a < |grams| && g in grams[a] && |Before(grams[a], g)| < 12
  }

  lemma RankInSorted(t: seq<string>, i: nat)
    requires Ascending(t) && i < |t|
    ensures |Before(Elements(t), t[i])| == i
  {
    AscendingAscends(t);
    forall j | 0 <= j < |t| ensures Less(t[j], t[i]) <==> j < i {
      LessTrichotomy(t[j], t[i]);
    }
    hide Less;
    assert Before(Elements(t), t[i]) == Elements(t[..i]);
    DistinctCardinality(t[..i]);
  }

  lemma KeysAre(s: set<string>, g: string)
    ensures g in Keys(s) <==> g in s && |Before(s, g)| < 12
  {
    var t := Sorted(s);
    SortedElements(s);
    SortedAscends(s);
    hide Sorted, Less, Before;
    if g in s {
      assert g in Elements(t);
      var i :| 0 <= i < |t| && t[i] == g;
      RankInSorted(t, i);
      if g in Keys(s) {
        var j :| 0 <= j < |Keys(s)| && Keys(s)[j] == g;
        RankInSorted(t, j);
      }
    } else {
      assert g !in Elements(t);
    }
  }

  /** The rows filed under `g`. */
  ghost function RowsUnder(grams: seq<set<string>>, g: string): set<nat> {
    set a: nat | a < |grams| && FiledUnder(grams, a, g)
  }

  lemma BucketsAre(grams: seq<set<string>>, g: string)
    ensures Bucket(grams, g) == RowsUnder(grams, g)
  {
    forall a: nat | a < |grams| ensures g in Keys(grams[a]) <==> FiledUnder(grams, a, g) {
      KeysAre(grams[a], g);
    }
    hide Keys, FiledUnder;
  }

  ghost predicate Meet(grams: seq<set<string>>, a: nat, b: nat, g: string) {
    FiledUnder(grams, a, g) && FiledUnder(grams, b, g) && |RowsUnder(grams, g)| <= 300
  }

  /** Two different messages are linked exactly if some trigram both are filed under is shared by at most
      300 messages, and four times their common trigrams are at least three times all they have. */
  lemma LinkedMeans(grams: seq<set<string>>, a: nat, b: nat)
    ensures Linked(grams, a, b) <==>
            && a < |grams| && b < |grams| && a != b
            && (exists g :: Meet(grams, a, b, g))
            && 4 * |grams[a] * grams[b]| >= 3 * |grams[a] + grams[b]|
  {
    if a < |grams| && b < |grams| {
      JaccardCounts(grams[a], grams[b]);
      hide Jaccard, FiledUnder;
      forall g ensures a in Bucket(grams, g) && b in Bucket(grams, g) && |Bucket(grams, g)| <= MAX_BUCKET <==>
                       Meet(grams, a, b, g) {
        BucketsAre(grams, g);
      }
      hide Bucket;
      if g :| Meet(grams, a, b, g) {
        FiledIsOwn(grams, a, g);
        FiledIsOwn(grams, b, g);
      }
    }
  }

  lemma FiledIsOwn(grams: seq<set<string>>, a: nat, g: string)
    requires FiledUnder(grams, a, g)
    ensures a < |grams| && g in grams[a]
  {}

  // ---------------------------------------------------------------- messages that read alike

  /** Messages with the same trigrams that meet in a bucket lie in one component. */
  lemma TwinsAreConnected(grams: seq<set<string>>, a: nat, b: nat, g: string)
    requires a < |grams| && b < |grams| && grams[a] == grams[b] && Meet(grams, a, b, g)
    ensures Connected(LinkGraph(grams), a, b)
  {
    LinkGraphIsUndirected(grams);
    if a == b {
      ConnectedIsEquivalence(LinkGraph(grams), a, a, a);
    } else {
      assert grams[a] * grams[b] == grams[a] + grams[b];
      LinkedMeans(grams, a, b);
      hide Linked, Meet;
      LinkConnects(LinkGraph(grams), a, b);
    }
  }

  ghost function Copies(s: set<string>, n: nat): (grams: seq<set<string>>)
    ensures |grams| == n && forall i :: 0 <= i < n ==> grams[i] == s
  {
    Repeat(s, n)
  }

  lemma FirstKey(s: set<string>) returns (g: string)
    requires s != {}
    ensures g in s && |Before(s, g)| == 0
  {
    LeastExists(s);
    g :| Least(s, g);
    forall h | h in s ensures !Less(h, g) {
      LessTrichotomy(g, h);
    }
    assert Before(s, g) == {};
  }

  lemma CopiesMeet(s: set<string>, n: nat, a: nat, b: nat) returns (g: string)
    requires s != {} && a < n <= 300 && b < n
    ensures Meet(Copies(s, n), a, b, g)
  {
    g := FirstKey(s);
    hide Copies, Before;
    CopiesUnder(s, n, g);
  }

  lemma CopiesUnder(s: set<string>, n: nat, g: string)
    ensures FiledUnder([s], 0, g) ==> |RowsUnder(Copies(s, n), g)| == n
    ensures !FiledUnder([s], 0, g) ==> RowsUnder(Copies(s, n), g) == {}
    ensures forall a: nat :: FiledUnder(Copies(s, n), a, g) <==> a < n && FiledUnder([s], 0, g)
  {
    hide Copies, Before;
    if FiledUnder([s], 0, g) {
      assert RowsUnder(Copies(s, n), g) == Range(0, n);
    }
  }

  lemma {:induction false} AllOneComponent(links: Graph, m: nat)
    requires m <= links.n && forall x: nat, y: nat :: x < links.n && y < links.n ==> Connected(links, x, y)
    ensures |Members(links, 0, m)| == m && forall i :: 0 <= i < m ==> Members(links, 0, m)[i] == i
    ensures Firsts(links, m) == if m == 0 then [] else [0]
  {
    hide Connected;
    if m > 0 {
      AllOneComponent(links, m - 1);
      if m > 1 {
        assert Connected(links, 0, m - 1);
        assert !FirstOfComponent(links, m - 1);
      }
    }
  }

  lemma {:induction false} NoLinkNoWalk(links: Graph, k: nat, a: nat, b: nat)
    requires forall x: nat, y: nat :: !links.link(x, y)
    requires ReachedIn(links, k, a, b)
    ensures a == b
  {}

  lemma SmallComponent(links: Graph, x: nat)
    requires links.n < 4 || forall x: nat, y: nat :: !links.link(x, y)
    ensures |Component(links, x)| < 4
  {
    var c := Component(links, x);
    MembersAre(links, x, links.n);
    DistinctCardinality(c);
    hide Members;
    if links.n < 4 {
      assert Elements(c) <= Range(0, links.n);
      RemoveSubset(Elements(c), Range(0, links.n));
    } else {
      forall y: nat | y in c ensures y == x {
        var k: nat :| ReachedIn(links, k, x, y);
        NoLinkNoWalk(links, k, x, y);
      }
      assert Elements(c) <= {x};
      RemoveSubset(Elements(c), {x});
    }
  }

  lemma CopiesLinks(s: set<string>, n: nat)
    requires s != {} && n > 300
    ensures forall x: nat, y: nat :: !LinkGraph(Copies(s, n)).link(x, y)
  {
    var grams := Copies(s, n);
    forall x: nat, y: nat ensures !Linked(grams, x, y) {
      LinkedMeans(grams, x, y);
      hide Linked;
      if g :| Meet(grams, x, y, g) {
        CopiesUnder(s, n, g);
      }
    }
    hide Linked;
  }

  /** Messages that all have the same trigrams are one group if there are 4 to 300 of them, and otherwise
      no group at all: with more, every bucket they meet in is skipped. */
  lemma CopiesGrouped(s: set<string>, n: nat)
    requires s != {}
    ensures BigEnough(Components(LinkGraph(Copies(s, n)))) == if 4 <= n <= 300 then [UpTo(n)] else []
  {
    var grams := Copies(s, n);
    var links := LinkGraph(grams);
    LinkGraphIsUndirected(grams);
    hide Linked, Meet, Copies, Jaccard;
    if 4 <= n <= 300 {
      forall x: nat, y: nat | x < n && y < n ensures Connected(links, x, y) {
        var g := CopiesMeet(s, n, x, y);
        TwinsAreConnected(grams, x, y, g);
      }
      hide Connected;
      AllOneComponent(links, n);
      OneGroup(links);
    } else {
      if n > 300 {
        CopiesLinks(s, n);
      }
      var groups := BigEnough(Components(links));
      if groups != [] {
        var g := groups[0];
        GroupsAreBigComponents(links, g);
        var x: nat :| x < links.n && g == Component(links, x);
        SmallComponent(links, x);
        assert false;
      }
    }
  }

  ghost function UpTo(n: nat): (r: seq<nat>)
    ensures |r| == n && forall i :: 0 <= i < n ==> r[i] == i
  {
    seq(n, i => i)
  }

  lemma OneGroup(links: Graph)
    requires links.n >= 4 && Firsts(links, links.n) == [0]
    requires |Members(links, 0, links.n)| == links.n
    requires forall i :: 0 <= i < links.n ==> Members(links, 0, links.n)[i] == i
    ensures BigEnough(Components(links)) == [UpTo(links.n)]
  {
    hide Members, Firsts;
    assert Component(links, 0) == UpTo(links.n);
    assert Components(links) == [UpTo(links.n)];
    assert [UpTo(links.n)][..0] == [];
    assert BigEnough([]) == [];
  }

  /** The same of the whole operation: `n` times one message. */
  lemma SameMessageGrouped(text: string, n: nat, lower: string -> string)
    ensures BigEnough(Components(LinkGraph(GramsOf(Repeat(text, n), lower)))) == if 4 <= n <= 300 then [UpTo(n)] else []
  {
    var s := Trigrams(lower(text));
    SomeTrigram(lower(text));
    assert GramsOf(Repeat(text, n), lower) == Copies(s, n) by {
      hide Trigrams;
    }
    CopiesGrouped(s, n);
  }

  // ---------------------------------------------------------------- the order of the groups

  /** The groups come by their first message, and each lists its messages in row order. */
  lemma GroupsInOrder(links: Graph)
    requires links.Undirected()
    ensures var groups := BigEnough(Components(links));
            && (forall i :: 0 <= i < |groups| ==> groups[i] != [] && Increasing(groups[i]))
            && (forall i, j :: 0 <= i < j < |groups| ==> groups[i][0] < groups[j][0])
  {
    var all := Components(links);
    FirstsAre(links, links.n);
    forall i | 0 <= i < |all| ensures all[i] != [] && Increasing(all[i]) && all[i][0] == Firsts(links, links.n)[i] {
      FirstLeads(links, Firsts(links, links.n)[i]);
    }
    hide Components, Firsts;
    BigEnoughKeepsOrder(all);
  }

  lemma FirstLeads(links: Graph, x: nat)
    requires links.Undirected() && x in Firsts(links, links.n)
    ensures Component(links, x) != [] && Increasing(Component(links, x)) && Component(links, x)[0] == x
  {
    FirstsAre(links, links.n);
    MembersAre(links, x, links.n);
    ConnectedIsEquivalence(links, x, x, x);
    var c := Component(links, x);
    assert x in c;
    hide Members, Firsts, Connected;
    assert c[0] in c;
    ConnectedIsEquivalence(links, x, c[0], x);
    var k :| 0 <= k < |c| && c[k] == x;
  }

  ghost predicate ByFirst(groups: seq<seq<nat>>) {
    && (forall i :: 0 <= i < |groups| ==> groups[i] != [] && Increasing(groups[i]))
    && (forall i, j :: 0 <= i < j < |groups| ==> groups[i][0] < groups[j][0])
  }

  lemma {:induction false} BigEnoughKeepsOrder(groups: seq<seq<nat>>)
    requires ByFirst(groups)
    ensures ByFirst(BigEnough(groups))
  {
    hide Increasing;
    if groups != [] {
      var rest, last := groups[..|groups| - 1], groups[|groups| - 1];
      BigEnoughKeepsOrder(rest);
      var kept := BigEnough(rest);
      forall i | 0 <= i < |kept| ensures kept[i][0] < last[0] {
        BigEnoughIs(rest, kept[i]);
      }
    }
  }
}
