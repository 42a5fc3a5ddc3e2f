/** The text a training set is digested from: its (masked text, label) pairs in order, "sorted so
    it does not move with row order" (ai/retraining/snapshot.py:215-223). */
module DatasetDigest {
  import opened Ordering
  import opened Sorting
  import opened Substrings

  type Pair = (string, string)

  /** Python's order on pairs of strings. */
  predicate PairLess(a: Pair, b: Pair) {
    Less(a.0, b.0) || (a.0 == b.0 && Less(a.1, b.1))
  }

  lemma PairTrichotomy(a: Pair, b: Pair)
    ensures PairLess(a, b) || PairLess(b, a) || a == b
    ensures !(PairLess(a, b) && PairLess(b, a))
  {
    LessTrichotomy(a.0, b.0);
    LessTrichotomy(a.1, b.1);
    hide Less;
  }

  lemma PairLessTransitive(a: Pair, b: Pair, c: Pair)
    requires PairLess(a, b) && PairLess(b, c)
    ensures PairLess(a, c)
  {
    LessTrichotomy(a.0, a.0);
    hide Less;
    if Less(a.0, b.0) && Less(b.0, c.0) {
      LessTransitive(a.0, b.0, c.0);
    }
    if a.0 == b.0 && b.0 == c.0 {
      LessTransitive(a.1, b.1, c.1);
    }
  }

  lemma PairLessIsOrder()
    ensures IsOrder(PairLess)
  {
    forall a, b ensures (PairLess(a, b) || PairLess(b, a) || a == b) && !(PairLess(a, b) && PairLess(b, a)) {
      PairTrichotomy(a, b);
    }
    hide PairLess;
    forall a, b, c | PairLess(a, b) && PairLess(b, c) ensures PairLess(a, c) {
      PairLessTransitive(a, b, c);
    }
  }

  // ---------------------------------------------------------------- the text

  function Entry(p: Pair): string {
    p.0 + ['\0'] + p.1 + ['\n']
  }

  function Entries(s: seq<Pair>): string {
    if s == [] then "" else Entry(s[0]) + Entries(s[1..])
  }

  function Text(pairs: seq<Pair>): string {
    Entries(Sort(pairs, PairLess))
  }

  lemma {:induction false} EntriesOfAppend(s: seq<Pair>, p: Pair)
    ensures Entries(s + [p]) == Entries(s) + Entry(p)
  {
    hide Entry;
    if s == [] {
      assert Entries([p][1..]) == "";
    } else {
      assert (s + [p])[1..] == s[1..] + [p];
      EntriesOfAppend(s[1..], p);
    }
  }

  /** The loop that feeds the digest. */
  method DigestText(pairs: seq<Pair>) returns (text: string)
    ensures text == Text(pairs)
  {
    hide Entry, Sort;
    var sorted := Sort(pairs, PairLess);
    text := "";
    for n := 0 to |sorted|
      invariant text == Entries(sorted[..n])
    {
      assert sorted[..n + 1] == sorted[..n] + [sorted[n]];
      EntriesOfAppend(sorted[..n], sorted[n]);
      text := text + sorted[n].0 + ['\0'] + sorted[n].1 + ['\n'];
      assert Entries(sorted[..n]) + sorted[n].0 + ['\0'] + sorted[n].1 + ['\n'] ==
             Entries(sorted[..n]) + Entry(sorted[n]) by {
        EntryIs(Entries(sorted[..n]), sorted[n]);
      }
    }
    assert sorted[..|sorted|] == sorted;
  }

  lemma EntryIs(before: string, p: Pair)
    ensures before + p.0 + ['\0'] + p.1 + ['\n'] == before + Entry(p)
  {}

  /** The digest does not move with row order. */
  lemma OrderIsIrrelevant(a: seq<Pair>, b: seq<Pair>)
    requires multiset(a) == multiset(b)
    ensures Text(a) == Text(b)
  {
    PairLessIsOrder();
    SortForgetsOrder(a, b, PairLess);
  }

  // ---------------------------------------------------------------- one text for each dataset

  /** What normalizing and masking guarantee: no line break in a text.  Labels have neither a line
      break nor NUL. */
  ghost predicate OneLineEach(s: seq<Pair>) {
    forall p <- multiset(s) :: OneLine(p)
  }

  ghost predicate OneLine(p: Pair) {
    Without(p.0, '\n') && Without(p.1, '\n') && Without(p.1, '\0')
  }

  /** Texts without NUL, which may then have line breaks. */
  ghost predicate NulFree(s: seq<Pair>) {
    forall p <- multiset(s) :: NoNul(p)
  }

  ghost predicate NoNul(p: Pair) {
    Without(p.0, '\0') && Without(p.1, '\n')
  }

  lemma EntrySplits(p: Pair, x: string, q: Pair, y: string)
    requires (OneLine(p) && OneLine(q)) || (NoNul(p) && NoNul(q))
    requires Entry(p) + x == Entry(q) + y
    ensures p == q && x == y
  {
    if OneLine(p) && OneLine(q) {
      var s, t := p.0 + ['\0'] + p.1, q.0 + ['\0'] + q.1;
      assert Without(s, '\n') && Without(t, '\n');
      assert s + ['\n'] + x == Entry(p) + x == Entry(q) + y == t + ['\n'] + y;
      CutAtFirst('\n', s, x, t, y);
      CutAtLast('\0', p.0, p.1, q.0, q.1);
    } else {
      assert p.0 + ['\0'] + (p.1 + ['\n'] + x) == Entry(p) + x == Entry(q) + y == q.0 + ['\0'] + (q.1 + ['\n'] + y);
      CutAtFirst('\0', p.0, p.1 + ['\n'] + x, q.0, q.1 + ['\n'] + y);
      CutAtFirst('\n', p.1, x, q.1, y);
    }
  }

  lemma {:induction false} EntriesTellApart(s: seq<Pair>, t: seq<Pair>)
    requires (OneLineEach(s) && OneLineEach(t)) || (NulFree(s) && NulFree(t))
    requires Entries(s) == Entries(t)
    ensures s == t
  {
    hide OneLine, NoNul;
    if s != [] && t != [] {
      assert s == [s[0]] + s[1..] && t == [t[0]] + t[1..];
      assert s[0] in multiset(s) && t[0] in multiset(t);
      EntrySplits(s[0], Entries(s[1..]), t[0], Entries(t[1..]));
      hide Entry, Entries;
      EntriesTellApart(s[1..], t[1..]);
    }
  }

  /** Two training sets are digested from one text exactly when they hold the same pairs, each
      equally often: if no masked text has a line break, or if none has NUL. */
  lemma OneTextPerDataset(a: seq<Pair>, b: seq<Pair>)
    requires (OneLineEach(a) && OneLineEach(b)) || (NulFree(a) && NulFree(b))
    ensures Text(a) == Text(b) <==> multiset(a) == multiset(b)
  {
    hide Sort, OneLine, NoNul, Entries;
    if Text(a) == Text(b) {
      EntriesTellApart(Sort(a, PairLess), Sort(b, PairLess));
    }
    if multiset(a) == multiset(b) {
      OrderIsIrrelevant(a, b);
    }
  }
}
