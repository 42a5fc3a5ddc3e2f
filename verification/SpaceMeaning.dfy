/** What the campaign space's transform, its centroids and its guard mean, said in dot products
    (ai/service/campaign_space.py:166-181 and :266-321, ai/service/campaign.py:453-519). */
module SpaceMeaning {
  import opened Wrappers
  import opened Collections
  import opened Vectors
  import opened Substrings
  import opened CampaignSpace

  // ---------------------------------------------------------------- square roots

  lemma RootBelow(root: Root, d: real, bound: real)
    requires IsSquareRoot(root) && d >= 0.0 && bound > 0.0
    ensures root(d) < bound <==> d < Times(bound, bound)
  {
    RootSquares(root, d);
    Squares(root(d), bound);
  }

  lemma RootSquares(root: Root, d: real)
    requires IsSquareRoot(root) && d >= 0.0
    ensures root(d) >= 0.0 && Times(root(d), root(d)) == d
    ensures d > 0.0 ==> root(d) > 0.0
  {
    TimesZero(root(d));
  }

  lemma Squares(a: real, b: real)
    requires a >= 0.0 && b > 0.0
    ensures a < b <==> Times(a, a) < Times(b, b)
  {
    hide Times;
    if a == 0.0 {
      TimesZero(a);
      TimesPositive(b, b);
    } else {
      TimesKeepsOrder(a, a, b);
      TimesKeepsOrder(b, a, b);
      TimesSymmetric(a, b);
    }
  }

  /** Normalizing divides by the length; the zero vector stays as it is. */
  lemma NormalizeIs(v: Vec, root: Root) returns (length: real)
    requires IsSquareRoot(root)
    ensures length > 0.0 && v == Scale(length, Normalize(v, root))
    ensures Dot(v, v) > 0.0 ==> Dot(Normalize(v, root), Normalize(v, root)) == 1.0 && Times(length, length) == Dot(v, v)
    ensures Dot(v, v) == 0.0 ==> Normalize(v, root) == v && length == 1.0
  {
    DotWithItself(v);
    RootOfZero(root);
    hide Dot, Times;
    if Dot(v, v) == 0.0 {
      length := 1.0;
      forall i | 0 <= i < |v| ensures Times(1.0, v[i]) == v[i] {
        TimesSymmetric(1.0, v[i]);
        TimesOne(v[i]);
      }
      assert v == Scale(1.0, v);
    } else {
      length := root(Dot(v, v));
      RootSquares(root, Dot(v, v));
      DotScaleBoth(1.0 / length, v);
      Inverse(length, Dot(v, v));
      Undone(length, v);
    }
  }

  lemma Inverse(n: real, d: real)
    requires n > 0.0 && Times(n, n) == d
    ensures Times(1.0 / n, Times(1.0 / n, d)) == 1.0
  {
    hide Times;
    var i := 1.0 / n;
    Reciprocal(n);
    TimesAssociates(i, n, n);
    TimesSymmetric(1.0, n);
    TimesOne(n);
  }

  lemma Reciprocal(n: real)
    requires n > 0.0
    ensures Times(1.0 / n, n) == 1.0 == Times(n, 1.0 / n)
  {}

  lemma Undone(n: real, v: Vec)
    requires n > 0.0
    ensures v == Scale(n, Scale(1.0 / n, v))
  {
    hide Times;
    var u := Scale(1.0 / n, v);
    forall i | 0 <= i < |v| ensures v[i] == Scale(n, u)[i] {
      Back(n, v[i]);
    }
  }

  lemma Back(n: real, x: real)
    requires n > 0.0
    ensures Times(n, Times(1.0 / n, x)) == x
  {
    hide Times;
    Reciprocal(n);
    TimesAssociates(n, 1.0 / n, x);
    TimesSymmetric(1.0, x);
    TimesOne(x);
  }

  // ---------------------------------------------------------------- the guard's check

  /** The products of `v` with the removed directions. */
  ghost function Along(v: Vec, rows: seq<Vec>): (r: Vec)
    requires AllOfLength(rows, |v|)
    ensures |r| == |rows| && forall j :: 0 <= j < |rows| ==> r[j] == Dot(v, rows[j])
  {
    seq(|rows|, j requires 0 <= j < |rows| => Dot(v, rows[j]))
  }

  lemma {:induction false} LeftoverIs(v: Vec, rows: seq<Vec>)
    requires AllOfLength(rows, |v|)
    ensures Leftover(v, rows) == Dot(Along(v, rows), Along(v, rows))
  {
    if rows != [] {
      var n := |rows| - 1;
      LeftoverIs(v, rows[..n]);
      assert Along(v, rows)[..n] == Along(v, rows[..n]);
    }
  }

  lemma AlongScaled(t: real, v: Vec, rows: seq<Vec>)
    requires AllOfLength(rows, |v|)
    ensures Along(Scale(t, v), rows) == Scale(t, Along(v, rows))
  {
    forall j | 0 <= j < |rows| ensures Dot(Scale(t, v), rows[j]) == Times(t, Dot(v, rows[j])) {
      DotScale(t, v, rows[j]);
    }
  }

  /** The sum of the squares of the products of `v` with the removed directions. */
  ghost function Residue(s: Space, v: Vec): real
    requires s.Shaped() && |v| == |s.mean|
  {
    Dot(Along(v, s.components), Along(v, s.components))
  }

  /** A vector passes the check exactly if it has the dimension of the space and the squares of its products
      with the removed directions add up to less than a millionth of its squared length; so does zero. */
  lemma HoldsMeans(s: Space, v: Vec, root: Root)
    requires s.Shaped() && IsSquareRoot(root)
    ensures Holds(s, v, root) <==>
            |v| == |s.mean| && (Dot(v, v) == 0.0 || Residue(s, v) < 0.000001 * Dot(v, v))
  {
    if |v| == |s.mean| {
      var u := Normalize(v, root);
      var length := NormalizeIs(v, root);
      LeftoverIs(u, s.components);
      DotWithItself(v);
      DotWithItself(Along(u, s.components));
      RootBelow(root, Leftover(u, s.components), 0.001);
      if Dot(v, v) == 0.0 {
        forall j | 0 <= j < |s.components| ensures Dot(u, s.components[j]) == 0.0 {
          DotOfZeros(u, s.components[j]);
        }
      } else {
        AlongScaled(length, u, s.components);
        DotScaleBoth(length, Along(u, s.components));
        hide Along, Dot, Normalize, Leftover, Times;
        Shrunk(Residue(s, u), Residue(s, v), length, Dot(v, v));
      }
    }
  }

  lemma Shrunk(u: real, v: real, length: real, d: real)
    requires length > 0.0 && Times(length, length) == d && v == Times(length, Times(length, u))
    ensures u < Times(0.001, 0.001) <==> v < 0.000001 * d
  {
    Thousandth(d);
    hide Times;
    TimesPositive(length, length);
    TimesAssociates(length, length, u);
    TimesKeepsOrder(d, u, Times(0.001, 0.001));
  }

  lemma Thousandth(d: real)
    ensures Times(d, Times(0.001, 0.001)) == 0.000001 * d
  {}

  // ---------------------------------------------------------------- what the guard refuses

  /** One product is at most the whole residue. */
  lemma ResidueAtLeast(s: Space, v: Vec, j: nat)
    requires s.Shaped() && |v| == |s.mean| && j < |s.components|
    ensures Residue(s, v) >= Times(Dot(v, s.components[j]), Dot(v, s.components[j]))
  {
    var a := Along(v, s.components);
    SquaresAddUp(a, j);
    hide Dot;
    assert a[j] == Dot(v, s.components[j]);
  }

  lemma {:induction false} SquaresAddUp(a: Vec, j: nat)
    requires j < |a|
    ensures Dot(a, a) >= Times(a[j], a[j])
  {
    hide Times;
    var n := |a| - 1;
    Square(a[n]);
    DotWithItself(a[..n]);
    if j < n {
      SquaresAddUp(a[..n], j);
    }
  }

  /** A unit vector of which a thousandth or more lies along some removed direction. */
  ghost predicate Outside(s: Space, v: Vec)
    requires s.Shaped()
  {
    |v| == |s.mean| && Dot(v, v) == 1.0 &&
    exists j :: 0 <= j < |s.components| && (Dot(v, s.components[j]) >= 0.001 || Dot(v, s.components[j]) <= -0.001)
  }

  lemma OutsideFails(s: Space, v: Vec, root: Root)
    requires s.Shaped() && IsSquareRoot(root) && Outside(s, v)
    ensures !Holds(s, v, root)
  {
    hide Dot, Residue, Holds, IsSquareRoot;
    var j :| 0 <= j < |s.components| && (Dot(v, s.components[j]) >= 0.001 || Dot(v, s.components[j]) <= -0.001);
    HoldsMeans(s, v, root);
    ResidueAtLeast(s, v, j);
    AtLeast(Dot(v, s.components[j]));
  }

  lemma AtLeast(x: real)
    requires x >= 0.001 || x <= -0.001
    ensures Times(x, x) >= 0.000001
  {
    var y := if x >= 0.0 then x else -x;
    TimesNegated(x, x);
    hide Times;
    Squares(0.001, y);
    Thousandth(1.0);
    TimesSymmetric(1.0, Times(0.001, 0.001));
    TimesOne(Times(0.001, 0.001));
  }

  /** What passing the check means, without the square root. */
  ghost predicate Passes(s: Space, v: Vec)
    requires s.Shaped()
  {
    |v| == |s.mean| && (Dot(v, v) == 0.0 || Residue(s, v) < 0.000001 * Dot(v, v))
  }

  ghost predicate AllLabelled(names: seq<Option<string>>, space: Option<string>) {
    forall n <- names :: SpaceOfLabel(n) == space
  }

  /** Matching in a space is on exactly if there are centroids, it is loaded and usable, every checked centroid
      passes, and either every label names it or none names any and there are vectors to tell it by. */
  lemma EnabledInSpaceIff(names: seq<Option<string>>, space: Option<Space>, served: Option<string>,
                          vectors: Option<seq<Vec>>, root: Root)
    requires space.Some? ==> space.value.Shaped()
    requires IsSquareRoot(root)
    ensures var verdict := ResolveSpace(names, space, served, vectors, root);
            verdict.enabled && verdict.space.Some? <==>
              && names != [] && space.Some? && Usable(space.value, served)
              && (vectors.Some? ==> forall v <- vectors.value :: Passes(space.value, v))
              && (AllLabelled(names, Some(space.value.id)) || (AllLabelled(names, None) && vectors.Some?))
  {
    hide *;
    NoCentroidsIsRaw(space, served, vectors, root);
    if names != [] {
      VerdictIs(names, space, served, vectors, root);
    }
    if space.Some? {
      ChecksPass(space.value, vectors, root);
    }
  }

  /** And raw matching exactly if there is no centroid, or no label names a space, no centroid passes the check of
      a loaded one, and, where none is loaded, the centroids do not look transformed. */
  lemma EnabledRawIff(names: seq<Option<string>>, space: Option<Space>, served: Option<string>,
                      vectors: Option<seq<Vec>>, root: Root)
    requires space.Some? ==> space.value.Shaped()
    requires IsSquareRoot(root)
    ensures var verdict := ResolveSpace(names, space, served, vectors, root);
            verdict.enabled && verdict.space.None? <==>
              || names == []
              || (&& AllLabelled(names, None)
                  && (vectors.Some? && space.Some? ==>
                        vectors.value != [] && forall v <- vectors.value :: !Passes(space.value, v))
                  && (vectors.Some? && space.None? ==> !LooksTransformed(vectors.value, root)))
  {
    hide *;
    NoCentroidsIsRaw(space, served, vectors, root);
    if names != [] {
      VerdictIs(names, space, served, vectors, root);
    }
    if space.Some? {
      ChecksPass(space.value, vectors, root);
    }
  }

  lemma NoCentroidsIsRaw(space: Option<Space>, served: Option<string>, vectors: Option<seq<Vec>>, root: Root)
    requires space.Some? ==> space.value.Shaped()
    ensures ResolveSpace([], space, served, vectors, root) == Verdict(true, None, NoCentroids)
  {
    hide Holds, LooksTransformed;
  }

  /** The reason a set labelled with one space is refused for, where no vector contradicts the label. */
  lemma LabelledReasonIs(names: seq<Option<string>>, id: string, space: Option<Space>, served: Option<string>,
                         vectors: Option<seq<Vec>>, root: Root)
    requires space.Some? ==> space.value.Shaped()
    requires names != [] && AllLabelled(names, Some(id)) && IsSquareRoot(root)
    requires space.Some? && vectors.Some? ==> forall v <- vectors.value :: Passes(space.value, v)
    ensures var verdict := ResolveSpace(names, space, served, vectors, root);
            var loaded := space.Some? && space.value.id == id;
            var ready := loaded && space.value.embeddingThreshold.Some?;
            var bound := ready && Given(space.value.modelVersion);
            && (verdict.reason == SpaceNotLoaded <==> space.None?)
            && (verdict.reason == OtherSpaceLoaded <==> space.Some? && space.value.id != id)
            && (verdict.reason == NotCalibrated <==> loaded && space.value.embeddingThreshold.None?)
            && (verdict.reason == SpaceWithoutModel <==> ready && !Given(space.value.modelVersion))
            && (verdict.reason == UnknownServedModel <==> bound && !Given(served))
            && (verdict.reason == OtherModel <==> bound && Given(served) && space.value.modelVersion != served)
            && (verdict.reason == Checked <==> verdict.enabled)
  {
    hide *;
    DeclaredOne(names);
    if space.Some? {
      ChecksPass(space.value, vectors, root);
    }
    LabelledVerdictIs(names, id, space, served, vectors, root);
  }

  lemma LabelledVerdictIs(names: seq<Option<string>>, id: string, space: Option<Space>, served: Option<string>,
                          vectors: Option<seq<Vec>>, root: Root)
    requires space.Some? ==> space.value.Shaped()
    requires names != [] && Declared(names) == {Some(id)}
    requires space.Some? && vectors.Some? ==> forall v <- vectors.value :: Holds(space.value, v, root)
    ensures var verdict := ResolveSpace(names, space, served, vectors, root);
            var loaded := space.Some? && space.value.id == id;
            var ready := loaded && space.value.embeddingThreshold.Some?;
            var bound := ready && Given(space.value.modelVersion);
            && (verdict.reason == SpaceNotLoaded <==> space.None?)
            && (verdict.reason == OtherSpaceLoaded <==> space.Some? && space.value.id != id)
            && (verdict.reason == NotCalibrated <==> loaded && space.value.embeddingThreshold.None?)
            && (verdict.reason == SpaceWithoutModel <==> ready && !Given(space.value.modelVersion))
            && (verdict.reason == UnknownServedModel <==> bound && !Given(served))
            && (verdict.reason == OtherModel <==> bound && Given(served) && space.value.modelVersion != served)
            && (verdict.reason == Checked <==> verdict.enabled)
  {
    hide Holds, SpaceOfLabel, LooksTransformed, Declared, Given;
    assert |Declared(names)| == 1;
  }

  lemma ChecksPass(s: Space, vectors: Option<seq<Vec>>, root: Root)
    requires s.Shaped() && IsSquareRoot(root)
    ensures vectors.Some? ==> forall v <- vectors.value :: Holds(s, v, root) <==> Passes(s, v)
  {
    if vectors.Some? {
      forall v | v in vectors.value ensures Holds(s, v, root) <==> Passes(s, v) {
        HoldsMeans(s, v, root);
      }
    }
  }

  lemma VerdictIs(names: seq<Option<string>>, space: Option<Space>, served: Option<string>,
                  vectors: Option<seq<Vec>>, root: Root)
    requires space.Some? ==> space.value.Shaped()
    requires names != []
    ensures var verdict := ResolveSpace(names, space, served, vectors, root);
            && (verdict.enabled && verdict.space.Some? <==>
                  && space.Some? && Usable(space.value, served)
                  && (vectors.Some? ==> forall v <- vectors.value :: Holds(space.value, v, root))
                  && (AllLabelled(names, Some(space.value.id)) || (AllLabelled(names, None) && vectors.Some?)))
            && (verdict.enabled && verdict.space.None? <==>
                  && AllLabelled(names, None)
                  && (vectors.Some? && space.Some? ==>
                        vectors.value != [] && forall v <- vectors.value :: !Holds(space.value, v, root))
                  && (vectors.Some? && space.None? ==> !LooksTransformed(vectors.value, root)))
  {
    DeclaredOne(names);
    hide Holds, SpaceOfLabel, LooksTransformed, Declared, AllLabelled;
    assert AllLabelled(names, None) <==> Declared(names) == {None};
    if vectors.Some? && vectors.value != [] {
      assert vectors.value[0] in vectors.value;
    }
    if |Declared(names)| <= 1 {
      var wanted :| wanted in Declared(names);
      OnlyElement(Declared(names), wanted);
    }
  }

  lemma DeclaredOne(names: seq<Option<string>>)
    requires names != []
    ensures Declared(names) != {}
    ensures forall d :: AllLabelled(names, d) <==> Declared(names) == {d}
  {
    hide SpaceOfLabel;
    var first := SpaceOfLabel(names[0]);
    assert names[0] in names;
    assert first in Declared(names);
    forall d ensures AllLabelled(names, d) <==> Declared(names) == {d} {
      if Declared(names) == {d} {
        forall n | n in names ensures SpaceOfLabel(n) == d {
          assert SpaceOfLabel(n) in Declared(names);
        }
      }
      if AllLabelled(names, d) {
        assert Declared(names) == {d};
      }
    }
  }

  /** A labelled set with such a centroid is never enabled; the vectors are the reason given, unless the
      labels already disagree. */
  lemma LabelledOutsideIsRefused(names: seq<Option<string>>, s: Space, served: Option<string>, vectors: seq<Vec>,
                                 root: Root, v: Vec)
    requires s.Shaped() && IsSquareRoot(root) && v in vectors && Outside(s, v)
    requires exists n :: n in names && SpaceOfLabel(n).Some?
    ensures var verdict := ResolveSpace(names, Some(s), served, Some(vectors), root);
            !verdict.enabled && verdict.reason == if OneLabel(names) then LabelledButNotIn else ManySpaces
  {
    hide *;
    OutsideFails(s, v, root);
    var n :| n in names && SpaceOfLabel(n).Some?;
    LabelsDeclare(names);
    assert SpaceOfLabel(n) in Declared(names);
    OneFailsTheSet(names, s, served, vectors, root, v);
  }

  lemma OneFailsTheSet(names: seq<Option<string>>, s: Space, served: Option<string>, vectors: seq<Vec>, root: Root,
                       v: Vec)
    requires s.Shaped() && names != [] && Declared(names) != {None} && v in vectors && !Holds(s, v, root)
    ensures ResolveSpace(names, Some(s), served, Some(vectors), root) ==
            Verdict(false, None, if |Declared(names)| > 1 then ManySpaces else LabelledButNotIn)
  {
    hide Holds, SpaceOfLabel, LooksTransformed, Declared, CheckSpace;
  }

  ghost predicate OneLabel(names: seq<Option<string>>) {
    forall i, j :: 0 <= i < |names| && 0 <= j < |names| ==> SpaceOfLabel(names[i]) == SpaceOfLabel(names[j])
  }

  lemma LabelsDeclare(names: seq<Option<string>>)
    requires names != []
    ensures |Declared(names)| > 1 <==> !OneLabel(names)
    ensures forall n <- names :: SpaceOfLabel(n) in Declared(names)
  {
    hide SpaceOfLabel;
    forall n | n in names ensures SpaceOfLabel(n) in Declared(names) {}
    var first := SpaceOfLabel(names[0]);
    assert first in Declared(names);
    if OneLabel(names) {
      forall d | d in Declared(names) ensures d == first {
        var n :| n in names && d == SpaceOfLabel(n);
        var i :| 0 <= i < |names| && names[i] == n;
      }
      assert Declared(names) == {first};
    } else {
      var i, j :| 0 <= i < |names| && 0 <= j < |names| && SpaceOfLabel(names[i]) != SpaceOfLabel(names[j]);
      assert names[i] in names && names[j] in names;
      var pair := {SpaceOfLabel(names[i]), SpaceOfLabel(names[j])};
      assert pair <= Declared(names);
      RemoveSubset(pair, Declared(names));
    }
  }

  /** An unlabelled set of only such centroids is matched raw; one that has some outside and some in the
      space is refused as half-finished. */
  lemma UnlabelledOutsideIsRaw(names: seq<Option<string>>, s: Space, served: Option<string>, vectors: seq<Vec>,
                               root: Root)
    requires s.Shaped() && IsSquareRoot(root) && names != [] && forall n <- names :: SpaceOfLabel(n).None?
    requires exists v :: v in vectors && Outside(s, v)
    ensures var verdict := ResolveSpace(names, Some(s), served, Some(vectors), root);
            && ((forall v <- vectors :: Outside(s, v)) ==> verdict == Verdict(true, None, RawSpace))
            && ((exists v :: v in vectors && InSpace(s, v)) ==> verdict == Verdict(false, None, HalfFinishedSync))
  {
    forall v | v in vectors && Outside(s, v) ensures !Holds(s, v, root) {
      OutsideFails(s, v, root);
    }
    forall v | v in vectors && InSpace(s, v) ensures Holds(s, v, root) {
      InSpaceHolds(s, v, root);
    }
    hide Holds, Outside, InSpace, SpaceOfLabel;
    assert names[0] in names;
    assert Declared(names) == {None};
  }

  // ---------------------------------------------------------------- the transform

  ghost predicate OrthogonalTo(s: Space, c: Vec)
    requires s.Shaped()
  {
    |c| == |s.mean| && forall j :: 0 <= j < |s.components| ==> Dot(s.components[j], c) == 0.0
  }

  lemma {:induction false} ProjectionAcross(x: Vec, rows: seq<Vec>, c: Vec)
    requires AllOfLength(rows, |x|) && |c| == |x| && forall j :: 0 <= j < |rows| ==> Dot(rows[j], c) == 0.0
    ensures Dot(Projection(x, rows), c) == 0.0
  {
    ProjectionAlong(x, rows, c, None);
  }

  /** `apply` takes the removed directions away and nothing else: on every vector orthogonal to them the
      result is the centred embedding up to one positive factor, and it is a unit vector unless nothing
      was left. */
  lemma AppliedIs(s: Space, x: Vec, root: Root) returns (factor: real)
    requires s.Shaped() && IsSquareRoot(root) && |x| == |s.mean|
    ensures factor > 0.0
    ensures forall c | OrthogonalTo(s, c) :: Times(factor, Dot(Apply(s, x, root), c)) == Dot(Sub(x, s.mean), c)
    ensures Dot(Apply(s, x, root), Apply(s, x, root)) == 1.0 || Dot(Apply(s, x, root), Apply(s, x, root)) == 0.0
  {
    var centred := Sub(x, s.mean);
    var kept := Sub(centred, Projection(centred, s.components));
    factor := NormalizeIs(kept, root);
    DotWithItself(kept);
    var result := Normalize(kept, root);
    hide Dot, Normalize, Projection, Times;
    forall c | OrthogonalTo(s, c) ensures Times(factor, Dot(result, c)) == Dot(centred, c) {
      ProjectionAcross(centred, s.components, c);
      DotSub(centred, Projection(centred, s.components), c);
      DotScale(factor, result, c);
    }
  }

  // ---------------------------------------------------------------- centroids

  /** A centroid points where the sum of its members points, and is a unit vector unless they cancel out. */
  lemma CentroidIs(vs: seq<Vec>, n: nat, root: Root) returns (factor: real)
    requires AllOfLength(vs, n) && vs != [] && IsSquareRoot(root)
    ensures factor > 0.0
    ensures forall c: Vec | |c| == n :: Times(factor, Dot(ComputeCentroid(vs, n, root), c)) == Total(vs, c)
    ensures var r := ComputeCentroid(vs, n, root); Dot(r, r) == 1.0 || Dot(r, r) == 0.0
  {
    var count := |vs| as real;
    var mean := Scale(1.0 / count, Sum(vs, n));
    var length := NormalizeIs(mean, root);
    DotWithItself(mean);
    var r := ComputeCentroid(vs, n, root);
    CentroidNormalizes(vs, n, root);
    factor := Times(count, length);
    TimesPositive(count, length);
    hide Dot, Normalize, ComputeCentroid, Times;
    forall c: Vec | |c| == n ensures Times(factor, Dot(r, c)) == Total(vs, c) {
      DotScale(length, r, c);
      DotScale(1.0 / count, Sum(vs, n), c);
      DotOfSum(vs, c);
      Unfold(count, length, Dot(r, c), Total(vs, c));
    }
  }

  lemma CentroidNormalizes(vs: seq<Vec>, n: nat, root: Root)
    requires AllOfLength(vs, n) && vs != []
    ensures ComputeCentroid(vs, n, root) == Normalize(Scale(1.0 / |vs| as real, Sum(vs, n)), root)
  {}

  lemma Unfold(count: real, length: real, r: real, total: real)
    requires count > 0.0 && Times(length, r) == Times(1.0 / count, total)
    ensures Times(Times(count, length), r) == total
  {
    hide Times;
    Back(count, total);
    TimesAssociates(count, length, r);
  }

  /** `members` are the transformed rows at the positions `at`. */
  ghost predicate TakenAt(s: Space, embeddings: seq<Vec>, members: seq<Vec>, at: seq<nat>, root: Root)
    requires s.Shaped() && AllOfLength(embeddings, |s.mean|)
  {
    |at| == |members| &&
    forall k :: 0 <= k < |at| ==> at[k] < |embeddings| && members[k] == Apply(s, embeddings[at[k]], root)
  }

  lemma MembersStep(s: Space, embeddings: seq<Vec>, clusters: seq<int>, cid: int, root: Root)
    requires s.Shaped() && AllOfLength(embeddings, |s.mean|) && |embeddings| == |clusters| && embeddings != []
    ensures var n := |embeddings| - 1;
            MembersOf(s, embeddings, clusters, cid, root) ==
            if clusters[n] == cid then
              MembersOf(s, embeddings[..n], clusters[..n], cid, root) + [Apply(s, embeddings[n], root)]
            else MembersOf(s, embeddings[..n], clusters[..n], cid, root)
  {
    hide Apply;
  }

  lemma TakeOneMore(s: Space, embeddings: seq<Vec>, members: seq<Vec>, at: seq<nat>, root: Root)
    requires s.Shaped() && AllOfLength(embeddings, |s.mean|) && embeddings != []
    requires TakenAt(s, embeddings[..|embeddings| - 1], members, at, root)
    ensures TakenAt(s, embeddings, members, at, root)
    ensures var n := |embeddings| - 1;
            TakenAt(s, embeddings, members + [Apply(s, embeddings[n], root)], at + [n], root)
  {
    hide Apply;
  }

  /** `at` lists, in order, the rows of cluster `cid`. */
  ghost predicate RowsOf(at: seq<nat>, clusters: seq<int>, cid: int) {
    Increasing(at) && forall i: nat :: i in at <==> i < |clusters| && clusters[i] == cid
  }

  lemma NextRow(at: seq<nat>, clusters: seq<int>, cid: int)
    requires clusters != [] && RowsOf(at, clusters[..|clusters| - 1], cid)
    ensures var n: nat := |clusters| - 1;
            RowsOf(if clusters[n] == cid then at + [n] else at, clusters, cid)
  {
    var n: nat := |clusters| - 1;
    forall k | 0 <= k < |at| ensures at[k] < n {
      assert at[k] in at;
    }
  }

  lemma NoMembers(s: Space, embeddings: seq<Vec>, clusters: seq<int>, cid: int, root: Root)
    requires s.Shaped() && AllOfLength(embeddings, |s.mean|) && |embeddings| == |clusters| == 0
    ensures RowsOf([], clusters, cid)
    ensures TakenAt(s, embeddings, MembersOf(s, embeddings, clusters, cid, root), [], root)
  {}

  /** The members of a cluster are its own rows, transformed, in row order. */
  lemma {:induction false} MembersAre(s: Space, embeddings: seq<Vec>, clusters: seq<int>, cid: int, root: Root)
    returns (at: seq<nat>)
    requires s.Shaped() && AllOfLength(embeddings, |s.mean|) && |embeddings| == |clusters|
    ensures RowsOf(at, clusters, cid)
    ensures TakenAt(s, embeddings, MembersOf(s, embeddings, clusters, cid, root), at, root)
  {
    hide *;
    at := [];
    if embeddings == [] {
      NoMembers(s, embeddings, clusters, cid, root);
    } else {
      var n: nat := |embeddings| - 1;
      AllButLast(embeddings, |s.mean|);
      at := MembersAre(s, embeddings[..n], clusters[..n], cid, root);
      MembersStep(s, embeddings, clusters, cid, root);
      TakeOneMore(s, embeddings, MembersOf(s, embeddings[..n], clusters[..n], cid, root), at, root);
      NextRow(at, clusters, cid);
      if clusters[n] == cid {
        at := at + [n];
      }
    }
  }

  lemma AllButLast(vs: seq<Vec>, n: nat)
    requires AllOfLength(vs, n) && vs != []
    ensures AllOfLength(vs[..|vs| - 1], n)
  {}

  // ---------------------------------------------------------------- raw or transformed

  /** The products of all pairs, added up. */
  ghost function PairTotal(vs: seq<Vec>, all: seq<Vec>, n: nat): real
    requires AllOfLength(vs, n) && AllOfLength(all, n)
  {
    if vs == [] then 0.0 else PairTotal(vs[..|vs| - 1], all, n) + Total(all, vs[|vs| - 1])
  }

  lemma {:induction false} TotalOfSum(vs: seq<Vec>, all: seq<Vec>, n: nat)
    requires AllOfLength(vs, n) && AllOfLength(all, n)
    ensures Total(vs, Sum(all, n)) == PairTotal(vs, all, n)
  {
    if vs != [] {
      var last := vs[|vs| - 1];
      TotalOfSum(vs[..|vs| - 1], all, n);
      DotSymmetric(last, Sum(all, n));
      DotOfSum(all, last);
    }
  }

  /** Centroids look transformed exactly if there are two or more of one dimension and the products of all
      pairs of their unit vectors add up to less than 0.36 for each pair. */
  lemma LooksTransformedMeans(vs: seq<Vec>, root: Root)
    requires IsSquareRoot(root)
    ensures LooksTransformed(vs, root) <==>
            && |vs| >= 2 && AllOfLength(vs, |vs[0]|)
            && var units := NormalizeAll(vs, root);
               PairTotal(units, units, |vs[0]|) < 0.36 * Times(|vs| as real, |vs| as real)
  {
    hide *;
    if |vs| >= 2 && AllOfLength(vs, |vs[0]|) {
      LooksWhen(vs, root);
      var n, count, us := |vs[0]|, |vs| as real, NormalizeAll(vs, root);
      var sum := Sum(us, n);
      var mean := Scale(1.0 / count, sum);
      DotScaleBoth(1.0 / count, sum);
      DotWithItself(mean);
      DotOfSum(us, sum);
      TotalOfSum(us, us, n);
      RootBelow(root, Dot(mean, mean), 0.6);
      Averaged(count, Dot(sum, sum));
    } else {
      LooksNot(vs, root);
    }
  }

  lemma LooksNot(vs: seq<Vec>, root: Root)
    requires |vs| < 2 || !AllOfLength(vs, |vs[0]|)
    ensures !LooksTransformed(vs, root)
  {}

  lemma LooksWhen(vs: seq<Vec>, root: Root)
    requires |vs| >= 2 && AllOfLength(vs, |vs[0]|)
    ensures AllOfLength(NormalizeAll(vs, root), |vs[0]|)
    ensures var mean := Scale(1.0 / |vs| as real, Sum(NormalizeAll(vs, root), |vs[0]|));
            LooksTransformed(vs, root) <==> root(Dot(mean, mean)) < 0.6
  {}

  lemma Averaged(count: real, total: real)
    requires count > 0.0
    ensures Times(1.0 / count, Times(1.0 / count, total)) < Times(0.6, 0.6) <==> total < 0.36 * Times(count, count)
  {
    var d := Times(1.0 / count, Times(1.0 / count, total));
    PartOf(Times(count, count));
    hide Times;
    Back(count, Times(1.0 / count, total));
    Back(count, total);
    TimesAssociates(count, count, d);
    TimesPositive(count, count);
    TimesKeepsOrder(Times(count, count), d, Times(0.6, 0.6));
  }

  lemma PartOf(square: real)
    ensures Times(square, Times(0.6, 0.6)) == 0.36 * square
  {}

  // ---------------------------------------------------------------- labels

  /** A label without a tag is written out with one, and stays as it is for no space. */
  lemma TagReads(name: string, id: string)
    requires forall j: nat :: !StartsAt(name, "@space:", j)
    ensures TagLabel(name, id) == if id == "" then name else name + "@space:" + id
  {
    assert FindTag(name, 0) == |name|;
    assert BaseOf(name) == name;
    if id != "" {
      assert name + ("@space:" + id) == name + "@space:" + id;
    }
  }
}
