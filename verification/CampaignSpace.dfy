/** The transformed space campaign matching runs in: "all but the top" directions
    (ai/service/campaign_space.py), and the centroids built in it (ai/service/campaign.py).

    The square root is a parameter: any function that is one. */
module CampaignSpace {
  import opened Wrappers
  import opened Substrings
  import opened Vectors

  type Root = real -> real

  ghost predicate IsSquareRoot(root: Root) {
    forall x :: x >= 0.0 ==> root(x) >= 0.0 && root(x) * root(x) == x
  }

  const IN_SPACE_TOLERANCE := 0.001
  const RAW_COHERENCE_FLOOR := 0.6

  datatype Space = Space(
    id: string,
    mean: Vec,
    components: seq<Vec>,
    modelVersion: Option<string>,
    embeddingThreshold: Option<real>)
  {
    /** Every row has the dimension of the mean. */
    ghost predicate Shaped() {
      AllOfLength(components, |mean|)
    }

    ghost predicate Orthonormal()
      requires Shaped()
    {
      forall i, j :: 0 <= i < |components| && 0 <= j < |components| ==>
        Dot(components[i], components[j]) == if i == j then 1.0 else 0.0
    }
  }

  // ---------------------------------------------------------------- apply and holds

  /** `_normalize` on one row: a zero row is left as it is. */
  function Normalize(v: Vec, root: Root): (r: Vec)
    ensures |r| == |v|
  {
    var norm := root(Dot(v, v));
    if norm == 0.0 then v else Scale(1.0 / norm, v)
  }

  /** (x @ components.T) @ components, over the first k rows. */
  function Projection(x: Vec, rows: seq<Vec>): (r: Vec)
    requires AllOfLength(rows, |x|)
    ensures |r| == |x|
  {
    if rows == [] then Zero(|x|)
    else
      var last := rows[|rows| - 1];
      Add(Projection(x, rows[..|rows| - 1]), Scale(Dot(x, last), last))
  }

  /** `apply` on one embedding. */
  function Apply(s: Space, x: Vec, root: Root): (r: Vec)
    requires s.Shaped() && |x| == |s.mean|
    ensures |r| == |x|
  {
    var centred := Sub(x, s.mean);
    Normalize(Sub(centred, Projection(centred, s.components)), root)
  }

  /** Squared length of `v @ rows.T`. */
  function Leftover(v: Vec, rows: seq<Vec>): real
    requires AllOfLength(rows, |v|)
  {
    if rows == [] then 0.0
    else
      var d := Dot(v, rows[|rows| - 1]);
      Leftover(v, rows[..|rows| - 1]) + Times(d, d)
  }

  /** `holds` on one vector: nothing left on the removed directions. */
  ghost predicate Holds(s: Space, v: Vec, root: Root)
    requires s.Shaped()
  {
    |v| == |s.mean| && root(Leftover(Normalize(v, root), s.components)) < IN_SPACE_TOLERANCE
  }

  /** Exactly orthogonal to every removed direction. */
  ghost predicate InSpace(s: Space, v: Vec)
    requires s.Shaped()
  {
    |v| == |s.mean| && forall j :: 0 <= j < |s.components| ==> Dot(v, s.components[j]) == 0.0
  }

  /** Along an orthonormal row the projection keeps exactly the component of x. */
  lemma {:induction false} ProjectionAlong(x: Vec, rows: seq<Vec>, c: Vec, at: Option<nat>)
    requires AllOfLength(rows, |x|) && |c| == |x|
    requires at.Some? ==> at.value < |rows| && rows[at.value] == c
    requires forall i :: 0 <= i < |rows| ==> Dot(rows[i], c) == if at == Some(i) then 1.0 else 0.0
    ensures Dot(Projection(x, rows), c) == if at.Some? then Dot(x, c) else 0.0
  {
    if rows == [] {
      DotZero(c);
    } else {
      var n := |rows| - 1;
      var last := rows[n];
      ProjectionAlong(x, rows[..n], c, if at == Some(n) then None else at);
      hide Dot, Times;
      DotAdd(Projection(x, rows[..n]), Scale(Dot(x, last), last), c);
      DotScale(Dot(x, last), last, c);
      TimesOne(Dot(x, last));
      TimesZero(Dot(x, last));
    }
  }

  lemma NormalizeKeepsZero(v: Vec, c: Vec, root: Root)
    requires |v| == |c| && Dot(v, c) == 0.0
    ensures Dot(Normalize(v, root), c) == 0.0
  {
    var norm := root(Dot(v, v));
    if norm != 0.0 {
      DotScale(1.0 / norm, v, c);
      TimesZero(1.0 / norm);
    }
  }

  /** `apply` leaves nothing on any removed direction. */
  lemma AppliedIsInSpace(s: Space, x: Vec, root: Root)
    requires s.Shaped() && s.Orthonormal() && |x| == |s.mean|
    ensures InSpace(s, Apply(s, x, root))
  {
    var centred := Sub(x, s.mean);
    var kept := Sub(centred, Projection(centred, s.components));
    forall j | 0 <= j < |s.components| ensures Dot(Normalize(kept, root), s.components[j]) == 0.0 {
      var c := s.components[j];
      ProjectionAlong(centred, s.components, c, Some(j));
      DotSub(centred, Projection(centred, s.components), c);
      NormalizeKeepsZero(kept, c, root);
    }
  }

  lemma {:induction false} NothingLeftover(v: Vec, rows: seq<Vec>)
    requires AllOfLength(rows, |v|) && forall j :: 0 <= j < |rows| ==> Dot(v, rows[j]) == 0.0
    ensures Leftover(v, rows) == 0.0
  {
    if rows != [] {
      NothingLeftover(v, rows[..|rows| - 1]);
      TimesZero(0.0);
    }
  }

  lemma RootOfZero(root: Root)
    requires IsSquareRoot(root)
    ensures root(0.0) == 0.0
  {
    SquareZero(root(0.0), root(0.0) * root(0.0));
  }

  lemma SquareZero(x: real, xx: real)
    requires xx == x * x && xx == 0.0 && x >= 0.0
    ensures x == 0.0
  {
    if x > 0.0 {
      ProductPositive(x, x, xx);
    }
  }

  lemma ProductPositive(a: real, b: real, ab: real)
    requires ab == a * b && a > 0.0 && b > 0.0
    ensures ab > 0.0
  {}

  /** A vector orthogonal to the removed directions passes the guard's check. */
  lemma InSpaceHolds(s: Space, v: Vec, root: Root)
    requires s.Shaped() && IsSquareRoot(root) && InSpace(s, v)
    ensures Holds(s, v, root)
  {
    forall j | 0 <= j < |s.components| ensures Dot(Normalize(v, root), s.components[j]) == 0.0 {
      NormalizeKeepsZero(v, s.components[j], root);
    }
    NothingLeftover(Normalize(v, root), s.components);
    RootOfZero(root);
  }

  // ---------------------------------------------------------------- centroids

  /** `compute_centroid`: the mean, re-normalized unless it is zero. */
  function ComputeCentroid(vs: seq<Vec>, n: nat, root: Root): (r: Vec)
    requires AllOfLength(vs, n) && vs != []
    ensures |r| == n
  {
    var mean := Scale(1.0 / |vs| as real, Sum(vs, n));
    var norm := root(Dot(mean, mean));
    if norm == 0.0 then mean else Scale(1.0 / norm, mean)
  }

  lemma CentroidStaysInSpace(s: Space, vs: seq<Vec>, root: Root)
    requires s.Shaped() && vs != [] && forall i :: 0 <= i < |vs| ==> InSpace(s, vs[i])
    ensures AllOfLength(vs, |s.mean|)
    ensures InSpace(s, ComputeCentroid(vs, |s.mean|, root))
  {
    var n := |s.mean|;
    forall j | 0 <= j < |s.components| ensures Dot(ComputeCentroid(vs, n, root), s.components[j]) == 0.0 {
      var c := s.components[j];
      DotSum(vs, c);
      DotScale(1.0 / |vs| as real, Sum(vs, n), c);
      TimesZero(1.0 / |vs| as real);
      NormalizeKeepsZero(Scale(1.0 / |vs| as real, Sum(vs, n)), c, root);
    }
  }

  /** The transformed members of one cluster, in row order. */
  function MembersOf(s: Space, embeddings: seq<Vec>, clusters: seq<int>, cid: int, root: Root): (r: seq<Vec>)
    requires s.Shaped() && AllOfLength(embeddings, |s.mean|) && |embeddings| == |clusters|
    ensures AllOfLength(r, |s.mean|)
    ensures r != [] <==> cid in clusters
  {
    if embeddings == [] then []
    else
      var n := |embeddings| - 1;
      assert clusters == clusters[..n] + [clusters[n]];
      var rest := MembersOf(s, embeddings[..n], clusters[..n], cid, root);
      if clusters[n] == cid then rest + [Apply(s, embeddings[n], root)] else rest
  }

  lemma {:induction false} MembersAreInSpace(s: Space, embeddings: seq<Vec>, clusters: seq<int>, cid: int, root: Root)
    requires s.Shaped() && s.Orthonormal() && AllOfLength(embeddings, |s.mean|) && |embeddings| == |clusters|
    ensures forall v <- MembersOf(s, embeddings, clusters, cid, root) :: InSpace(s, v)
  {
    if embeddings != [] {
      var n := |embeddings| - 1;
      MembersAreInSpace(s, embeddings[..n], clusters[..n], cid, root);
      AppliedIsInSpace(s, embeddings[n], root);
    }
  }

  /** Every centroid `build_matcher_from_clusters` builds with a space passes that space's
      own check: the guard never turns away a set that was built correctly. */
  lemma BuiltCentroidsHold(s: Space, embeddings: seq<Vec>, clusters: seq<int>, cid: int, root: Root)
    requires s.Shaped() && s.Orthonormal() && IsSquareRoot(root)
    requires AllOfLength(embeddings, |s.mean|) && |embeddings| == |clusters| && cid in clusters
    ensures var members := MembersOf(s, embeddings, clusters, cid, root);
            Holds(s, ComputeCentroid(members, |s.mean|, root), root)
  {
    var members := MembersOf(s, embeddings, clusters, cid, root);
    MembersAreInSpace(s, embeddings, clusters, cid, root);
    CentroidStaysInSpace(s, members, root);
    InSpaceHolds(s, ComputeCentroid(members, |s.mean|, root), root);
  }

  // ---------------------------------------------------------------- labels

  const SPACE_TAG := "@space:"

  /** First position of the tag at or after `i`, or the length of the text. */
  function FindTag(text: string, i: nat): (r: nat)
    requires i <= |text|
    ensures i <= r <= |text|
    ensures r < |text| ==> StartsAt(text, SPACE_TAG, r)
    ensures forall j :: i <= j < r ==> !StartsAt(text, SPACE_TAG, j)
    decreases |text| - i
  {
    if i == |text| || StartsAt(text, SPACE_TAG, i) then i else FindTag(text, i + 1)
  }

  /** `label.split(SPACE_TAG, 1)[0]`. */
  function BaseOf(name: string): string {
    name[..FindTag(name, 0)]
  }

  /** `tag_label`; an absent space id is written as the empty string. */
  function TagLabel(name: string, spaceId: string): string {
    if spaceId == "" then BaseOf(name) else BaseOf(name) + (SPACE_TAG + spaceId)
  }

  /** `space_of_label`. */
  function SpaceOfLabel(name: Option<string>): Option<string> {
    if name.None? || FindTag(name.value, 0) == |name.value| then None
    else
      var rest := name.value[FindTag(name.value, 0) + |SPACE_TAG|..];
      if rest == "" then None else Some(rest)
  }

  lemma TagOpensUniquely()
    ensures OpensUniquely(SPACE_TAG) && |SPACE_TAG| == 7
  {}

  lemma BaseHasNoTag(name: string)
    ensures forall j: nat :: !StartsAt(BaseOf(name), SPACE_TAG, j)
  {
    TagOpensUniquely();
    var p := FindTag(name, 0);
    forall j: nat ensures !StartsAt(name[..p], SPACE_TAG, j) {
      if j + |SPACE_TAG| <= p {
        assert name[..p][j..j + |SPACE_TAG|] == name[j..j + |SPACE_TAG|];
        assert !StartsAt(name, SPACE_TAG, j);
      }
    }
  }

  /** The tag that was appended is the first one found. */
  lemma TagIsFound(name: string, spaceId: string)
    requires spaceId != ""
    ensures FindTag(TagLabel(name, spaceId), 0) == |BaseOf(name)|
  {
    TagOpensUniquely();
    BaseHasNoTag(name);
    var base, tail := BaseOf(name), SPACE_TAG + spaceId;
    forall j | 0 <= j < |base| ensures !StartsAt(base + tail, SPACE_TAG, j) {
      NoStraddle(base, tail, SPACE_TAG, j);
    }
    assert (base + tail)[|base|..|base| + |SPACE_TAG|] == SPACE_TAG;
    assert StartsAt(base + tail, SPACE_TAG, |base|);
  }

  /** The declared space survives the label, whatever the readable name contains. */
  lemma TagRoundTrip(name: string, spaceId: string)
    requires spaceId != ""
    ensures SpaceOfLabel(Some(TagLabel(name, spaceId))) == Some(spaceId)
  {
    TagOpensUniquely();
    TagIsFound(name, spaceId);
    var base := BaseOf(name);
    assert (base + (SPACE_TAG + spaceId))[|base| + |SPACE_TAG|..] == spaceId;
  }

  lemma UntaggedIsRaw(name: string)
    ensures SpaceOfLabel(Some(TagLabel(name, ""))) == None
  {
    BaseHasNoTag(name);
  }

  /** Re-tagging replaces the old tag. */
  lemma RetagReplaces(name: string, a: string, b: string)
    ensures TagLabel(TagLabel(name, a), b) == TagLabel(name, b)
  {
    if a == "" {
      BaseHasNoTag(name);
      var base := BaseOf(name);
      assert FindTag(base, 0) == |base|;
      assert base[..|base|] == base;
    } else {
      TagIsFound(name, a);
      assert TagLabel(name, a)[..|BaseOf(name)|] == BaseOf(name);
    }
  }

  // ---------------------------------------------------------------- the guard

  datatype Reason =
    | NoCentroids
    | RawSpace
    | HalfFinishedSync
    | LooksTransformedWithoutSpace
    | ManySpaces
    | LabelledButNotIn
    | SpaceNotLoaded
    | OtherSpaceLoaded
    | NotCalibrated
    | SpaceWithoutModel
    | UnknownServedModel
    | OtherModel
    | Checked

  datatype Verdict = Verdict(enabled: bool, space: Option<Space>, reason: Reason)

  predicate Given(s: Option<string>) {
    s.Some? && s.value != ""
  }

  /** `_check_space`. */
  function CheckSpace(space: Option<Space>, wanted: string, served: Option<string>): Verdict {
    if space.None? then Verdict(false, None, SpaceNotLoaded)
    else if space.value.id != wanted then Verdict(false, None, OtherSpaceLoaded)
    else if space.value.embeddingThreshold.None? then Verdict(false, None, NotCalibrated)
    else if !Given(space.value.modelVersion) then Verdict(false, None, SpaceWithoutModel)
    else if !Given(served) then Verdict(false, None, UnknownServedModel)
    else if space.value.modelVersion != served then Verdict(false, None, OtherModel)
    else Verdict(true, space, Checked)
  }

  ghost function Declared(names: seq<Option<string>>): set<Option<string>> {
    set n | n in names :: SpaceOfLabel(n)
  }

  function NormalizeAll(vs: seq<Vec>, root: Root): (r: seq<Vec>)
    ensures |r| == |vs| && forall i :: 0 <= i < |vs| ==> |r[i]| == |vs[i]|
  {
    seq(|vs|, i requires 0 <= i < |vs| => Normalize(vs[i], root))
  }

  /** `_looks_transformed`: too little coherence for raw classifier centroids. */
  ghost predicate LooksTransformed(vs: seq<Vec>, root: Root) {
    && |vs| >= 2 && AllOfLength(vs, |vs[0]|)
    && var mean := Scale(1.0 / |vs| as real, Sum(NormalizeAll(vs, root), |vs[0]|));
       root(Dot(mean, mean)) < RAW_COHERENCE_FLOOR
  }

  /** `resolve_space`. */
  ghost function ResolveSpace(names: seq<Option<string>>, space: Option<Space>, served: Option<string>,
                              vectors: Option<seq<Vec>>, root: Root): Verdict
    requires space.Some? ==> space.value.Shaped()
  {
    var declared := Declared(names);
    if names == [] then Verdict(true, None, NoCentroids)
    else
      var checked := space.Some? && vectors.Some?;
      var allHold := checked && forall v <- vectors.value :: Holds(space.value, v, root);
      var anyHolds := checked && exists v <- vectors.value :: Holds(space.value, v, root);
      if declared == {None} then
        if allHold then CheckSpace(space, space.value.id, served)
        else if anyHolds then Verdict(false, None, HalfFinishedSync)
        else if space.None? && vectors.Some? && LooksTransformed(vectors.value, root)
        then Verdict(false, None, LooksTransformedWithoutSpace)
        else Verdict(true, None, RawSpace)
      else if |declared| > 1 then Verdict(false, None, ManySpaces)
      else
        assert SpaceOfLabel(names[0]) in declared;
        var wanted :| wanted in declared;
        if checked && !allHold then Verdict(false, None, LabelledButNotIn)
        else CheckSpace(space, if wanted.Some? then wanted.value else "", served)
  }

  /** The space can be used at all: calibrated, and fitted on the model being served. */
  predicate Usable(s: Space, served: Option<string>) {
    s.embeddingThreshold.Some? && Given(s.modelVersion) && s.modelVersion == served
  }

  /** A set built in a space -- correctly labelled, or with its labels lost on the way -- is
      accepted exactly when the space is usable.  The vectors are never the reason to refuse. */
  lemma BuiltSetsAreAccepted(names: seq<Option<string>>, s: Space, served: Option<string>, vectors: seq<Vec>,
                             root: Root)
    requires s.Shaped() && IsSquareRoot(root) && names != []
    requires (forall n <- names :: SpaceOfLabel(n) == Some(s.id)) || (forall n <- names :: SpaceOfLabel(n) == None)
    requires forall v <- vectors :: InSpace(s, v)
    ensures var verdict := ResolveSpace(names, Some(s), served, Some(vectors), root);
            && verdict.enabled == Usable(s, served)
            && (verdict.enabled ==> verdict.space == Some(s))
            && verdict.reason !in {HalfFinishedSync, LabelledButNotIn, ManySpaces, OtherSpaceLoaded, RawSpace}
  {
    forall v | v in vectors ensures Holds(s, v, root) {
      InSpaceHolds(s, v, root);
    }
    hide InSpace, Holds, SpaceOfLabel;
    assert names[0] in names;
    assert Declared(names) == {SpaceOfLabel(names[0])};
  }

  /** Matching in a space is switched on only for that very space, on the model it was fitted
      on, with no checked centroid outside it and no label of another space. */
  lemma EnabledMeansConsistent(names: seq<Option<string>>, space: Option<Space>, served: Option<string>,
                               vectors: Option<seq<Vec>>, root: Root)
    requires space.Some? ==> space.value.Shaped()
    ensures var verdict := ResolveSpace(names, space, served, vectors, root);
            verdict.enabled && verdict.space.Some? ==>
              && verdict.space == space && Usable(space.value, served)
              && (vectors.Some? ==> forall v <- vectors.value :: Holds(space.value, v, root))
              && ((forall n <- names :: SpaceOfLabel(n) == Some(space.value.id)) ||
                  (vectors.Some? && forall n <- names :: SpaceOfLabel(n) == None))
    ensures var verdict := ResolveSpace(names, space, served, vectors, root);
            verdict.enabled && verdict.space.None? ==>
              && (forall n <- names :: SpaceOfLabel(n) == None)
              && (names != [] && space.Some? && vectors.Some? ==>
                  forall v <- vectors.value :: !Holds(space.value, v, root))
  {
    hide Holds, SpaceOfLabel, LooksTransformed;
    forall n | n in names ensures SpaceOfLabel(n) in Declared(names) {}
    if names != [] && Declared(names) != {None} && |Declared(names)| <= 1 {
      assert SpaceOfLabel(names[0]) in Declared(names);
      var wanted :| wanted in Declared(names);
      OnlyElement(Declared(names), wanted);
    }
  }

  lemma OnlyElement<T>(s: set<T>, x: T)
    requires x in s && |s| <= 1
    ensures s == {x}
  {
    assert |s - {x}| == 0;
  }
}
