/** Reservoir sampling, Vitter's Algorithm R (ai/retraining/sampling.py).

    The random generator is a parameter: `draws[m]` is what `randint(0, i)` returned for
    the stream item at position `i == k + m`.  A probability is a count over all draw
    sequences the generator can produce. */
module Sampling {
  import opened Wrappers
  import opened Collections

  datatype SamplingError = NegativeSize

  function DrawCount(k: nat, n: nat): nat {
    if n <= k then 0 else n - k
  }

  /** The draws a generator may produce while a stream of `n` items passes a reservoir of `k`. */
  ghost predicate ValidDraws(k: nat, n: nat, draws: seq<nat>) {
    && |draws| == DrawCount(k, n)
    && forall m :: 0 <= m < |draws| ==> draws[m] <= k + m
  }

  /** The reservoir after the whole stream, last item first. */
  ghost function Reservoir<T>(stream: seq<T>, k: nat, draws: seq<nat>): (r: seq<T>)
    requires ValidDraws(k, |stream|, draws)
    ensures |r| == if |stream| <= k then |stream| else k
    decreases |stream|
  {
    var n := |stream|;
    if n <= k then stream
    else
      var before := Reservoir(stream[..n - 1], k, draws[..n - 1 - k]);
      var j := draws[n - 1 - k];
      if j < k then before[j := stream[n - 1]] else before
  }

  /** `reservoir_sample`.  `consumed` is how many stream items were pulled: a reservoir of
      size 0 returns before it touches the stream. */
  method ReservoirSample<T>(stream: seq<T>, k: int, draws: seq<nat>)
    returns (r: Result<seq<T>, SamplingError>, consumed: nat)
    requires k > 0 ==> ValidDraws(k, |stream|, draws)
    ensures k < 0 ==> r == Err(NegativeSize) && consumed == 0
    ensures k == 0 ==> r == Ok([]) && consumed == 0
    ensures k > 0 ==> r == Ok(Reservoir(stream, k, draws)) && consumed == |stream|
  {
    if k < 0 {
      return Err(NegativeSize), 0;
    }
    if k == 0 {
      return Ok([]), 0;
    }
    var reservoir: seq<T> := [];
    var i := 0;
    while i < |stream|
      invariant 0 <= i <= |stream|
      invariant ValidDraws(k, i, draws[..DrawCount(k, i)])
      invariant reservoir == Reservoir(stream[..i], k, draws[..DrawCount(k, i)])
    {
      assert stream[..i + 1][..i] == stream[..i];
      if i < k {
        reservoir := reservoir + [stream[i]];
      } else {
        var j := draws[i - k];
        assert draws[..DrawCount(k, i + 1)][..i - k] == draws[..DrawCount(k, i)];
        if j < k {
          reservoir := reservoir[j := stream[i]];
        }
      }
      i := i + 1;
    }
    assert stream[..i] == stream && draws[..DrawCount(k, i)] == draws;
    return Ok(reservoir), i;
  }

  // ---------------------------------------------------------------- positions

  function Positions(n: nat): (s: seq<nat>)
    ensures |s| == n && forall i :: 0 <= i < n ==> s[i] == i
  {
    seq(n, i => i)
  }

  /** The stream positions that sit in the reservoir at the end. */
  ghost function Kept(k: nat, n: nat, draws: seq<nat>): (r: seq<nat>)
    requires ValidDraws(k, n, draws)
    ensures |r| == if n <= k then n else k
  {
    Reservoir(Positions(n), k, draws)
  }

  ghost function KeptSet(k: nat, n: nat, draws: seq<nat>): set<nat>
    requires ValidDraws(k, n, draws)
  {
    Elements(Kept(k, n, draws))
  }

  lemma KeptStep(k: nat, n: nat, u: seq<nat>, j: nat)
    requires k <= n && ValidDraws(k, n, u) && j <= n
    ensures ValidDraws(k, n + 1, u + [j])
    ensures Kept(k, n + 1, u + [j]) == if j < k then Kept(k, n, u)[j := n] else Kept(k, n, u)
  {
    assert Positions(n + 1)[..n] == Positions(n);
    assert (u + [j])[..n - k] == u;
  }

  lemma KeptLast(k: nat, n: nat, draws: seq<nat>)
    requires k < n && ValidDraws(k, n, draws)
    ensures ValidDraws(k, n - 1, draws[..n - 1 - k])
    ensures var before, j := Kept(k, n - 1, draws[..n - 1 - k]), draws[n - 1 - k];
            Kept(k, n, draws) == if j < k then before[j := n - 1] else before
  {
    assert Positions(n)[..n - 1] == Positions(n - 1);
  }

  /** Whatever the draws, the reservoir holds min(n, k) different stream positions. */
  lemma {:induction false} KeptDistinct(k: nat, n: nat, draws: seq<nat>)
    requires ValidDraws(k, n, draws)
    ensures Distinct(Kept(k, n, draws)) && Bounded(Kept(k, n, draws), n)
    ensures |KeptSet(k, n, draws)| == if n <= k then n else k
    decreases n
  {
    if n <= k {
      assert Kept(k, n, draws) == Positions(n);
    } else {
      hide *;
      KeptLast(k, n, draws);
      KeptDistinct(k, n - 1, draws[..n - 1 - k]);
      ReplacedDistinct(Kept(k, n - 1, draws[..n - 1 - k]), draws[n - 1 - k], n - 1);
    }
    hide Kept, Distinct, Bounded;
    DistinctCardinality(Kept(k, n, draws));
  }

  ghost predicate Bounded(s: seq<nat>, n: nat) {
    forall i :: 0 <= i < |s| ==> s[i] < n
  }

  lemma ReplacedDistinct(s: seq<nat>, j: nat, y: nat)
    requires Distinct(s) && Bounded(s, y)
    ensures Bounded(s, y + 1)
    ensures j < |s| ==> Distinct(s[j := y]) && Bounded(s[j := y], y + 1)
  {}

  /** What is sampled are the stream's own items, at the kept positions. */
  lemma {:induction false} ReservoirHoldsKeptItems<T>(stream: seq<T>, k: nat, draws: seq<nat>)
    requires ValidDraws(k, |stream|, draws)
    ensures var kept := Kept(k, |stream|, draws);
            |Reservoir(stream, k, draws)| == |kept| &&
            forall m :: 0 <= m < |kept| ==> kept[m] < |stream| && Reservoir(stream, k, draws)[m] == stream[kept[m]]
    decreases |stream|
  {
    hide *;
    var n := |stream|;
    if n <= k {
      NothingReplaced(stream, k, draws);
    } else {
      DrawsKnown(k, n, draws);
      var u, j := draws[..n - 1 - k], draws[n - 1 - k];
      KeptLast(k, n, draws);
      ReservoirLast(stream, k, draws);
      ReservoirHoldsKeptItems(stream[..n - 1], k, u);
      HoldsAfterDraw(stream, Kept(k, n - 1, u), Reservoir(stream[..n - 1], k, u), j);
    }
  }

  lemma DrawsKnown(k: nat, n: nat, draws: seq<nat>)
    requires k < n && ValidDraws(k, n, draws)
    ensures |draws| == n - k
  {}

  lemma NothingReplaced<T>(stream: seq<T>, k: nat, draws: seq<nat>)
    requires |stream| <= k && ValidDraws(k, |stream|, draws)
    ensures Kept(k, |stream|, draws) == Positions(|stream|) && Reservoir(stream, k, draws) == stream
  {}

  lemma ReservoirLast<T>(stream: seq<T>, k: nat, draws: seq<nat>)
    requires k < |stream| && ValidDraws(k, |stream|, draws)
    ensures ValidDraws(k, |stream| - 1, draws[..|stream| - 1 - k])
    ensures var n := |stream|;
            var before, j := Reservoir(stream[..n - 1], k, draws[..n - 1 - k]), draws[n - 1 - k];
            |before| == k && Reservoir(stream, k, draws) == if j < k then before[j := stream[n - 1]] else before
  {}

  lemma HoldsAfterDraw<T>(stream: seq<T>, kept: seq<nat>, held: seq<T>, j: nat)
    requires stream != [] && |kept| == |held|
    requires forall m :: 0 <= m < |kept| ==> kept[m] < |stream| - 1 && held[m] == stream[..|stream| - 1][kept[m]]
    ensures var n := |stream| - 1;
            var kept' := if j < |kept| then kept[j := n] else kept;
            var held' := if j < |held| then held[j := stream[n]] else held;
            forall m :: 0 <= m < |kept'| ==> kept'[m] < |stream| && held'[m] == stream[kept'[m]]
  {}

  /** The last draw that hits `slot`. */
  ghost predicate LastDraw(draws: seq<nat>, slot: nat, m: nat) {
    m < |draws| && draws[m] == slot && forall later :: m < later < |draws| ==> draws[later] != slot
  }

  /** A slot holds the last item whose draw hit it, and the item it was filled with if none did. */
  lemma {:induction false} SlotHolds<T>(stream: seq<T>, k: nat, draws: seq<nat>, slot: nat)
    requires ValidDraws(k, |stream|, draws) && slot < k && slot < |stream|
    ensures var r := Reservoir(stream, k, draws);
            && slot < |r|
            && (forall m: nat :: LastDraw(draws, slot, m) ==> k + m < |stream| && r[slot] == stream[k + m])
            && (slot !in draws ==> r[slot] == stream[slot])
    decreases |stream|
  {
    if |stream| > k {
      var d := |stream| - 1 - k;
      SlotHolds(stream[..|stream| - 1], k, draws[..d], slot);
      hide Reservoir;
      ReservoirLast(stream, k, draws);
      forall m: nat | LastDraw(draws, slot, m) && m < d ensures LastDraw(draws[..d], slot, m) {}
      assert slot !in draws ==> slot !in draws[..d];
    }
  }

  // ---------------------------------------------------------------- counting draw sequences

  /** Every draw sequence, built one draw at a time. */
  ghost function Traces(k: nat, n: nat): (ts: set<seq<nat>>)
    ensures forall t <- ts :: ValidDraws(k, n, t)
    decreases n
  {
    if n <= k then {[]}
    else set u, j | u in Traces(k, n - 1) && j in Below(n) :: u + [j]
  }

  ghost function Below(n: nat): (s: set<nat>)
    ensures forall j: nat :: j in s <==> j < n
    ensures |s| == n
  {
    if n == 0 then {} else Below(n - 1) + {n - 1}
  }

  /** `Traces` leaves out no draw sequence. */
  lemma {:induction false} TracesAreAllDraws(k: nat, n: nat, t: seq<nat>)
    ensures t in Traces(k, n) <==> ValidDraws(k, n, t)
    decreases n
  {
    if n > k && ValidDraws(k, n, t) {
      TracesAreAllDraws(k, n - 1, t[..n - 1 - k]);
      assert t == t[..n - 1 - k] + [t[n - 1 - k]];
    }
  }

  ghost function Fiber(s: set<seq<nat>>, u: seq<nat>): set<seq<nat>> {
    set t | t in s && |t| > 0 && t[..|t| - 1] == u
  }

  ghost function Extensions(u: seq<nat>, js: set<nat>): set<seq<nat>> {
    set j | j in js :: u + [j]
  }

  lemma {:induction false} ExtensionsCardinality(u: seq<nat>, js: set<nat>)
    ensures |Extensions(u, js)| == |js|
  {
    if js != {} {
      var j :| j in js;
      ExtensionsCardinality(u, js - {j});
      assert Extensions(u, js) == Extensions(u, js - {j}) + {u + [j]};
      forall x | x in Extensions(u, js - {j}) ensures x != u + [j] {
        var i :| i in js - {j} && x == u + [i];
        assert x[|u|] == i;
      }
    }
  }

  /** If every u in `base` is extended in exactly `c` ways, there are |base| * c extensions. */
  lemma {:induction false} CountByFibers(s: set<seq<nat>>, base: set<seq<nat>>, c: nat)
    requires forall t <- s :: |t| > 0 && t[..|t| - 1] in base
    requires forall u <- base :: |Fiber(s, u)| == c
    ensures |s| == |base| * c
    decreases |base|
  {
    if base == {} {
      assert s == {};
    } else {
      var u :| u in base;
      var rest := s - Fiber(s, u);
      forall v | v in base - {u} ensures Fiber(rest, v) == Fiber(s, v) {}
      CountByFibers(rest, base - {u}, c);
      assert |s| == |rest| + |Fiber(s, u)|;
      assert |base - {u}| == |base| - 1;
      OneMoreShare(|base| - 1, c);
    }
  }

  lemma TraceStep(k: nat, n: nat, t: seq<nat>)
    requires k <= n
    ensures t in Traces(k, n + 1) <==> |t| > 0 && t[..|t| - 1] in Traces(k, n) && t[|t| - 1] <= n
  {
    if |t| > 0 {
      assert t == t[..|t| - 1] + [t[|t| - 1]];
    }
  }

  lemma TracesGrow(k: nat, n: nat)
    requires k <= n
    ensures |Traces(k, n + 1)| == |Traces(k, n)| * (n + 1)
  {
    hide Traces, ValidDraws;
    var next := Traces(k, n + 1);
    forall t | t in next ensures |t| > 0 && t[..|t| - 1] in Traces(k, n) {
      TraceStep(k, n, t);
    }
    forall u | u in Traces(k, n) ensures |Fiber(next, u)| == n + 1 {
      forall j: nat | j <= n ensures u + [j] in next {
        TraceStep(k, n, u + [j]);
      }
      FiberIs(next, u, Below(n + 1), k, n);
      ExtensionsCardinality(u, Below(n + 1));
    }
    CountByFibers(next, Traces(k, n), n + 1);
  }

  /** The fiber over `u` is read off from which draws `j` keep `u + [j]` in `s`. */
  lemma FiberIs(s: set<seq<nat>>, u: seq<nat>, js: set<nat>, k: nat, n: nat)
    requires k <= n && u in Traces(k, n)
    requires s <= Traces(k, n + 1)
    requires forall j <- js :: j <= n
    requires forall j: nat :: j <= n ==> (u + [j] in s <==> j in js)
    ensures Fiber(s, u) == Extensions(u, js)
  {
    forall t | t in Fiber(s, u) ensures t in Extensions(u, js) {
      TraceStep(k, n, t);
      assert t == u + [t[|t| - 1]];
    }
    forall t | t in Extensions(u, js) ensures t in Fiber(s, u) {
      var j :| j in js && t == u + [j];
      assert t[..|t| - 1] == u;
    }
  }

  ghost function Factorial(n: nat): nat {
    if n == 0 then 1 else n * Factorial(n - 1)
  }

  lemma FactorialStep(n: nat)
    requires n > 0
    ensures Factorial(n) == Factorial(n - 1) * n
  {}

  lemma OneTraceWithoutDraws(k: nat)
    ensures |Traces(k, k)| == 1
  {
    assert Traces(k, k) == {[]};
  }

  /** There are n! / k! draw sequences. */
  lemma {:induction false} TraceCount(k: nat, n: nat)
    requires k <= n
    ensures |Traces(k, n)| * Factorial(k) == Factorial(n)
    decreases n
  {
    hide *;
    if n == k {
      OneTraceWithoutDraws(k);
    } else {
      TraceCount(k, n - 1);
      TracesGrow(k, n - 1);
      FactorialStep(n);
      Reorder(|Traces(k, n - 1)|, n, Factorial(k));
    }
  }

  lemma Reorder(a: int, b: int, c: int)
    ensures a * b * c == b * (a * c)
  {}

  // ---------------------------------------------------------------- the k/n guarantee

  ghost function TracesKeeping(k: nat, n: nat, p: nat): set<seq<nat>> {
    set t | t in Traces(k, n) && p in Kept(k, n, t)
  }

  /** Every item ends in the reservoir with probability exactly k/n, wherever it arrived. */
  lemma {:induction false} RetentionIsExact(k: nat, n: nat, p: nat)
    requires 0 < k <= n && p < n
    ensures |TracesKeeping(k, n, p)| * n == k * |Traces(k, n)|
    decreases n
  {
    hide *;
    if n == k {
      AllKept(k, p);
    } else {
      TracesGrow(k, n - 1);
      if p == n - 1 {
        NewestKept(k, n - 1);
      } else {
        RetentionIsExact(k, n - 1, p);
        OlderKept(k, n - 1, p);
      }
      Reorder(k, |Traces(k, n - 1)|, n);
      Reorder(|Traces(k, n - 1)|, n, k);
    }
  }

  lemma AllKept(k: nat, p: nat)
    requires p < k
    ensures |TracesKeeping(k, k, p)| == |Traces(k, k)| == 1
  {
    assert Kept(k, k, [])[p] == p;
    assert TracesKeeping(k, k, p) == {[]};
  }

  lemma NothingDropped(k: nat, n: nat, p: nat)
    requires p < n < k
    ensures |Traces(k, n)| == 1 && forall t <- Traces(k, n) :: p in Kept(k, n, t)
  {
    assert Kept(k, n, [])[p] == p;
  }

  lemma NewestKept(k: nat, n: nat)
    requires 0 < k <= n
    ensures |TracesKeeping(k, n + 1, n)| == k * |Traces(k, n)|
  {
    hide Traces, Kept;
    var s, base := TracesKeeping(k, n + 1, n), Traces(k, n);
    forall t | t in s ensures |t| > 0 && t[..|t| - 1] in base {
      TraceStep(k, n, t);
    }
    forall u | u in base ensures |Fiber(s, u)| == k {
      forall j: nat | j <= n ensures u + [j] in s <==> j in Below(k) {
        NewestKeptByDraw(k, n, u, j);
      }
      FiberIs(s, u, Below(k), k, n);
      ExtensionsCardinality(u, Below(k));
    }
    CountByFibers(s, base, k);
  }

  lemma NewestKeptByDraw(k: nat, n: nat, u: seq<nat>, j: nat)
    requires 0 < k <= n && u in Traces(k, n) && j <= n
    ensures u + [j] in TracesKeeping(k, n + 1, n) <==> j < k
  {
    hide Traces, Kept;
    KeptDistinct(k, n, u);
    KeptStep(k, n, u, j);
    TracesAreAllDraws(k, n + 1, u + [j]);
    if j < k {
      assert Kept(k, n + 1, u + [j])[j] == n;
    }
  }

  lemma OlderKept(k: nat, n: nat, p: nat)
    requires 0 < k <= n && p < n
    ensures |TracesKeeping(k, n + 1, p)| == |TracesKeeping(k, n, p)| * n
  {
    hide Traces, Kept;
    var s, base := TracesKeeping(k, n + 1, p), TracesKeeping(k, n, p);
    forall t | t in s ensures |t| > 0 && t[..|t| - 1] in base {
      TraceStep(k, n, t);
      assert t == t[..|t| - 1] + [t[|t| - 1]];
      KeptStep(k, n, t[..|t| - 1], t[|t| - 1]);
    }
    forall u | u in base ensures |Fiber(s, u)| == n {
      var q :| 0 <= q < k && Kept(k, n, u)[q] == p;
      var js := Below(n + 1) - {q};
      forall j: nat | j <= n ensures u + [j] in s <==> j in js {
        OlderKeptByDraw(k, n, p, u, q, j);
      }
      FiberIs(s, u, js, k, n);
      ExtensionsCardinality(u, js);
    }
    CountByFibers(s, base, n);
  }

  lemma OlderKeptByDraw(k: nat, n: nat, p: nat, u: seq<nat>, q: nat, j: nat)
    requires 0 < k <= n && p < n && u in Traces(k, n) && j <= n
    requires q < k && Kept(k, n, u)[q] == p
    ensures u + [j] in TracesKeeping(k, n + 1, p) <==> j != q
  {
    hide Traces, Kept;
    KeptDistinct(k, n, u);
    KeptStep(k, n, u, j);
    TracesAreAllDraws(k, n + 1, u + [j]);
    if j != q {
      assert Kept(k, n + 1, u + [j])[q] == p;
    }
  }

  // ---------------------------------------------------------------- uniform over subsets

  ghost function TracesSelecting(k: nat, n: nat, chosen: set<nat>): set<seq<nat>> {
    set t | t in Traces(k, n) && KeptSet(k, n, t) == chosen
  }

  /** The draw is uniform, not only item by item: every k-element set of positions is the
      sample of exactly (n - k)! draw sequences. */
  lemma {:induction false} SubsetsAreEquallyLikely(k: nat, n: nat, chosen: set<nat>)
    requires 0 < k <= n && |chosen| == k && forall x <- chosen :: x < n
    ensures |TracesSelecting(k, n, chosen)| == Factorial(n - k)
    decreases n, 0
  {
    hide TracesSelecting, Traces;
    if n == k {
      OnlySelection(k, chosen);
    } else if n - 1 in chosen {
      NewestChosen(k, n - 1, chosen);
    } else {
      SubsetsAreEquallyLikely(k, n - 1, chosen);
      NewestNotChosen(k, n - 1, chosen);
    }
  }

  lemma OnlySelection(k: nat, chosen: set<nat>)
    requires |chosen| == k && forall x <- chosen :: x < k
    ensures |TracesSelecting(k, k, chosen)| == 1
  {
    SubsetOfSameSize(chosen, Below(k));
    KeptDistinct(k, k, []);
    SubsetOfSameSize(KeptSet(k, k, []), Below(k));
    assert TracesSelecting(k, k, chosen) == {[]};
  }

  /** Drawing `j` replaces the j-th kept position by the new one, or keeps the sample. */
  lemma KeptSetStep(k: nat, n: nat, u: seq<nat>, j: nat)
    requires 0 < k <= n && ValidDraws(k, n, u) && j <= n
    ensures ValidDraws(k, n + 1, u + [j])
    ensures j >= k ==> KeptSet(k, n + 1, u + [j]) == KeptSet(k, n, u)
    ensures j < k ==> KeptSet(k, n + 1, u + [j]) == KeptSet(k, n, u) - {Kept(k, n, u)[j]} + {n}
  {
    KeptStep(k, n, u, j);
    KeptDistinct(k, n, u);
    if j < k {
      ReplacedElements(Kept(k, n, u), j, n);
    }
  }

  lemma ReplacedElements(s: seq<nat>, j: nat, y: nat)
    requires Distinct(s) && j < |s|
    ensures Elements(s[j := y]) == Elements(s) - {s[j]} + {y}
  {
    var next := s[j := y];
    forall x | x in Elements(s) - {s[j]} + {y} ensures x in next {
      if x == y {
        assert next[j] == y;
      } else {
        var i :| 0 <= i < |s| && s[i] == x;
        assert next[i] == x;
      }
    }
  }

  lemma SelectingByDraw(k: nat, n: nat, chosen: set<nat>, u: seq<nat>, j: nat)
    requires 0 < k <= n && u in Traces(k, n) && j <= n
    ensures n !in chosen ==>
      (u + [j] in TracesSelecting(k, n + 1, chosen) <==> j >= k && KeptSet(k, n, u) == chosen)
    ensures n in chosen ==>
      (u + [j] in TracesSelecting(k, n + 1, chosen) <==>
       j < k && KeptSet(k, n, u) - {Kept(k, n, u)[j]} == chosen - {n})
  {
    hide Traces, Kept, ValidDraws;
    KeptSetStep(k, n, u, j);
    KeptDistinct(k, n, u);
    TracesAreAllDraws(k, n + 1, u + [j]);
    assert n !in KeptSet(k, n, u);
  }

  lemma NewestNotChosen(k: nat, n: nat, chosen: set<nat>)
    requires 0 < k <= n && n !in chosen
    requires |TracesSelecting(k, n, chosen)| == Factorial(n - k)
    ensures |TracesSelecting(k, n + 1, chosen)| == Factorial(n + 1 - k)
  {
    hide Traces, Kept, KeptSet, ValidDraws, Factorial;
    var s, base := TracesSelecting(k, n + 1, chosen), TracesSelecting(k, n, chosen);
    forall t | t in s ensures |t| > 0 && t[..|t| - 1] in base {
      TraceStep(k, n, t);
      assert t == t[..|t| - 1] + [t[|t| - 1]];
      SelectingByDraw(k, n, chosen, t[..|t| - 1], t[|t| - 1]);
    }
    forall u | u in base ensures |Fiber(s, u)| == n + 1 - k {
      WaysToKeep(k, n, chosen, u);
    }
    CountByFibers(s, base, n + 1 - k);
    FactorialStep(n + 1 - k);
  }

  lemma WaysToKeep(k: nat, n: nat, chosen: set<nat>, u: seq<nat>)
    requires 0 < k <= n && n !in chosen && u in TracesSelecting(k, n, chosen)
    ensures |Fiber(TracesSelecting(k, n + 1, chosen), u)| == n + 1 - k
  {
    hide Traces, Kept, KeptSet, ValidDraws;
    var s := TracesSelecting(k, n + 1, chosen);
    var js := Below(n + 1) - Below(k);
    forall j: nat | j <= n ensures u + [j] in s <==> j in js {
      SelectingByDraw(k, n, chosen, u, j);
    }
    FiberIs(s, u, js, k, n);
    ExtensionsCardinality(u, js);
    assert Below(n + 1) == js + Below(k);
  }

  /** Draw sequences whose sample is `fixed` and one more position out of `extra`. */
  ghost function TracesCompleting(k: nat, n: nat, fixed: set<nat>, extra: set<nat>): set<seq<nat>> {
    set t | t in Traces(k, n) && exists x :: x in extra && KeptSet(k, n, t) == fixed + {x}
  }

  lemma {:induction false} CountCompleting(k: nat, n: nat, fixed: set<nat>, extra: set<nat>)
    requires 0 < k <= n && |fixed| == k - 1 && fixed !! extra
    requires forall x <- fixed :: x < n
    requires forall x <- extra :: x < n
    ensures |TracesCompleting(k, n, fixed, extra)| == |extra| * Factorial(n - k)
    decreases n, 1, extra
  {
    hide Traces, KeptSet, Factorial;
    if extra == {} {
      assert TracesCompleting(k, n, fixed, extra) == {};
    } else {
      var x :| x in extra;
      var rest := extra - {x};
      CountCompleting(k, n, fixed, rest);
      SubsetsAreEquallyLikely(k, n, fixed + {x});
      OneMoreCompletion(k, n, fixed, rest, x);
      assert rest + {x} == extra;
      assert |extra| == |rest| + 1;
      OneMoreShare(|rest|, Factorial(n - k));
    }
  }

  lemma OneMoreCompletion(k: nat, n: nat, fixed: set<nat>, rest: set<nat>, x: nat)
    requires x !in fixed + rest
    ensures |TracesCompleting(k, n, fixed, rest + {x})|
         == |TracesCompleting(k, n, fixed, rest)| + |TracesSelecting(k, n, fixed + {x})|
  {
    hide Traces, KeptSet;
    var a, b := TracesSelecting(k, n, fixed + {x}), TracesCompleting(k, n, fixed, rest);
    assert TracesCompleting(k, n, fixed, rest + {x}) == a + b;
    assert a !! b;
  }

  lemma OneMoreShare(a: int, c: int)
    ensures a * c + c == (a + 1) * c
  {}

  lemma {:induction false} NewestChosen(k: nat, n: nat, chosen: set<nat>)
    requires 0 < k <= n && n in chosen && |chosen| == k && forall x <- chosen :: x <= n
    ensures |TracesSelecting(k, n + 1, chosen)| == Factorial(n + 1 - k)
    decreases n, 2
  {
    hide *;
    var fixed := chosen - {n};
    RemoveSubset({n}, chosen);
    RemoveSubset(fixed, Below(n));
    CountCompleting(k, n, fixed, Below(n) - fixed);
    DropCount(k, n, chosen, fixed);
    FactorialStep(n + 1 - k);
  }

  lemma DropCount(k: nat, n: nat, chosen: set<nat>, fixed: set<nat>)
    requires 0 < k <= n && n in chosen && fixed == chosen - {n}
    ensures |TracesSelecting(k, n + 1, chosen)| == |TracesCompleting(k, n, fixed, Below(n) - fixed)|
  {
    hide Traces, KeptSet, TracesCompleting;
    var s, base := TracesSelecting(k, n + 1, chosen), TracesCompleting(k, n, chosen - {n}, Below(n) - (chosen - {n}));
    forall t | t in s ensures |t| > 0 && t[..|t| - 1] in base {
      TraceStep(k, n, t);
      assert t == t[..|t| - 1] + [t[|t| - 1]];
      CompletedBeforeDrop(k, n, chosen, t[..|t| - 1], t[|t| - 1]);
    }
    forall u | u in base ensures |Fiber(s, u)| == 1 {
      var x := ExtraKept(k, n, fixed, Below(n) - fixed, u);
      OneWayToDrop(k, n, chosen, u, x);
    }
    CountByFibers(s, base, 1);
  }

  lemma CompletedBeforeDrop(k: nat, n: nat, chosen: set<nat>, u: seq<nat>, j: nat)
    requires 0 < k <= n && n in chosen && u in Traces(k, n) && j <= n
    requires u + [j] in TracesSelecting(k, n + 1, chosen)
    ensures u in TracesCompleting(k, n, chosen - {n}, Below(n) - (chosen - {n}))
  {
    SelectingByDraw(k, n, chosen, u, j);
    KeptDistinct(k, n, u);
    var x := Kept(k, n, u)[j];
    assert KeptSet(k, n, u) == chosen - {n} + {x};
    assert x in Below(n) - (chosen - {n});
  }

  lemma ExtraKept(k: nat, n: nat, fixed: set<nat>, extra: set<nat>, u: seq<nat>) returns (x: nat)
    requires u in TracesCompleting(k, n, fixed, extra)
    ensures u in Traces(k, n) && x in extra && KeptSet(k, n, u) == fixed + {x}
  {
    hide Traces, KeptSet;
    x :| x in extra && KeptSet(k, n, u) == fixed + {x};
  }

  lemma OneWayToDrop(k: nat, n: nat, chosen: set<nat>, u: seq<nat>, x: nat)
    requires 0 < k <= n && n in chosen && u in Traces(k, n)
    requires x !in chosen && x < n && KeptSet(k, n, u) == chosen - {n} + {x}
    ensures |Fiber(TracesSelecting(k, n + 1, chosen), u)| == 1
  {
    hide Traces, Kept;
    assert x in Kept(k, n, u);
    var q :| 0 <= q < k && Kept(k, n, u)[q] == x;
    var s := TracesSelecting(k, n + 1, chosen);
    forall j: nat | j <= n ensures u + [j] in s <==> j in {q} {
      OnlyOneDrop(k, n, chosen, u, x, q, j);
    }
    hide KeptSet;
    FiberIs(s, u, {q}, k, n);
    ExtensionsCardinality(u, {q});
  }

  lemma OnlyOneDrop(k: nat, n: nat, chosen: set<nat>, u: seq<nat>, x: nat, q: nat, j: nat)
    requires 0 < k <= n && n in chosen && u in Traces(k, n) && j <= n
    requires x !in chosen && x < n && KeptSet(k, n, u) == chosen - {n} + {x}
    requires q < k && Kept(k, n, u)[q] == x
    ensures u + [j] in TracesSelecting(k, n + 1, chosen) <==> j == q
  {
    hide Traces, Kept, KeptSet;
    SelectingByDraw(k, n, chosen, u, j);
    KeptDistinct(k, n, u);
  }
}
