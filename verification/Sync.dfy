/** Replacing the backend's campaigns (ai/scripts/sync_campaigns_to_backend.py:158-179): create
    every new one, then deactivate the old, undoing the creations when one fails.

    Any request may succeed, be refused before it has an effect, or take effect and lose its
    reply; the caller cannot tell the last two apart.  `Step` is the protocol as a state machine
    that consumes one outcome per request, and `Run` is any run of it, so what holds of every
    `Run` holds at every point of every sync. */
module Sync {
  import opened Wrappers
  import opened Collections

  type Body = string

  datatype Outcome = Done | Refused | ReplyLost

  /** What to create, and the ids the first request lists as active, in its order. */
  datatype Job = Job(payloads: seq<Body>, listing: seq<nat>)

  datatype Stage =
    | Listing
    | Creating(created: seq<nat>)
    | Undoing(todo: seq<nat>)
    | Retiring(created: seq<nat>, todo: seq<nat>)
    | Succeeded(created: seq<nat>)
    | Failed

  /** The backend's active campaigns, the id its next campaign gets, and where the script is. */
  datatype State = State(active: map<nat, Body>, next: nat, stage: Stage)

  function ToRetire(created: seq<nat>, todo: seq<nat>): Stage {
    if todo == [] then Succeeded(created) else Retiring(created, todo)
  }

  function ToCreate(job: Job, created: seq<nat>): Stage {
    if |created| == |job.payloads| then ToRetire(created, job.listing) else Creating(created)
  }

  function ToUndo(todo: seq<nat>): Stage {
    if todo == [] then Failed else Undoing(todo)
  }

  function Posted(s: State, body: Body, o: Outcome): State {
    if o.Refused? then s else State(s.active[s.next := body], s.next + 1, s.stage)
  }

  function Patched(s: State, id: nat, o: Outcome): State {
    if o.Refused? then s else s.(active := s.active - {id})
  }

  /** One request and what the script does with its outcome. */
  function Step(job: Job, s: State, o: Outcome): State {
    match s.stage
    case Listing => s.(stage := if o.Done? then ToCreate(job, []) else Failed)
    case Creating(created) =>
      if |created| >= |job.payloads| then s
      else
        var next := if o.Done? then ToCreate(job, created + [s.next]) else ToUndo(created);
        Posted(s, job.payloads[|created|], o).(stage := next)
    case Undoing(todo) =>
      if todo == [] then s else Patched(s, todo[0], o).(stage := if o.Done? then ToUndo(todo[1..]) else Failed)
    case Retiring(created, todo) =>
      if todo == [] then s
      else Patched(s, todo[0], o).(stage := if o.Done? then ToRetire(created, todo[1..]) else Failed)
    case Succeeded(_) => s
    case Failed => s
  }

  function Run(job: Job, s: State, outcomes: seq<Outcome>): State {
    if outcomes == [] then s else Step(job, Run(job, s, outcomes[..|outcomes| - 1]), outcomes[|outcomes| - 1])
  }

  lemma RunMore(job: Job, s: State, outcomes: seq<Outcome>, o: Outcome)
    ensures Run(job, s, outcomes + [o]) == Step(job, Run(job, s, outcomes), o)
  {
    assert (outcomes + [o])[..|outcomes|] == outcomes;
  }

  /** A backend about to be synced: ids are never reused, and the listing is what is active. */
  ghost predicate Initial(job: Job, s: State) {
    && s.stage == Listing
    && (forall id <- s.active :: id < s.next)
    && Distinct(job.listing) && Elements(job.listing) == s.active.Keys
  }

  // ---------------------------------------------------------------- the requests

  /** The backend behind the HTTP client. */
  class Backend {
    var active: map<nat, Body>
    var next: nat

    constructor (active: map<nat, Body>, next: nat)
      ensures this.active == active && this.next == next
    {
      this.active, this.next := active, next;
    }

    ghost function At(stage: Stage): State
      reads this
    {
      State(active, next, stage)
    }

    /** POST /campaigns.  The reply is the new id. */
    method Post(body: Body) returns (reply: Option<nat>, ghost o: Outcome)
      modifies this
      ensures forall stage :: At(stage) == Posted(old(At(stage)), body, o)
      ensures reply == if o.Done? then Some(old(next)) else None
    {
      reply := None;
      var outcome: Outcome := *;
      o := outcome;
      if outcome != Refused {
        if outcome == Done {
          reply := Some(next);
        }
        active, next := active[next := body], next + 1;
      }
    }

    /** PATCH /campaigns/internal/{id}/deactivate. */
    method Deactivate(id: nat) returns (ok: bool, ghost o: Outcome)
      modifies this`active
      ensures forall stage :: At(stage) == Patched(old(At(stage)), id, o)
      ensures ok == o.Done?
    {
      var outcome: Outcome := *;
      o, ok := outcome, outcome == Done;
      if outcome != Refused {
        active := active - {id};
      }
    }
  }

  datatype SyncResult = Raised | Synced(created: seq<nat>, deactivated: seq<nat>)

  /** `sync`: a run of the state machine to its end, for whatever outcomes the requests had. */
  method Synchronize(job: Job, backend: Backend) returns (r: SyncResult, ghost outcomes: seq<Outcome>)
    requires Initial(job, backend.At(Listing))
    modifies backend
    ensures var s := Run(job, old(backend.At(Listing)), outcomes);
            backend.At(s.stage) == s &&
            match r
            case Raised => s.stage == Failed
            case Synced(created, deactivated) => s.stage == Succeeded(created) && deactivated == job.listing
  {
    hide Run, Initial;
    ghost var start := backend.At(Listing);
    // The listing request changes nothing; it is answered or it fails.
    var listed: bool := *;
    outcomes := [if listed then Done else Refused];
    FirstRequest(job, start, outcomes[0]);
    if !listed {
      return Raised, outcomes;
    }
    var created: seq<nat> := [];
    var failed := false;
    while |created| < |job.payloads| && !failed
      invariant |created| <= |job.payloads|
      invariant Run(job, start, outcomes) == backend.At(if failed then ToUndo(created) else ToCreate(job, created))
      decreases |job.payloads| - |created|, !failed
    {
      var reply, o := backend.Post(job.payloads[|created|]);
      RunMore(job, start, outcomes, o);
      outcomes := outcomes + [o];
      if reply.Some? {
        created := created + [reply.value];
      } else {
        failed := true;
      }
    }
    if failed {
      var i := 0;
      assert created[0..] == created;
      while i < |created|
        invariant i <= |created|
        invariant Run(job, start, outcomes) == backend.At(ToUndo(created[i..]))
      {
        var ok, o := backend.Deactivate(created[i]);
        RunMore(job, start, outcomes, o);
        outcomes := outcomes + [o];
        assert created[i..][1..] == created[i + 1..];
        if !ok {
          return Raised, outcomes;
        }
        i := i + 1;
      }
      return Raised, outcomes;
    }
    var deactivated: seq<nat> := [];
    while |deactivated| < |job.listing|
      invariant deactivated <= job.listing
      invariant Run(job, start, outcomes) == backend.At(ToRetire(created, job.listing[|deactivated|..]))
    {
      var ok, o := backend.Deactivate(job.listing[|deactivated|]);
      RunMore(job, start, outcomes, o);
      outcomes := outcomes + [o];
      assert job.listing[|deactivated|..][1..] == job.listing[|deactivated| + 1..];
      if !ok {
        return Raised, outcomes;
      }
      deactivated := deactivated + [job.listing[|deactivated|]];
    }
    return Synced(created, deactivated), outcomes;
  }

  lemma FirstRequest(job: Job, s: State, o: Outcome)
    ensures Run(job, s, [o]) == Step(job, s, o)
  {
    assert [o][..0] == [];
    assert Run(job, s, []) == s;
  }

  // ---------------------------------------------------------------- every point of every run

  ghost predicate Within(a: map<nat, Body>, b: map<nat, Body>) {
    forall id <- a :: id in b && b[id] == a[id]
  }

  /** The first `k` new campaigns, with their payloads. */
  ghost function Made(job: Job, first: nat, k: nat): map<nat, Body>
    requires k <= |job.payloads|
  {
    if k == 0 then map[] else Made(job, first, k - 1)[first + k - 1 := job.payloads[k - 1]]
  }

  lemma {:induction false} MadeIs(job: Job, first: nat, k: nat)
    requires k <= |job.payloads|
    ensures forall id :: id in Made(job, first, k) <==> first <= id < first + k
    ensures forall id <- Made(job, first, k) :: Made(job, first, k)[id] == job.payloads[id - first]
  {
    if k > 0 {
      MadeIs(job, first, k - 1);
    }
  }

  ghost function Ids(first: nat, k: nat): (ids: seq<nat>)
    ensures |ids| == k && forall i :: 0 <= i < k ==> ids[i] == first + i
  {
    if k == 0 then [] else Ids(first, k - 1) + [first + k - 1]
  }

  ghost predicate AllOld(start: State, s: State) {
    Within(start.active, s.active)
  }

  ghost function AllMade(job: Job, start: State): map<nat, Body> {
    Made(job, start.next, |job.payloads|)
  }

  ghost predicate AllNew(job: Job, start: State, s: State) {
    Within(AllMade(job, start), s.active)
  }

  ghost predicate NothingElse(start: State, s: State) {
    start.next <= s.next && forall id <- s.active :: id in start.active || start.next <= id < s.next
  }

  ghost predicate New(start: State, s: State, ids: seq<nat>) {
    Distinct(ids) && forall i :: 0 <= i < |ids| ==> start.next <= ids[i] < s.next
  }

  ghost predicate CreatingOk(job: Job, start: State, s: State, created: seq<nat>) {
    && |created| <= |job.payloads| && created == Ids(start.next, |created|)
    && s.next == start.next + |created|
    && s.active == start.active + Made(job, start.next, |created|)
  }

  ghost predicate RetiringOk(job: Job, start: State, s: State, created: seq<nat>, todo: seq<nat>) {
    && created == Ids(start.next, |job.payloads|) && s.next == start.next + |job.payloads|
    && |todo| <= |job.listing| && todo == job.listing[|job.listing| - |todo|..]
    && AllNew(job, start, s)
    && s.active.Keys == AllMade(job, start).Keys + Elements(todo)
  }

  /** What is active at each stage. */
  ghost predicate StageOk(job: Job, start: State, s: State) {
    match s.stage
    case Listing => s == start
    case Creating(created) => CreatingOk(job, start, s, created) && |created| < |job.payloads|
    case Undoing(todo) => New(start, s, todo) && AllOld(start, s) && NothingElse(start, s)
    case Retiring(created, todo) => RetiringOk(job, start, s, created, todo) && todo != []
    case Succeeded(created) => RetiringOk(job, start, s, created, [])
    case Failed => (AllOld(start, s) || AllNew(job, start, s)) && NothingElse(start, s)
  }

  lemma CreateKeeps(job: Job, start: State, s: State, created: seq<nat>, o: Outcome)
    requires Initial(job, start) && CreatingOk(job, start, s, created) && |created| < |job.payloads|
    ensures var t := Posted(s, job.payloads[|created|], o);
            NothingElse(start, t) && AllOld(start, t) && New(start, t, created) &&
            (o.Done? ==> CreatingOk(job, start, t, created + [s.next]))
  {
    MadeIs(job, start.next, |created|);
    hide Made;
    assert Ids(start.next, |created| + 1) == created + [s.next];
    if o.Done? {
      assert Made(job, start.next, |created| + 1) ==
             Made(job, start.next, |created|)[s.next := job.payloads[|created|]] by {
        MadeStep(job, start.next, |created|);
      }
    }
  }

  lemma MadeStep(job: Job, first: nat, k: nat)
    requires k < |job.payloads|
    ensures Made(job, first, k + 1) == Made(job, first, k)[first + k := job.payloads[k]]
  {}

  /** Once the last campaign is created, all of the new ones are active beside the old. */
  lemma CreatedAll(job: Job, start: State, s: State, created: seq<nat>)
    requires Initial(job, start) && CreatingOk(job, start, s, created) && |created| == |job.payloads|
    ensures RetiringOk(job, start, s, created, job.listing)
  {
    MadeIs(job, start.next, |created|);
    assert job.listing[0..] == job.listing;
  }

  lemma UndoKeeps(job: Job, start: State, s: State, todo: seq<nat>, o: Outcome)
    requires Initial(job, start) && New(start, s, todo) && AllOld(start, s) && NothingElse(start, s) && todo != []
    ensures var t := Patched(s, todo[0], o);
            New(start, t, todo[1..]) && AllOld(start, t) && NothingElse(start, t)
  {}

  lemma RetireKeeps(job: Job, start: State, s: State, created: seq<nat>, todo: seq<nat>, o: Outcome)
    requires Initial(job, start) && RetiringOk(job, start, s, created, todo) && todo != []
    ensures var t := Patched(s, todo[0], o);
            NothingElse(start, t) && AllNew(job, start, t) &&
            (o.Done? ==> RetiringOk(job, start, t, created, todo[1..]))
  {
    MadeIs(job, start.next, |job.payloads|);
    RestOfListing(job, start, todo);
    assert todo[0] !in AllMade(job, start);
    hide *;
    assert NothingElse(start, s) by { NothingNewIsOlder(job, start, s, created, todo); }
    if o != Refused {
      OneRetired(job, start, s, created, todo);
    }
  }

  lemma OneRetired(job: Job, start: State, s: State, created: seq<nat>, todo: seq<nat>)
    requires RetiringOk(job, start, s, created, todo) && NothingElse(start, s) && todo != []
    requires todo[1..] == job.listing[|job.listing| - |todo[1..]|..]
    requires Elements(todo[1..]) == Elements(todo) - {todo[0]} && todo[0] in Elements(todo)
    requires todo[0] !in AllMade(job, start)
    ensures var t := s.(active := s.active - {todo[0]});
            NothingElse(start, t) && AllNew(job, start, t) && RetiringOk(job, start, t, created, todo[1..])
  {
    hide Elements, Ids, AllMade, Within;
    OneDown(s.active, AllMade(job, start), Elements(todo), todo[0]);
  }

  lemma RestOfListing(job: Job, start: State, todo: seq<nat>)
    requires Initial(job, start) && todo != []
    requires |todo| <= |job.listing| && todo == job.listing[|job.listing| - |todo|..]
    ensures todo[1..] == job.listing[|job.listing| - |todo[1..]|..]
    ensures Elements(todo[1..]) == Elements(todo) - {todo[0]} && todo[0] in Elements(todo)
    ensures forall id <- Elements(todo) :: id in start.active && id < start.next
  {
    ListedIsOld(job, start, todo);
    WithoutFirst(todo);
  }

  lemma OneDown(active: map<nat, Body>, made: map<nat, Body>, todo: set<nat>, id: nat)
    requires Within(made, active) && active.Keys == made.Keys + todo && id in todo && id !in made
    ensures Within(made, active - {id}) && (active - {id}).Keys == made.Keys + (todo - {id})
  {}

  lemma NothingNewIsOlder(job: Job, start: State, s: State, created: seq<nat>, todo: seq<nat>)
    requires RetiringOk(job, start, s, created, todo)
    requires forall id <- Elements(todo) :: id in start.active
    ensures NothingElse(start, s)
  {
    MadeIs(job, start.next, |job.payloads|);
  }

  lemma ListedIsOld(job: Job, start: State, todo: seq<nat>)
    requires Initial(job, start)
    requires |todo| <= |job.listing| && todo == job.listing[|job.listing| - |todo|..]
    ensures Distinct(todo) && forall id <- Elements(todo) :: id in start.active && id < start.next
  {
    forall id | id in todo ensures id in Elements(job.listing) {}
  }

  lemma WithoutFirst(s: seq<nat>)
    requires s != [] && Distinct(s)
    ensures Elements(s[1..]) == Elements(s) - {s[0]}
  {
    assert s == [s[0]] + s[1..];
  }

  /** The predicates above look at the backend only, not at the stage. */
  lemma StageIsIgnored(job: Job, start: State, s: State, stage: Stage)
    ensures var t := s.(stage := stage);
            (AllOld(start, t) <==> AllOld(start, s)) && (AllNew(job, start, t) <==> AllNew(job, start, s)) &&
            (NothingElse(start, t) <==> NothingElse(start, s)) &&
            (forall ids :: New(start, t, ids) <==> New(start, s, ids)) &&
            (forall created :: CreatingOk(job, start, t, created) <==> CreatingOk(job, start, s, created)) &&
            (forall created, todo ::
               RetiringOk(job, start, t, created, todo) <==> RetiringOk(job, start, s, created, todo))
  {}

  lemma StepKeeps(job: Job, start: State, s: State, o: Outcome)
    requires Initial(job, start) && StageOk(job, start, s)
    ensures StageOk(job, start, Step(job, s, o))
  {
    hide Initial, CreatingOk, RetiringOk, New, NothingElse, AllOld, AllNew;
    match s.stage
    case Listing =>
      StartKeeps(job, start);
      if |job.payloads| == 0 {
        CreatedAll(job, start, start, []);
      }
      StageIsIgnored(job, start, start, Step(job, s, o).stage);
    case Creating(created) =>
      var t := Posted(s, job.payloads[|created|], o);
      CreateKeeps(job, start, s, created, o);
      if o.Done? && |created| + 1 == |job.payloads| {
        CreatedAll(job, start, t, created + [s.next]);
      }
      StageIsIgnored(job, start, t, Step(job, s, o).stage);
    case Undoing(todo) =>
      if todo != [] {
        UndoKeeps(job, start, s, todo, o);
        StageIsIgnored(job, start, Patched(s, todo[0], o), Step(job, s, o).stage);
      }
    case Retiring(created, todo) =>
      RetireKeeps(job, start, s, created, todo, o);
      StageIsIgnored(job, start, Patched(s, todo[0], o), Step(job, s, o).stage);
    case Succeeded(_) =>
    case Failed =>
  }

  lemma StartKeeps(job: Job, start: State)
    requires Initial(job, start)
    ensures CreatingOk(job, start, start, []) && NothingElse(start, start) && AllOld(start, start)
  {
    assert start.active + Made(job, start.next, 0) == start.active;
  }

  lemma {:induction false} RunKeeps(job: Job, start: State, outcomes: seq<Outcome>)
    requires Initial(job, start)
    ensures StageOk(job, start, Run(job, start, outcomes))
  {
    if outcomes != [] {
      RunKeeps(job, start, outcomes[..|outcomes| - 1]);
      StepKeeps(job, start, Run(job, start, outcomes[..|outcomes| - 1]), outcomes[|outcomes| - 1]);
    }
  }

  lemma StageTells(job: Job, start: State, s: State)
    requires Initial(job, start) && StageOk(job, start, s)
    ensures AllOld(start, s) || AllNew(job, start, s)
    ensures NothingElse(start, s)
    ensures s.stage.Succeeded? ==> s.active == AllMade(job, start) && s.stage.created == Ids(start.next, |job.payloads|)
  {
    MadeIs(job, start.next, |job.payloads|);
    match s.stage
    case Creating(created) =>
      MadeIs(job, start.next, |created|);
    case Retiring(created, todo) =>
      ListedIsOld(job, start, todo);
    case _ =>
  }

  /** At every point of every run, either every campaign that was active still is, or every new
      one is; and nothing is active that is neither old nor new. */
  lemma EveryPointIsSafe(job: Job, start: State, outcomes: seq<Outcome>)
    requires Initial(job, start)
    ensures var s := Run(job, start, outcomes);
            (AllOld(start, s) || AllNew(job, start, s)) && NothingElse(start, s)
  {
    RunKeeps(job, start, outcomes);
    StageTells(job, start, Run(job, start, outcomes));
  }

  ghost predicate Holds(s: State, id: nat, body: Body) {
    id in s.active && s.active[id] == body
  }

  lemma AllMadeHolds(job: Job, start: State, s: State)
    requires s.stage.Succeeded? && s.active == AllMade(job, start) && s.stage.created == Ids(start.next, |job.payloads|)
    ensures |s.stage.created| == |job.payloads|
    ensures forall id <- s.active ::
              start.next <= id < start.next + |job.payloads| && s.stage.created[id - start.next] == id
    ensures forall i :: 0 <= i < |job.payloads| ==> Holds(s, s.stage.created[i], job.payloads[i])
  {
    MadeIs(job, start.next, |job.payloads|);
    hide Made;
  }

  /** A sync that reports success leaves exactly the new campaigns active, each with its payload. */
  lemma SuccessIsExact(job: Job, start: State, outcomes: seq<Outcome>, s: State)
    requires Initial(job, start) && s == Run(job, start, outcomes) && s.stage.Succeeded?
    ensures |s.stage.created| == |job.payloads|
    ensures forall id <- s.active ::
              start.next <= id < start.next + |job.payloads| && s.stage.created[id - start.next] == id
    ensures forall i :: 0 <= i < |job.payloads| ==> Holds(s, s.stage.created[i], job.payloads[i])
  {
    RunKeeps(job, start, outcomes);
    StageTells(job, start, s);
    hide *;
    AllMadeHolds(job, start, s);
  }

  // ---------------------------------------------------------------- particular runs

  lemma {:induction false} RunAppend(job: Job, s: State, a: seq<Outcome>, b: seq<Outcome>)
    ensures Run(job, s, a + b) == Run(job, Run(job, s, a), b)
  {
    if b == [] {
      assert a + b == a;
    } else {
      var rest, last := b[..|b| - 1], b[|b| - 1];
      RunAppend(job, s, a, rest);
      assert a + b == (a + rest) + [last];
      RunMore(job, s, a + rest, last);
    }
  }

  /** While requests succeed, campaigns are created in order. */
  lemma {:induction false} CreatingRun(job: Job, start: State, k: nat)
    requires Initial(job, start) && k <= |job.payloads|
    ensures var s := Run(job, start, Repeat(Done, k + 1));
            s.stage == ToCreate(job, Ids(start.next, k)) && CreatingOk(job, start, s, Ids(start.next, k))
  {
    assert start.stage == Listing;
    hide Run, CreatingOk, Posted, Initial;
    var outcomes := Repeat(Done, k);
    assert Repeat(Done, k + 1) == outcomes + [Done];
    RunMore(job, start, outcomes, Done);
    if k == 0 {
      StartKeeps(job, start);
      EmptyRun(job, start);
      assert Ids(start.next, 0) == [] && outcomes == [];
      StageIsIgnored(job, start, start, ToCreate(job, []));
    } else {
      CreatingRun(job, start, k - 1);
      OneMoreCreated(job, start, Run(job, start, outcomes), k);
    }
  }

  lemma OneMoreCreated(job: Job, start: State, s: State, k: nat)
    requires Initial(job, start) && 0 < k <= |job.payloads|
    requires s.stage == ToCreate(job, Ids(start.next, k - 1)) && CreatingOk(job, start, s, Ids(start.next, k - 1))
    ensures var t := Step(job, s, Done);
            t.stage == ToCreate(job, Ids(start.next, k)) && CreatingOk(job, start, t, Ids(start.next, k))
  {
    CreateKeeps(job, start, s, Ids(start.next, k - 1), Done);
    assert Ids(start.next, k) == Ids(start.next, k - 1) + [s.next];
    hide Initial, Ids, Made;
  }

  function CreatedBy(stage: Stage): seq<nat> {
    match stage
    case Creating(created) => created
    case Retiring(created, _) => created
    case Succeeded(created) => created
    case _ => []
  }

  /** While requests succeed, the script retires campaigns in order. */
  lemma {:induction false} Retirement(job: Job, s: State, todo: seq<nat>)
    requires s.stage == ToRetire(CreatedBy(s.stage), todo)
    ensures Run(job, s, Repeat(Done, |todo|)).stage == Succeeded(CreatedBy(s.stage))
    decreases |todo|
  {
    if todo != [] {
      var t := Step(job, s, Done);
      assert Repeat(Done, |todo|) == [Done] + Repeat(Done, |todo| - 1);
      FirstRequest(job, s, Done);
      hide Run, Elements, Repeat;
      RunAppend(job, s, [Done], Repeat(Done, |todo| - 1));
      Retirement(job, t, todo[1..]);
    }
  }

  /** With no request failing, the sync succeeds. */
  lemma CompletesWhenNothingFails(job: Job, start: State)
    requires Initial(job, start)
    ensures Run(job, start, Repeat(Done, 1 + |job.payloads| + |job.listing|)).stage ==
            Succeeded(Ids(start.next, |job.payloads|))
  {
    hide Run;
    var n := |job.payloads|;
    CreatingRun(job, start, n);
    assert Repeat(Done, 1 + n + |job.listing|) == Repeat(Done, n + 1) + Repeat(Done, |job.listing|);
    RunAppend(job, start, Repeat(Done, n + 1), Repeat(Done, |job.listing|));
    Retirement(job, Run(job, start, Repeat(Done, n + 1)), job.listing);
  }

  /** The backend is never left without an active campaign, exactly if there is one to create. */
  lemma NeverEmptyIffPayloads(job: Job, start: State)
    requires Initial(job, start) && start.active != map[]
    ensures (forall outcomes :: Run(job, start, outcomes).active != map[]) <==> job.payloads != []
  {
    if job.payloads != [] {
      forall outcomes ensures Run(job, start, outcomes).active != map[] {
        EveryPointIsSafe(job, start, outcomes);
        OldOrNewIsSome(job, start, Run(job, start, outcomes));
      }
    } else {
      CompletesWhenNothingFails(job, start);
      var outcomes := Repeat(Done, 1 + |job.listing|);
      SuccessIsExact(job, start, outcomes, Run(job, start, outcomes));
      assert Run(job, start, outcomes).active == map[];
    }
  }

  lemma OldOrNewIsSome(job: Job, start: State, s: State)
    requires start.active != map[] && job.payloads != []
    requires AllOld(start, s) || AllNew(job, start, s)
    ensures s.active != map[]
  {
    MadeIs(job, start.next, |job.payloads|);
    if AllOld(start, s) {
      var id :| id in start.active;
      assert id in s.active;
    } else {
      assert start.next in s.active;
    }
  }

  // ---------------------------------------------------------------- a failed creation

  /** The script is undoing, or gave up, with every old campaign active. */
  ghost predicate Backing(start: State, s: State) {
    && (s.stage.Undoing? || s.stage.Failed?)
    && AllOld(start, s) && NothingElse(start, s)
    && (s.stage.Undoing? ==> New(start, s, s.stage.todo))
  }

  lemma {:induction false} BackingKeeps(job: Job, start: State, s: State, outcomes: seq<Outcome>)
    requires Initial(job, start) && Backing(start, s)
    ensures Backing(start, Run(job, s, outcomes))
  {
    if outcomes != [] {
      var t, o := Run(job, s, outcomes[..|outcomes| - 1]), outcomes[|outcomes| - 1];
      BackingKeeps(job, start, s, outcomes[..|outcomes| - 1]);
      if t.stage.Undoing? && t.stage.todo != [] {
        UndoKeeps(job, start, t, t.stage.todo, o);
      }
    }
  }

  /** If the listing or any creation fails, the old campaigns stay active to the end of the run. */
  lemma FailedCreateKeepsOld(job: Job, start: State, outcomes: seq<Outcome>, at: nat)
    requires Initial(job, start) && at < |outcomes| && at <= |job.payloads|
    requires outcomes[at] != Done && forall i :: 0 <= i < at ==> outcomes[i] == Done
    ensures AllOld(start, Run(job, start, outcomes)) && !Run(job, start, outcomes).stage.Succeeded?
  {
    hide *;
    var before, bad := outcomes[..at], outcomes[at];
    var s := Run(job, start, before);
    assert before == Repeat(Done, at);
    assert outcomes == (before + [bad]) + outcomes[at + 1..];
    RunMore(job, start, before, bad);
    RunAppend(job, start, before + [bad], outcomes[at + 1..]);
    if at == 0 {
      EmptyRun(job, start);
      NotListed(job, start, bad);
    } else {
      CreatingRun(job, start, at - 1);
      NotCreated(job, start, s, Ids(start.next, at - 1), bad);
    }
    BackingKeeps(job, start, Step(job, s, bad), outcomes[at + 1..]);
    BackingTells(start, Run(job, start, outcomes));
  }

  lemma NotListed(job: Job, start: State, bad: Outcome)
    requires Initial(job, start) && bad != Done
    ensures Backing(start, Step(job, start, bad))
  {
    StartKeeps(job, start);
  }

  lemma NotCreated(job: Job, start: State, s: State, created: seq<nat>, bad: Outcome)
    requires Initial(job, start) && bad != Done && |created| < |job.payloads|
    requires s.stage == ToCreate(job, created) && CreatingOk(job, start, s, created)
    ensures Backing(start, Step(job, s, bad))
  {
    hide Initial, CreatingOk;
    CreateKeeps(job, start, s, created, bad);
  }

  lemma BackingTells(start: State, s: State)
    requires Backing(start, s)
    ensures AllOld(start, s) && !s.stage.Succeeded?
  {}

  lemma EmptyRun(job: Job, s: State)
    ensures Run(job, s, []) == s
  {}

  // ---------------------------------------------------------------- undoing

  /** The campaigns an undo gets rid of. */
  function TakenDown(todo: seq<nat>, rest: seq<Outcome>): set<nat> {
    if todo == [] || rest == [] || rest[0].Refused? then {}
    else {todo[0]} + if rest[0].Done? then TakenDown(todo[1..], rest[1..]) else {}
  }

  lemma {:induction false} UndoTakesDown(job: Job, s: State, todo: seq<nat>, rest: seq<Outcome>)
    requires s.stage == ToUndo(todo)
    ensures Run(job, s, rest).active == s.active - TakenDown(todo, rest)
    ensures |rest| >= |todo| ==> Run(job, s, rest).stage == Failed
    decreases |rest|
  {
    if rest == [] {
      assert s.active - {} == s.active;
    } else {
      var t, o := Step(job, s, rest[0]), rest[0];
      assert rest == [o] + rest[1..];
      FirstRequest(job, s, o);
      hide Run;
      RunAppend(job, s, [o], rest[1..]);
      var left := if todo == [] || !o.Done? then [] else todo[1..];
      UndoTakesDown(job, t, left, rest[1..]);
      assert t.active - TakenDown(left, rest[1..]) == s.active - TakenDown(todo, rest);
    }
  }

  /** `k` requests in a row took effect: a lost reply stops the undo, so only the last may lose its own. */
  ghost predicate EachTookEffect(k: nat, rest: seq<Outcome>) {
    k > 0 ==> k <= |rest| && !rest[k - 1].Refused? && forall i :: 0 <= i < k - 1 ==> rest[i].Done?
  }

  lemma {:induction false} AllTakenDown(todo: seq<nat>, rest: seq<Outcome>)
    requires Distinct(todo)
    ensures TakenDown(todo, rest) <= Elements(todo)
    ensures TakenDown(todo, rest) == Elements(todo) <==> EachTookEffect(|todo|, rest)
  {
    if todo != [] {
      assert todo[0] in Elements(todo);
      if rest != [] {
        WithoutFirst(todo);
        AllTakenDown(todo[1..], rest[1..]);
        if |todo| > 1 {
          assert todo[1] in Elements(todo);
        }
      }
    }
  }

  /** After the k-th creation fails, the backend is as it was exactly if that request had no effect
      and each of the k deactivations that follow took effect: a creation whose reply was lost stays
      behind, active, whatever comes next. */
  lemma UndoRestoresExactlyWhen(job: Job, start: State, k: nat, bad: Outcome, rest: seq<Outcome>)
    requires Initial(job, start) && k < |job.payloads| && bad != Done
    ensures var s := Run(job, start, Repeat(Done, k + 1) + [bad] + rest);
            && AllOld(start, s)
            && (|rest| >= k ==> s.stage == Failed)
            && (s.active == start.active <==> bad == Refused && EachTookEffect(k, rest))
  {
    hide *;
    var first, ids := Repeat(Done, k + 1), Ids(start.next, k);
    CreatingRun(job, start, k);
    RunMore(job, start, first, bad);
    RunAppend(job, start, first + [bad], rest);
    FailedCreateKeepsOld(job, start, first + [bad] + rest, k + 1);
    var t := Run(job, start, first + [bad]);
    FailedAt(job, start, Run(job, start, first), k, bad);
    MadeUnder(job, start.next, k);
    UndoTakesDown(job, t, ids, rest);
    AllTakenDown(ids, rest);
    WhatIsLeft(start.active, Made(job, start.next, k), TakenDown(ids, rest), start.next + k, job.payloads[k]);
  }

  /** What is active when the k-th creation has failed, and what is to be undone. */
  lemma FailedAt(job: Job, start: State, s: State, k: nat, bad: Outcome)
    requires Initial(job, start) && k < |job.payloads| && bad != Done
    requires s.stage == ToCreate(job, Ids(start.next, k)) && CreatingOk(job, start, s, Ids(start.next, k))
    ensures var t, made := Step(job, s, bad), Made(job, start.next, k);
            && t.stage == ToUndo(Ids(start.next, k))
            && start.active.Keys !! made.Keys && start.next + k !in made && start.next + k !in start.active
            && t.active == if bad.Refused? then start.active + made
                           else (start.active + made)[start.next + k := job.payloads[k]]
  {
    MadeIs(job, start.next, k);
    hide Made, Ids;
  }

  lemma MadeUnder(job: Job, first: nat, k: nat)
    requires k <= |job.payloads|
    ensures Made(job, first, k).Keys == Elements(Ids(first, k)) && Distinct(Ids(first, k))
  {
    MadeIs(job, first, k);
    hide Made;
    forall id | id in Made(job, first, k) ensures id in Ids(first, k) {
      assert Ids(first, k)[id - first] == id;
    }
  }

  lemma WhatIsLeft(before: map<nat, Body>, made: map<nat, Body>, gone: set<nat>, id: nat, body: Body)
    requires gone <= made.Keys && before.Keys !! made.Keys && id !in made && id !in before
    ensures (before + made) - gone == before <==> gone == made.Keys
    ensures (before + made)[id := body] - gone != before
  {
    assert id in (before + made)[id := body] - gone;
    forall i | i in made && i !in gone ensures i in (before + made) - gone && i !in before {}
  }
}
