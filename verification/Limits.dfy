/** Admission control for expensive routes (ai/service/limits.py:25-72).

    `dispatch` suspends between four points: screening the header and the body, taking a slot
    under the lock, running the route, and giving the slot back under the lock.  Neither locked
    block suspends, so each is one step here, and a schedule is any interleaving of the steps of
    any number of requests. */
module Limits {
  import opened Wrappers

  type Bytes = seq<bv8>

  /** The Content-Length header: missing or empty, not an integer, or an integer. */
  datatype Declared = NoLength | NotANumber | Length(n: int)

  datatype Verdict = BadLength | TooLarge | Accepted(body: Bytes)

  datatype Phase =
    | Arrived
    | AtDoor(body: Bytes)
    | Inside(body: Bytes)
    | Leaving
    | Bypassing
    | Refused(status: int)
    | Served

  /** `limited` is whether method and path make the request count. */
  datatype Request = Request(limited: bool, declared: Declared, chunks: seq<Bytes>, phase: Phase)

  function Join(chunks: seq<Bytes>): Bytes {
    if chunks == [] then [] else Join(chunks[..|chunks| - 1]) + chunks[|chunks| - 1]
  }

  lemma JoinMore(chunks: seq<Bytes>, n: nat)
    requires n < |chunks|
    ensures Join(chunks[..n + 1]) == Join(chunks[..n]) + chunks[n]
  {
    assert chunks[..n + 1][..n] == chunks[..n];
  }

  lemma {:induction false} JoinGrows(chunks: seq<Bytes>, n: nat)
    requires n <= |chunks|
    ensures |Join(chunks[..n])| <= |Join(chunks)|
  {
    if n < |chunks| {
      JoinMore(chunks, |chunks| - 1);
      assert chunks[..|chunks|] == chunks;
      if n < |chunks| - 1 {
        JoinGrows(chunks[..|chunks| - 1], n);
        assert chunks[..|chunks| - 1][..n] == chunks[..n];
      }
    } else {
      assert chunks[..n] == chunks;
    }
  }

  /** What is let through depends on the bytes received; the header can only refuse earlier. */
  function Screened(cap: nat, declared: Declared, chunks: seq<Bytes>): Verdict {
    if declared.NotANumber? || (declared.Length? && declared.n < 0) then BadLength
    else if declared.Length? && declared.n > cap then TooLarge
    else if |Join(chunks)| > cap then TooLarge
    else Accepted(Join(chunks))
  }

  class WorkLimit {
    const maxBody: nat
    const maxConcurrent: nat
    var active: int

    constructor (maxBodyBytes: int, maxConcurrent: int)
      ensures this.maxBody == (if maxBodyBytes > 1 then maxBodyBytes else 1)
      ensures this.maxConcurrent == (if maxConcurrent > 1 then maxConcurrent else 1)
      ensures active == 0
    {
      this.maxBody := if maxBodyBytes > 1 then maxBodyBytes else 1;
      this.maxConcurrent := if maxConcurrent > 1 then maxConcurrent else 1;
      active := 0;
    }

    /** Buffers chunks until the body ends or would pass the cap; never holds more than the cap. */
    method ReadBody(chunks: seq<Bytes>) returns (body: Option<Bytes>, buffered: Bytes)
      ensures body == if |Join(chunks)| <= maxBody then Some(Join(chunks)) else None
      ensures |buffered| <= maxBody
      ensures exists n :: 0 <= n <= |chunks| && buffered == Join(chunks[..n]) &&
                          (n == |chunks| || |Join(chunks[..n + 1])| > maxBody)
    {
      buffered := [];
      var length := 0;
      for n := 0 to |chunks|
        invariant buffered == Join(chunks[..n]) && length == |buffered| <= maxBody
      {
        JoinMore(chunks, n);
        length := length + |chunks[n]|;
        if length > maxBody {
          JoinGrows(chunks, n + 1);
          return None, buffered;
        }
        buffered := buffered + chunks[n];
      }
      assert chunks[..|chunks|] == chunks;
      return Some(buffered), buffered;
    }

    method Screen(declared: Declared, chunks: seq<Bytes>) returns (v: Verdict)
      ensures v == Screened(maxBody, declared, chunks)
    {
      if declared != NoLength {
        if declared == NotANumber || declared.n < 0 {
          return BadLength;
        }
        if declared.n > maxBody {
          return TooLarge;
        }
      }
      var body, _ := ReadBody(chunks);
      match body
      case None => return TooLarge;
      case Some(bytes) => return Accepted(bytes);
    }

    /** The first locked block. */
    method Admit() returns (ok: bool)
      modifies this`active
      ensures ok == (old(active) < maxConcurrent)
      ensures active == old(active) + if ok then 1 else 0
    {
      if active >= maxConcurrent {
        return false;
      }
      active := active + 1;
      return true;
    }

    /** The second locked block, in `finally`: reached however the route ended. */
    method Release()
      modifies this`active
      ensures active == old(active) - 1
    {
      active := active - 1;
    }

    /** The next step of one request. */
    method Turn(r: Request) returns (next: Request)
      modifies this`active
      ensures (active, next) == Turned(maxBody, maxConcurrent, old(active), r)
    {
      next := r;
      match r.phase
      case Arrived =>
        if r.limited {
          var v := Screen(r.declared, r.chunks);
          next := r.(phase := AfterScreen(v));
        } else {
          next := r.(phase := Bypassing);
        }
      case AtDoor(body) =>
        var ok := Admit();
        next := r.(phase := if ok then Inside(body) else Refused(503));
      case Inside(_) =>
        next := r.(phase := Leaving);
      case Leaving =>
        Release();
        next := r.(phase := Served);
      case Bypassing =>
        next := r.(phase := Served);
      case Refused(_) =>
      case Served =>
    }
  }

  function AfterScreen(v: Verdict): Phase {
    match v
    case BadLength => Refused(400)
    case TooLarge => Refused(413)
    case Accepted(body) => AtDoor(body)
  }

  /** The shared counter and one request after that request's next step. */
  function Turned(cap: nat, slots: nat, active: int, r: Request): (int, Request) {
    match r.phase
    case Arrived =>
      (active, r.(phase := if r.limited then AfterScreen(Screened(cap, r.declared, r.chunks)) else Bypassing))
    case AtDoor(body) =>
      if active < slots then (active + 1, r.(phase := Inside(body))) else (active, r.(phase := Refused(503)))
    case Inside(_) => (active, r.(phase := Leaving))
    case Leaving => (active - 1, r.(phase := Served))
    case Bypassing => (active, r.(phase := Served))
    case Refused(_) => (active, r)
    case Served => (active, r)
  }

  // ---------------------------------------------------------------- every interleaving

  datatype System = System(active: int, requests: seq<Request>)

  datatype Event = Arrive(limited: bool, declared: Declared, chunks: seq<Bytes>) | Advance(i: nat)

  function Next(cap: nat, slots: nat, s: System, e: Event): System {
    match e
    case Arrive(limited, declared, chunks) => s.(requests := s.requests + [Request(limited, declared, chunks, Arrived)])
    case Advance(i) =>
      if i >= |s.requests| then s
      else
        var (active, r) := Turned(cap, slots, s.active, s.requests[i]);
        System(active, s.requests[i := r])
  }

  /** Any schedule, from an idle server. */
  function Run(cap: nat, slots: nat, schedule: seq<Event>): System {
    if schedule == [] then System(0, [])
    else Next(cap, slots, Run(cap, slots, schedule[..|schedule| - 1]), schedule[|schedule| - 1])
  }

  /** A request has a slot while its route runs and until the slot is given back. */
  predicate HasSlot(r: Request) {
    r.phase.Inside? || r.phase.Leaving?
  }

  function Slots(requests: seq<Request>): nat {
    if requests == [] then 0
    else Slots(requests[..|requests| - 1]) + if HasSlot(requests[|requests| - 1]) then 1 else 0
  }

  lemma SlotsOfAppend(requests: seq<Request>, r: Request)
    ensures Slots(requests + [r]) == Slots(requests) + if HasSlot(r) then 1 else 0
  {
    assert (requests + [r])[..|requests|] == requests;
  }

  lemma {:induction false} SlotsOfUpdate(requests: seq<Request>, i: nat, r: Request)
    requires i < |requests|
    ensures Slots(requests[i := r])
         == Slots(requests) - (if HasSlot(requests[i]) then 1 else 0) + (if HasSlot(r) then 1 else 0)
  {
    hide HasSlot;
    var rest, last := requests[..|requests| - 1], requests[|requests| - 1];
    if i == |requests| - 1 {
      assert requests[i := r] == rest + [r];
    } else {
      assert requests[i := r] == rest[i := r] + [last];
      SlotsOfUpdate(rest, i, r);
    }
  }

  /** What is known of one request in any reachable state. */
  ghost predicate RequestOk(cap: nat, r: Request) {
    && (HasSlot(r) || r.phase.AtDoor? ==> r.limited && Screened(cap, r.declared, r.chunks) == Accepted(Join(r.chunks)))
    && (r.phase.AtDoor? || r.phase.Inside? ==> r.phase.body == Join(r.chunks))
    && (r.phase.Bypassing? ==> !r.limited)
    && (r.phase.Served? && r.limited ==> Screened(cap, r.declared, r.chunks).Accepted?)
    && (r.phase.Refused? ==> r.limited && r.phase.status == RefusalOf(Screened(cap, r.declared, r.chunks)))
  }

  /** The only status a request with this verdict can be refused with. */
  function RefusalOf(v: Verdict): int {
    match v
    case BadLength => 400
    case TooLarge => 413
    case Accepted(_) => 503
  }

  ghost predicate Ok(cap: nat, slots: nat, s: System) {
    && s.active == Slots(s.requests) <= slots
    && forall i :: 0 <= i < |s.requests| ==> RequestOk(cap, s.requests[i])
  }

  lemma TurnKeepsRequest(cap: nat, slots: nat, active: int, r: Request)
    requires RequestOk(cap, r)
    ensures RequestOk(cap, Turned(cap, slots, active, r).1)
  {
    hide Join;
  }

  /** A slot is taken or given back exactly as the counter says, and never beyond the limit. */
  lemma TurnMovesCounter(cap: nat, slots: nat, active: int, r: Request)
    requires active <= slots
    ensures var (after, next) := Turned(cap, slots, active, r);
            after <= slots && after - active == (if HasSlot(next) then 1 else 0) - (if HasSlot(r) then 1 else 0)
  {
    hide Join, Screened;
  }

  lemma StepKeepsOk(cap: nat, slots: nat, s: System, e: Event)
    requires Ok(cap, slots, s)
    ensures Ok(cap, slots, Next(cap, slots, s, e))
  {
    match e
    case Arrive(limited, declared, chunks) =>
      hide Slots, Screened, Turned;
      SlotsOfAppend(s.requests, Request(limited, declared, chunks, Arrived));
    case Advance(i) =>
      if i < |s.requests| {
        hide Slots, Turned, RequestOk, HasSlot;
        TurnKeepsRequest(cap, slots, s.active, s.requests[i]);
        TurnMovesCounter(cap, slots, s.active, s.requests[i]);
        SlotsOfUpdate(s.requests, i, Turned(cap, slots, s.active, s.requests[i]).1);
      }
  }

  /** Whatever the interleaving: the counter is the number of slots taken and never above the
      limit, and whoever is inside brought a complete body that fits, whatever its header said. */
  lemma {:induction false} EveryRunIsWithinLimits(cap: nat, slots: nat, schedule: seq<Event>)
    ensures Ok(cap, slots, Run(cap, slots, schedule))
    ensures var s := Run(cap, slots, schedule);
            forall i :: 0 <= i < |s.requests| && s.requests[i].phase.Inside? ==>
                          s.requests[i].phase.body == Join(s.requests[i].chunks) && |s.requests[i].phase.body| <= cap
  {
    if schedule != [] {
      EveryRunIsWithinLimits(cap, slots, schedule[..|schedule| - 1]);
      StepKeepsOk(cap, slots, Run(cap, slots, schedule[..|schedule| - 1]), schedule[|schedule| - 1]);
    }
  }

  ghost function InsideNow(requests: seq<Request>): set<nat> {
    set i: nat | i < |requests| && requests[i].phase.Inside?
  }

  ghost function LeavingNow(requests: seq<Request>): set<nat> {
    set i: nat | i < |requests| && requests[i].phase.Leaving?
  }

  lemma OneMoreRequest(rest: seq<Request>, r: Request)
    ensures InsideNow(rest + [r]) == if r.phase.Inside? then InsideNow(rest) + {|rest|} else InsideNow(rest)
    ensures LeavingNow(rest + [r]) == if r.phase.Leaving? then LeavingNow(rest) + {|rest|} else LeavingNow(rest)
    ensures |rest| !in InsideNow(rest) && |rest| !in LeavingNow(rest)
  {}

  lemma {:induction false} SlotsAreHolders(requests: seq<Request>)
    ensures Slots(requests) == |InsideNow(requests)| + |LeavingNow(requests)|
  {
    if requests == [] {
      assert InsideNow(requests) == {} && LeavingNow(requests) == {};
    } else {
      hide InsideNow, LeavingNow;
      var rest, last := requests[..|requests| - 1], requests[|requests| - 1];
      SlotsAreHolders(rest);
      OneMoreRequest(rest, last);
      assert rest + [last] == requests;
    }
  }

  /** The counter is exactly the requests running plus those about to give their slot back, so at most
      `slots` routes run at once, and it is their number exactly if nobody is about to. */
  lemma CounterIsExact(cap: nat, slots: nat, schedule: seq<Event>)
    ensures var s := Run(cap, slots, schedule);
            && s.active == |InsideNow(s.requests)| + |LeavingNow(s.requests)|
            && |InsideNow(s.requests)| <= slots
            && (s.active == |InsideNow(s.requests)| <==> LeavingNow(s.requests) == {})
  {
    EveryRunIsWithinLimits(cap, slots, schedule);
    SlotsAreHolders(Run(cap, slots, schedule).requests);
    hide InsideNow, LeavingNow;
  }

  /** One request that arrives, is screened, takes a slot and leaves its route. */
  function OneVisit(): seq<Event> {
    [Arrive(true, NoLength, []), Advance(0), Advance(0), Advance(0)]
  }

  lemma RunMore(cap: nat, slots: nat, schedule: seq<Event>, e: Event)
    ensures Run(cap, slots, schedule + [e]) == Next(cap, slots, Run(cap, slots, schedule), e)
  {
    assert (schedule + [e])[..|schedule|] == schedule;
  }

  /** And somebody may be about to: the counter then exceeds what runs. */
  lemma CounterMayExceedRunning(cap: nat, slots: nat)
    requires slots > 0
    ensures var s := Run(cap, slots, OneVisit());
            s.active == 1 && InsideNow(s.requests) == {} && LeavingNow(s.requests) == {0}
  {
    var arrive, go := Arrive(true, NoLength, []), Advance(0);
    assert OneVisit() == [arrive] + [go] + [go] + [go];
    RunMore(cap, slots, [], arrive);
    RunMore(cap, slots, [arrive], go);
    RunMore(cap, slots, [arrive] + [go], go);
    RunMore(cap, slots, [arrive] + [go] + [go], go);
    assert Join([]) == [];
    assert Run(cap, slots, []) == System(0, []);
    hide Run, OneVisit, Join;
    assert [] + [arrive] == [arrive];
    var r := Request(true, NoLength, [], Arrived);
    assert [] + [r] == [r];
  }

  /** No slot is leaked: once every request is answered, the counter is back at zero. */
  lemma QuietServerIsFree(cap: nat, slots: nat, schedule: seq<Event>)
    requires var s := Run(cap, slots, schedule);
             forall i :: 0 <= i < |s.requests| ==> s.requests[i].phase.Refused? || s.requests[i].phase.Served?
    ensures Run(cap, slots, schedule).active == 0
  {
    var s := Run(cap, slots, schedule);
    CounterIsExact(cap, slots, schedule);
    hide Run;
    assert InsideNow(s.requests) == {} && LeavingNow(s.requests) == {};
  }

  /** An answered request was served or refused as its own header and body deserve: 400 exactly for a bad
      header, 413 exactly for a good one if the length it announces or the body received passes the cap, and
      where both fit it is served or finds the server busy.  Other routes are always served. */
  lemma AnswersAreRight(cap: nat, slots: nat, schedule: seq<Event>, i: nat)
    requires i < |Run(cap, slots, schedule).requests|
    ensures var r := Run(cap, slots, schedule).requests[i];
            (r.phase.Served? || r.phase.Refused? ==>
               (r.phase.Served? <==> r.phase != Refused(RefusalOf(Screened(cap, r.declared, r.chunks))))) &&
            (r.phase.Served? && r.limited ==>
               |Join(r.chunks)| <= cap && (r.declared == NoLength || (r.declared.Length? && 0 <= r.declared.n <= cap)))
    ensures var r := Run(cap, slots, schedule).requests[i];
            var bad := r.declared == NotANumber || (r.declared.Length? && r.declared.n < 0);
            var large := (r.declared.Length? && r.declared.n > cap) || |Join(r.chunks)| > cap;
            r.phase.Served? || r.phase.Refused? ==>
              if !r.limited then r.phase == Served
              else
                && (r.phase == Refused(400) <==> bad)
                && (r.phase == Refused(413) <==> !bad && large)
                && (r.phase == Refused(503) || r.phase == Served <==> !bad && !large)
  {
    EveryRunIsWithinLimits(cap, slots, schedule);
    hide Run, Join;
  }

  /** A request at the door is refused exactly when all slots are taken. */
  lemma BusyOnlyWhenFull(cap: nat, slots: nat, schedule: seq<Event>, i: nat)
    requires var s := Run(cap, slots, schedule); i < |s.requests| && s.requests[i].phase.AtDoor?
    ensures var s, t := Run(cap, slots, schedule), Run(cap, slots, schedule + [Advance(i)]);
            (t.requests[i].phase == Refused(503) <==> |InsideNow(s.requests)| + |LeavingNow(s.requests)| == slots) &&
            (t.requests[i].phase.Inside? <==> |InsideNow(s.requests)| + |LeavingNow(s.requests)| < slots)
  {
    CounterIsExact(cap, slots, schedule);
    EveryRunIsWithinLimits(cap, slots, schedule);
    assert (schedule + [Advance(i)])[..|schedule|] == schedule;
    hide InsideNow, LeavingNow;
  }
}
