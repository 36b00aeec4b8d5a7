/** The registry and the in-flight maps of its sessions together: what ends with a session. */
module SessionLifetimes {
  import opened Wrappers
  import R = SessionRegistry
  import I = InFlight

  /** `flights`: the in-flight side of every session ever created. `claims`: the handles requests hold on each. */
  datatype State = State(registry: R.State, flights: map<R.Id, I.State>, claims: map<R.Id, nat>)

  const START := State(R.START, map[], map[])

  /** A registry's critical section; a request letting its claimed session go; a step inside one session. */
  datatype Step =
    | InRegistry(step: R.Step)
    | Release(id: R.Id)
    | Inside(id: R.Id, inner: I.Step)

  /** The claim hands the caller a clone of the session. */
  predicate Grants(s: R.State, limits: R.Limits, step: R.Step, id: R.Id) {
    step.Claim? && step.id == id && R.Enabled(s, limits, step) && R.AccessTo(s.sessions, id, step.caller) == R.Granted
  }

  /** What a registry's step does to one session's handles: leaving drops the registry's own, a claim adds one. */
  function Flight(f: I.State, s: R.State, after: R.State, limits: R.Limits, step: R.Step, id: R.Id): I.State {
    if id in s.sessions && id !in after.sessions then I.Take(f, I.DropHandle)
    else if Grants(s, limits, step, id) then I.Take(f, I.CloneHandle)
    else f
  }

  /** Requests are started and cancelled by a handler that holds a claim; tasks end and guards run by themselves. */
  predicate CanHappen(s: State, id: R.Id, step: I.Step) {
    && id in s.flights && id in s.claims && !step.CloneHandle? && !step.DropHandle?
    && (step.Start? || step.Cancel? ==> s.claims[id] > 0)
  }

  function Take(s: State, limits: R.Limits, max: nat, step: Step): State {
    match step
    case InRegistry(r) =>
      var after := R.Take(s.registry, limits, r);
      State(after,
            map id | id in after.ever ::
              if id in s.flights then Flight(s.flights[id], s.registry, after, limits, r, id) else I.NewSession(max),
            map id | id in after.ever ::
              (if id in s.claims then s.claims[id] else 0) + if Grants(s.registry, limits, r, id) then 1 else 0)
    case Release(id) =>
      if id in s.flights && id in s.claims && s.claims[id] > 0 then
        s.(flights := s.flights[id := I.Take(s.flights[id], I.DropHandle)], claims := s.claims[id := s.claims[id] - 1])
      else s
    case Inside(id, inner) =>
      if CanHappen(s, id, inner) then s.(flights := s.flights[id := I.Take(s.flights[id], inner)]) else s
  }

  function After(limits: R.Limits, max: nat, steps: seq<Step>): State {
    if steps == [] then START else Take(After(limits, max, steps[..|steps| - 1]), limits, max, steps[|steps| - 1])
  }

  // ----- Handles

  function Held(registry: R.State, id: R.Id): nat {
    if id in registry.sessions then 1 else 0
  }

  /** One session's handles are the registry's own, while it is listed, and those of its claims. */
  ghost predicate Counted(s: State, id: R.Id)
    requires id in s.flights && id in s.claims
  {
    s.flights[id].handles == Held(s.registry, id) + s.claims[id] && I.Sound(s.flights[id])
  }

  ghost predicate Sound(s: State) {
    && s.flights.Keys == s.claims.Keys == s.registry.ever.Keys
    && s.registry.sessions.Keys <= s.registry.ever.Keys
    && forall id :: id in s.flights && id in s.claims ==> Counted(s, id)
  }

  /** No request id is reused in a session while a task with it is outstanding. */
  predicate Admissible(s: State, step: Step) {
    step.Inside? && CanHappen(s, step.id, step.inner) ==> I.Admissible(s.flights[step.id], step.inner)
  }

  predicate NoReuse(limits: R.Limits, max: nat, steps: seq<Step>) {
    steps == []
    || (NoReuse(limits, max, steps[..|steps| - 1])
        && Admissible(After(limits, max, steps[..|steps| - 1]), steps[|steps| - 1]))
  }

  /** A session the registry lists after a step was listed before, or has just been created. */
  lemma ListedBefore(s: R.State, limits: R.Limits, step: R.Step, id: R.Id)
    requires s.sessions.Keys <= s.ever.Keys
    ensures var after := R.Take(s, limits, step);
            && after.sessions.Keys <= after.ever.Keys && s.ever.Keys <= after.ever.Keys
            && (id in s.ever && id in after.sessions ==> id in s.sessions)
            && (id !in s.ever && id in after.ever ==> id in after.sessions)
  {
  }

  lemma DropKeeps(f: I.State)
    requires I.Sound(f) && f.handles > 0
    ensures I.Sound(I.Take(f, I.DropHandle)) && I.Take(f, I.DropHandle).handles == f.handles - 1
  {
    I.StepKeeps(f, I.DropHandle);
  }

  lemma CloneKeeps(f: I.State)
    requires I.Sound(f) && f.handles > 0
    ensures I.Sound(I.Take(f, I.CloneHandle)) && I.Take(f, I.CloneHandle).handles == f.handles + 1
  {
    I.StepKeeps(f, I.CloneHandle);
  }

  lemma InsideKeeps(f: I.State, step: I.Step)
    requires I.Sound(f) && I.Admissible(f, step) && !step.CloneHandle? && !step.DropHandle?
    ensures I.Sound(I.Take(f, step)) && I.Take(f, step).handles == f.handles
  {
    I.StepKeeps(f, step);
  }

  lemma NewIsSound(max: nat)
    ensures I.Sound(I.NewSession(max)) && I.NewSession(max).handles == 1
  {
    assert I.Held(I.NewSession(max));
  }

  /** A granted claim leaves its session listed. */
  lemma GrantedStays(s: R.State, limits: R.Limits, step: R.Step, id: R.Id)
    requires Grants(s, limits, step, id)
    ensures id in R.Take(s, limits, step).sessions
  {
  }

  lemma RegistryKeepsOne(s: State, limits: R.Limits, max: nat, step: R.Step, id: R.Id)
    requires Sound(s) && id in R.Take(s.registry, limits, step).ever
    ensures Counted(Take(s, limits, max, InRegistry(step)), id)
  {
    var after := R.Take(s.registry, limits, step);
    ListedBefore(s.registry, limits, step, id);
    if id !in s.flights {
      NewIsSound(max);
    } else {
      var f := s.flights[id];
      assert Counted(s, id);
      if id in s.registry.sessions && id !in after.sessions {
        DropKeeps(f);
        if Grants(s.registry, limits, step, id) {
          GrantedStays(s.registry, limits, step, id);
          assert false;
        }
      } else if Grants(s.registry, limits, step, id) {
        CloneKeeps(f);
      }
    }
  }

  lemma RegistryKeeps(s: State, limits: R.Limits, max: nat, step: R.Step)
    requires Sound(s)
    ensures Sound(Take(s, limits, max, InRegistry(step)))
  {
    var after := Take(s, limits, max, InRegistry(step));
    ListedBefore(s.registry, limits, step, "");
    forall id | id in after.flights && id in after.claims
      ensures Counted(after, id)
    {
      RegistryKeepsOne(s, limits, max, step, id);
    }
    assert after.flights.Keys == after.claims.Keys == after.registry.ever.Keys;
  }

  /** One session's side changed, its handles still what they should be. */
  lemma OneChanged(s: State, after: State, id: R.Id)
    requires Sound(s) && id in s.flights && id in after.flights && id in after.claims
    requires after == s.(flights := s.flights[id := after.flights[id]], claims := s.claims[id := after.claims[id]])
    requires Counted(after, id)
    ensures Sound(after)
  {
    assert after.flights.Keys == s.flights.Keys && after.claims.Keys == s.claims.Keys;
    forall other | other in after.flights && other in after.claims
      ensures Counted(after, other)
    {
      assert other != id ==> Counted(s, other);
    }
  }

  lemma ReleaseKeeps(s: State, limits: R.Limits, max: nat, id: R.Id)
    requires Sound(s)
    ensures Sound(Take(s, limits, max, Release(id)))
  {
    if id in s.flights && id in s.claims && s.claims[id] > 0 {
      assert Counted(s, id);
      DropKeeps(s.flights[id]);
      OneChanged(s, Take(s, limits, max, Release(id)), id);
    }
  }

  lemma FlightChanged(s: State, id: R.Id, f: I.State)
    requires Sound(s) && id in s.flights && I.Sound(f) && f.handles == s.flights[id].handles
    ensures Sound(s.(flights := s.flights[id := f]))
  {
    var after := s.(flights := s.flights[id := f]);
    assert Counted(s, id);
    assert s.claims[id := s.claims[id]] == s.claims;
    OneChanged(s, after, id);
  }

  lemma InnerKeeps(s: State, limits: R.Limits, max: nat, id: R.Id, inner: I.Step)
    requires Sound(s) && CanHappen(s, id, inner) && I.Admissible(s.flights[id], inner)
    ensures Sound(Take(s, limits, max, Inside(id, inner)))
  {
    var f := I.Take(s.flights[id], inner);
    assert I.Sound(f) && f.handles == s.flights[id].handles by {
      assert Counted(s, id);
      InsideKeeps(s.flights[id], inner);
    }
    FlightChanged(s, id, f);
  }

  lemma {:induction false} RunsAreSound(limits: R.Limits, max: nat, steps: seq<Step>)
    requires NoReuse(limits, max, steps)
    ensures Sound(After(limits, max, steps))
  {
    if steps != [] {
      var front, last := steps[..|steps| - 1], steps[|steps| - 1];
      RunsAreSound(limits, max, front);
      match last
      case InRegistry(step) => RegistryKeeps(After(limits, max, front), limits, max, step);
      case Release(id) => ReleaseKeeps(After(limits, max, front), limits, max, id);
      case Inside(id, inner) =>
        if CanHappen(After(limits, max, front), id, inner) {
          InnerKeeps(After(limits, max, front), limits, max, id, inner);
        }
    }
  }

  // ----- What ends with a session

  /** A guard is between its upgrade and its removal. */
  predicate GuardAtWork(f: I.State) {
    exists token :: token in f.tasks && f.tasks[token].phase.Leaving?
  }

  /**
    Over every run, with no request id reused while outstanding: once a session is no longer listed, however
    it went, and no request holds a claim of it, every task it still runs has been cancelled, as soon as no
    guard is in the middle of its removal.
   */
  lemma GoneIsCancelled(limits: R.Limits, max: nat, steps: seq<Step>, id: R.Id)
    requires NoReuse(limits, max, steps)
    ensures var s := After(limits, max, steps);
            id in s.flights && id in s.claims && id !in s.registry.sessions && s.claims[id] == 0
            && !GuardAtWork(s.flights[id])
            ==> forall token :: token in s.flights[id].tasks ==> token in s.flights[id].cancelled
  {
    RunsAreSound(limits, max, steps);
    var s := After(limits, max, steps);
    if id in s.flights && id in s.claims && id !in s.registry.sessions && s.claims[id] == 0 {
      assert Counted(s, id);
    }
  }

  /** And not before: while it is listed or claimed, its map holds exactly the running uncancelled requests. */
  lemma ListedIsServed(limits: R.Limits, max: nat, steps: seq<Step>, id: R.Id)
    requires NoReuse(limits, max, steps)
    ensures var s := After(limits, max, steps);
            && (id in s.registry.ever <==> id in s.flights && id in s.claims)
            && (id in s.flights && id in s.claims ==>
                  I.Exact(s.flights[id])
                  && (id in s.registry.sessions || s.claims[id] > 0 ==> s.flights[id].alive))
  {
    RunsAreSound(limits, max, steps);
    var s := After(limits, max, steps);
    if id in s.flights && id in s.claims {
      assert Counted(s, id);
    }
  }

  /** The registry's part of such a run is a run of the registry. */
  function RegistrySteps(steps: seq<Step>): seq<R.Step> {
    if steps == [] then []
    else
      var last := steps[|steps| - 1];
      RegistrySteps(steps[..|steps| - 1]) + if last.InRegistry? then [last.step] else []
  }

  lemma {:induction false} RegistryRuns(limits: R.Limits, max: nat, steps: seq<Step>)
    ensures After(limits, max, steps).registry == R.After(limits, RegistrySteps(steps))
  {
    if steps != [] {
      var front, last := steps[..|steps| - 1], steps[|steps| - 1];
      RegistryRuns(limits, max, front);
      if last.InRegistry? {
        var all := RegistrySteps(front) + [last.step];
        assert all[..|all| - 1] == RegistrySteps(front);
      } else {
        assert RegistrySteps(front) + [] == RegistrySteps(front);
      }
    }
  }

  // ----- Each session's part

  /** What a step is to one session created before: leaving the list and letting a claim go each drop a handle. */
  function StepsOf(s: State, limits: R.Limits, step: Step, id: R.Id): seq<I.Step> {
    if id !in s.flights || id !in s.claims then []
    else
      match step
      case InRegistry(r) =>
        if id in s.registry.sessions && id !in R.Take(s.registry, limits, r).sessions then [I.DropHandle]
        else if Grants(s.registry, limits, r, id) then [I.CloneHandle]
        else []
      case Release(released) => if released == id && s.claims[id] > 0 then [I.DropHandle] else []
      case Inside(inside, inner) =>
        if inside != id || inner.CloneHandle? || inner.DropHandle? then []
        else if (inner.Start? || inner.Cancel?) && s.claims[id] == 0 then []
        else [inner]
  }

  function FlightSteps(limits: R.Limits, max: nat, steps: seq<Step>, id: R.Id): seq<I.Step> {
    if steps == [] then []
    else
      var front, last := steps[..|steps| - 1], steps[|steps| - 1];
      FlightSteps(limits, max, front, id) + StepsOf(After(limits, max, front), limits, last, id)
  }

  /** The claims of one session granted and not yet let go. */
  function ClaimsHeld(limits: R.Limits, max: nat, steps: seq<Step>, id: R.Id): int {
    if steps == [] then 0
    else
      var front, last := steps[..|steps| - 1], steps[|steps| - 1];
      var held := ClaimsHeld(limits, max, front, id);
      if last.InRegistry? && Grants(After(limits, max, front).registry, limits, last.step, id) then held + 1
      else if last == Release(id) && held > 0 then held - 1
      else held
  }

  lemma OneStepOf(s: State, limits: R.Limits, max: nat, step: Step, id: R.Id)
    requires s.flights.Keys == s.claims.Keys && id in s.flights && id in Take(s, limits, max, step).flights
    ensures var after, part := Take(s, limits, max, step).flights[id], StepsOf(s, limits, step, id);
            if part == [] then after == s.flights[id] else |part| == 1 && after == I.Take(s.flights[id], part[0])
  {
  }

  lemma StepKeepsDomains(s: State, limits: R.Limits, max: nat, step: Step)
    requires s.flights.Keys == s.claims.Keys == s.registry.ever.Keys
    ensures var after := Take(s, limits, max, step);
            && after.flights.Keys == after.claims.Keys == after.registry.ever.Keys
            && s.flights.Keys <= after.flights.Keys
            && forall id :: id in after.flights && id !in s.flights ==> after.flights[id] == I.NewSession(max)
  {
    if step.InRegistry? {
      EverGrows(s.registry, limits, step.step);
    }
  }

  lemma EverGrows(s: R.State, limits: R.Limits, step: R.Step)
    ensures s.ever.Keys <= R.Take(s, limits, step).ever.Keys
  {
  }

  lemma {:induction false} Domains(limits: R.Limits, max: nat, steps: seq<Step>)
    ensures var s := After(limits, max, steps); s.flights.Keys == s.claims.Keys == s.registry.ever.Keys
  {
    if steps != [] {
      Domains(limits, max, steps[..|steps| - 1]);
      StepKeepsDomains(After(limits, max, steps[..|steps| - 1]), limits, max, steps[|steps| - 1]);
    }
  }

  lemma {:induction false} NotYetCreated(limits: R.Limits, max: nat, steps: seq<Step>, id: R.Id)
    requires id !in After(limits, max, steps).flights
    ensures FlightSteps(limits, max, steps, id) == []
  {
    if steps != [] {
      var front, last := steps[..|steps| - 1], steps[|steps| - 1];
      Domains(limits, max, front);
      StepKeepsDomains(After(limits, max, front), limits, max, last);
      NotYetCreated(limits, max, front, id);
    }
  }

  /** Each session's in-flight side is a run of its own, so what holds of such runs holds of every session. */
  lemma {:induction false} FlightRuns(limits: R.Limits, max: nat, steps: seq<Step>, id: R.Id)
    requires id in After(limits, max, steps).flights
    ensures After(limits, max, steps).flights[id] == I.After(max, FlightSteps(limits, max, steps, id))
  {
    var front, last := steps[..|steps| - 1], steps[|steps| - 1];
    var s := After(limits, max, front);
    Domains(limits, max, front);
    StepKeepsDomains(s, limits, max, last);
    if id in s.flights {
      FlightRuns(limits, max, front, id);
      OneStepOf(s, limits, max, last, id);
      var part := StepsOf(s, limits, last, id);
      if part == [] {
        assert FlightSteps(limits, max, front, id) + part == FlightSteps(limits, max, front, id);
      } else {
        assert part == [part[0]];
        I.RunSnoc(max, FlightSteps(limits, max, front, id), part[0]);
      }
    } else {
      NotYetCreated(limits, max, front, id);
    }
  }

  lemma OneClaimOf(s: State, limits: R.Limits, max: nat, step: Step, id: R.Id)
    requires id in Take(s, limits, max, step).claims && (id in s.claims ==> id in s.flights)
    ensures var was := if id in s.claims then s.claims[id] else 0;
            Take(s, limits, max, step).claims[id]
            == if step.InRegistry? && Grants(s.registry, limits, step.step, id) then was + 1
               else if step == Release(id) && was > 0 then was - 1
               else was
  {
  }

  /** The handles requests hold on a session are the claims granted and not yet let go. */
  lemma {:induction false} ClaimsAreHeld(limits: R.Limits, max: nat, steps: seq<Step>, id: R.Id)
    ensures var s := After(limits, max, steps);
            ClaimsHeld(limits, max, steps, id) == if id in s.claims then s.claims[id] else 0
  {
    if steps != [] {
      var front, last := steps[..|steps| - 1], steps[|steps| - 1];
      var s := After(limits, max, front);
      ClaimsAreHeld(limits, max, front, id);
      Domains(limits, max, front);
      StepKeepsDomains(s, limits, max, last);
      R.RunsAreSound(limits, RegistrySteps(front));
      RegistryRuns(limits, max, front);
      if id in After(limits, max, steps).claims {
        OneClaimOf(s, limits, max, last, id);
      }
    }
  }

  /** A request that the registry lets into a session holds it from then on. */
  lemma GrantedIsHeld(limits: R.Limits, max: nat, steps: seq<Step>, id: R.Id, caller: Option<string>, t: nat)
    requires var s := After(limits, max, steps);
             s.registry.now <= t && R.AccessTo(s.registry.sessions, id, caller) == R.Granted
    ensures ClaimsHeld(limits, max, steps + [InRegistry(R.Claim(id, caller, t))], id)
            == ClaimsHeld(limits, max, steps, id) + 1
  {
    assert (steps + [InRegistry(R.Claim(id, caller, t))])[..|steps|] == steps;
  }

  /** Ids reused or not, a session's handles are the registry's own and those of its claims. */
  ghost predicate HandlesAre(s: State) {
    && s.flights.Keys == s.claims.Keys == s.registry.ever.Keys
    && s.registry.sessions.Keys <= s.registry.ever.Keys
    && forall id :: id in s.flights && id in s.claims ==> s.flights[id].handles == Held(s.registry, id) + s.claims[id]
  }

  lemma HandlesOfOne(s: State, limits: R.Limits, max: nat, step: Step, id: R.Id)
    requires HandlesAre(s)
    ensures var after := Take(s, limits, max, step);
            id in after.flights && id in after.claims ==>
              after.flights[id].handles == Held(after.registry, id) + after.claims[id]
  {
    var after := Take(s, limits, max, step);
    if step.InRegistry? {
      ListedBefore(s.registry, limits, step.step, id);
      if Grants(s.registry, limits, step.step, id) {
        GrantedStays(s.registry, limits, step.step, id);
      }
    }
  }

  lemma StepKeepsHandles(s: State, limits: R.Limits, max: nat, step: Step)
    requires HandlesAre(s)
    ensures HandlesAre(Take(s, limits, max, step))
  {
    StepKeepsDomains(s, limits, max, step);
    if step.InRegistry? {
      ListedBefore(s.registry, limits, step.step, "");
    }
    var after := Take(s, limits, max, step);
    forall id | id in after.flights && id in after.claims
      ensures after.flights[id].handles == Held(after.registry, id) + after.claims[id]
    {
      HandlesOfOne(s, limits, max, step, id);
    }
  }

  lemma {:induction false} HandlesInRun(limits: R.Limits, max: nat, steps: seq<Step>)
    ensures HandlesAre(After(limits, max, steps))
  {
    if steps != [] {
      HandlesInRun(limits, max, steps[..|steps| - 1]);
      StepKeepsHandles(After(limits, max, steps[..|steps| - 1]), limits, max, steps[|steps| - 1]);
    }
  }

  lemma {:induction false} FlightStepsGrow(limits: R.Limits, max: nat, steps: seq<Step>, later: seq<Step>, id: R.Id)
    ensures FlightSteps(limits, max, steps, id) <= FlightSteps(limits, max, steps + later, id)
    ensures id in After(limits, max, steps).flights ==> id in After(limits, max, steps + later).flights
  {
    if later == [] {
      assert steps + later == steps;
    } else {
      var front, last := later[..|later| - 1], later[|later| - 1];
      assert (steps + later)[..|steps + later| - 1] == steps + front && (steps + later)[|steps + front|] == last;
      FlightStepsGrow(limits, max, steps, front, id);
      Domains(limits, max, steps + front);
      StepKeepsDomains(After(limits, max, steps + front), limits, max, last);
    }
  }

  lemma FlightStepsSnoc(limits: R.Limits, max: nat, steps: seq<Step>, step: Step, id: R.Id)
    ensures FlightSteps(limits, max, steps + [step], id)
            == FlightSteps(limits, max, steps, id) + StepsOf(After(limits, max, steps), limits, step, id)
  {
    assert (steps + [step])[..|steps|] == steps;
  }

  lemma CancelIsPart(s: State, limits: R.Limits, id: R.Id, request: I.RequestId)
    requires id in s.flights && id in s.claims && s.claims[id] > 0
    ensures StepsOf(s, limits, Inside(id, I.Cancel(request)), id) == [I.Cancel(request)]
  {
  }

  lemma CutAfter(whole: seq<I.Step>, part: seq<I.Step>)
    requires part <= whole
    ensures whole == part + whole[|part|..]
  {
  }

  /** The session's run, cut at the cancel. */
  lemma CutAtCancel(limits: R.Limits, max: nat, steps: seq<Step>, id: R.Id, request: I.RequestId, later: seq<Step>)
    returns (rest: seq<I.Step>)
    requires var s := After(limits, max, steps); id in s.flights && id in s.claims && s.claims[id] > 0
    ensures var all := steps + [Inside(id, I.Cancel(request))] + later;
            && id in After(limits, max, all).flights
            && FlightSteps(limits, max, all, id) == FlightSteps(limits, max, steps, id) + [I.Cancel(request)] + rest
  {
    var cancel := Inside(id, I.Cancel(request));
    var upTo := FlightSteps(limits, max, steps + [cancel], id);
    CancelIsPart(After(limits, max, steps), limits, id, request);
    FlightStepsSnoc(limits, max, steps, cancel, id);
    FlightStepsGrow(limits, max, steps, [cancel], id);
    FlightStepsGrow(limits, max, steps + [cancel], later, id);
    CutAfter(FlightSteps(limits, max, steps + [cancel] + later, id), upTo);
    rest := FlightSteps(limits, max, steps + [cancel] + later, id)[|upTo|..];
  }

  /** So a cancel by a request that holds the session, at any point of any run, is final. */
  lemma CancelInSession(limits: R.Limits, max: nat, steps: seq<Step>, id: R.Id, request: I.RequestId, later: seq<Step>)
    requires var s := After(limits, max, steps);
             id in s.flights && id in s.claims && s.claims[id] > 0 && request in s.flights[id].entries
    ensures var s := After(limits, max, steps);
            var after := After(limits, max, steps + [Inside(id, I.Cancel(request))] + later);
            id in after.flights && s.flights[id].entries[request] in after.flights[id].cancelled
  {
    HandlesInRun(limits, max, steps);
    var rest := CutAtCancel(limits, max, steps, id, request, later);
    FlightRuns(limits, max, steps, id);
    FlightRuns(limits, max, steps + [Inside(id, I.Cancel(request))] + later, id);
    I.CancelIsFinal(max, FlightSteps(limits, max, steps, id), request, rest);
  }

  /** And no session's map outgrows its bound. */
  lemma SessionsAreBounded(limits: R.Limits, max: nat, steps: seq<Step>, id: R.Id)
    requires id in After(limits, max, steps).flights
    ensures |After(limits, max, steps).flights[id].entries| <= max
  {
    FlightRuns(limits, max, steps, id);
    I.NeverOverBound(max, FlightSteps(limits, max, steps, id));
  }
}
