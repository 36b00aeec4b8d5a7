/** The in-flight requests of one session: registered before their task exists, cancelled with the last handle. */
module InFlight {
  type RequestId = string

  type Token = nat

  /** A task at work, or one whose guard has upgraded its weak handle and is about to take its entry out. */
  datatype Phase = Working | Leaving

  datatype Task = Task(id: RequestId, phase: Phase)

  /**
    `entries`: the map. `tasks`: every registered task whose guard has not finished, by the token minted
    for it. `handles`: clones of the session held by the registry and by requests. `alive`: the map has
    not been dropped.
   */
  datatype State = State(
    max: nat,
    entries: map<RequestId, Token>,
    tasks: map<Token, Task>,
    cancelled: set<Token>,
    handles: nat,
    alive: bool,
    minted: nat)

  /** A new session: the registry's own handle, nothing in flight. */
  function NewSession(max: nat): State {
    State(max, map[], map[], {}, 1, true, 0)
  }

  datatype Step =
    | CloneHandle
    | DropHandle
    | Start(id: RequestId)
    | Cancel(id: RequestId)
    | WorkEnds(token: Token)
    | GuardRemoves(token: Token)

  /** Someone holds the map: a handle, or a guard between its upgrade and its removal. */
  predicate Held(s: State) {
    s.handles > 0 || exists token :: token in s.tasks && s.tasks[token].phase.Leaving?
  }

  /** With no holder left the map is dropped, and dropping it cancels what it still holds. */
  function Released(s: State): State {
    if s.alive && !Held(s) then
      s.(alive := false, cancelled := s.cancelled + s.entries.Values, entries := map[])
    else s
  }

  /** One atomic step each; one that cannot happen leaves the state alone. */
  function Take(s: State, step: Step): State {
    match step
    case CloneHandle => if s.handles > 0 then s.(handles := s.handles + 1) else s
    case DropHandle => if s.handles > 0 then Released(s.(handles := s.handles - 1)) else s
    case Start(id) =>
      if s.handles > 0 && |s.entries| < s.max then
        s.(entries := s.entries[id := s.minted], tasks := s.tasks[s.minted := Task(id, Working)],
           minted := s.minted + 1)
      else s
    case Cancel(id) =>
      if s.handles > 0 && id in s.entries then
        s.(entries := s.entries - {id}, cancelled := s.cancelled + {s.entries[id]})
      else s
    case WorkEnds(token) =>
      if token !in s.tasks || s.tasks[token].phase.Leaving? then s
      else if s.alive then s.(tasks := s.tasks[token := s.tasks[token].(phase := Leaving)])
      else s.(tasks := s.tasks - {token})
    case GuardRemoves(token) =>
      if token in s.tasks && s.tasks[token].phase.Leaving? then
        Released(s.(entries := s.entries - {s.tasks[token].id}, tasks := s.tasks - {token}))
      else s
  }

  function After(max: nat, steps: seq<Step>): State {
    if steps == [] then NewSession(max) else Take(After(max, steps[..|steps| - 1]), steps[|steps| - 1])
  }

  // ----- What the map says

  /** Every entry is a running request that nothing has cancelled. */
  ghost predicate EntriesRun(s: State) {
    forall id :: id in s.entries ==>
      s.entries[id] in s.tasks && s.tasks[s.entries[id]].id == id && s.entries[id] !in s.cancelled
  }

  /** Every running request that nothing has cancelled is an entry, and the map is there to hold it. */
  ghost predicate RunningEntered(s: State) {
    forall token :: token in s.tasks && token !in s.cancelled ==>
      s.alive && s.tasks[token].id in s.entries && s.entries[s.tasks[token].id] == token
  }

  /** The map holds exactly the requests running and not cancelled; gone, every running one is cancelled. */
  ghost predicate Exact(s: State) {
    EntriesRun(s) && RunningEntered(s)
  }

  /** No two tasks carry one id. */
  ghost predicate IdsDiffer(s: State) {
    forall a, b :: a in s.tasks && b in s.tasks && s.tasks[a].id == s.tasks[b].id ==> a == b
  }

  ghost predicate Tidy(s: State) {
    && (forall token :: token in s.tasks || token in s.cancelled ==> token < s.minted)
    && (s.alive <==> Held(s))
    && (!s.alive ==> s.entries == map[])
  }

  ghost predicate Sound(s: State) {
    Exact(s) && IdsDiffer(s) && Tidy(s)
  }

  /** No task with this id is still to take its entry out. */
  predicate Unused(s: State, id: RequestId) {
    forall token :: token in s.tasks ==> s.tasks[token].id != id
  }

  /** An admitted request carries an id no task still has. */
  predicate Admissible(s: State, step: Step) {
    step.Start? && s.handles > 0 && |s.entries| < s.max ==> Unused(s, step.id)
  }

  /** A run in which no id is reused while a task with it is outstanding. */
  predicate NoReuse(max: nat, steps: seq<Step>) {
    steps == []
    || (NoReuse(max, steps[..|steps| - 1]) && Admissible(After(max, steps[..|steps| - 1]), steps[|steps| - 1]))
  }

  // ----- Each step

  lemma ReleaseKeeps(s: State)
    requires Exact(s) && IdsDiffer(s)
    requires forall token :: token in s.tasks || token in s.cancelled ==> token < s.minted
    requires !s.alive ==> s.entries == map[] && !Held(s)
    ensures Sound(Released(s))
  {
    var after := Released(s);
    if s.alive && !Held(s) {
      forall token | token in s.tasks && token !in s.cancelled
        ensures token in after.cancelled
      {
        assert s.tasks[token].id in s.entries;
      }
      forall token | token in s.entries.Values
        ensures token < s.minted
      {
        var id :| id in s.entries && s.entries[id] == token;
      }
    }
  }

  lemma StartKeeps(s: State, id: RequestId)
    requires Sound(s) && Admissible(s, Start(id))
    ensures Sound(Take(s, Start(id)))
  {
    var after := Take(s, Start(id));
    if s.handles > 0 && |s.entries| < s.max {
      assert s.minted !in s.tasks && s.minted !in s.cancelled;
      forall other | other in s.entries
        ensures other != id
      {
        assert s.tasks[s.entries[other]].id == other;
      }
      assert Held(after);
    }
  }

  lemma CancelKeeps(s: State, id: RequestId)
    requires Sound(s)
    ensures Sound(Take(s, Cancel(id)))
  {
  }

  lemma WorkEndsKeeps(s: State, token: Token)
    requires Sound(s)
    ensures Sound(Take(s, WorkEnds(token)))
  {
    var after := Take(s, WorkEnds(token));
    if token in s.tasks && s.tasks[token].phase.Working? {
      if s.alive {
        assert after.tasks[token].phase.Leaving?;
        assert Held(after);
      } else {
        assert !Held(s);
      }
    }
  }

  lemma GuardRemovesKeeps(s: State, token: Token)
    requires Sound(s)
    ensures Sound(Take(s, GuardRemoves(token)))
  {
    if token in s.tasks && s.tasks[token].phase.Leaving? {
      var id := s.tasks[token].id;
      var before := s.(entries := s.entries - {id}, tasks := s.tasks - {token});
      assert Held(s);
      forall other | other in before.entries
        ensures before.entries[other] in before.tasks
      {
        assert s.tasks[s.entries[other]].id == other;
      }
      ReleaseKeeps(before);
    }
  }

  lemma StepKeeps(s: State, step: Step)
    requires Sound(s) && Admissible(s, step)
    ensures Sound(Take(s, step))
  {
    match step
    case CloneHandle =>
    case DropHandle => if s.handles > 0 { ReleaseKeeps(s.(handles := s.handles - 1)); }
    case Start(id) => StartKeeps(s, id);
    case Cancel(id) => CancelKeeps(s, id);
    case WorkEnds(token) => WorkEndsKeeps(s, token);
    case GuardRemoves(token) => GuardRemovesKeeps(s, token);
  }

  /**
    Over every interleaving, with ids not reused: the map holds exactly the running, uncancelled requests,
    and once the last handle is gone every running request has been cancelled.
   */
  lemma {:induction false} MapIsRunning(max: nat, steps: seq<Step>)
    requires NoReuse(max, steps)
    ensures Sound(After(max, steps))
    ensures var s := After(max, steps); !Held(s) ==> forall token :: token in s.tasks ==> token in s.cancelled
  {
    if steps != [] {
      MapIsRunning(max, steps[..|steps| - 1]);
      StepKeeps(After(max, steps[..|steps| - 1]), steps[|steps| - 1]);
    }
  }

  // ----- The bound

  /** Ids reused or not, the map never exceeds its bound. */
  lemma {:induction false} NeverOverBound(max: nat, steps: seq<Step>)
    ensures After(max, steps).max == max
    ensures |After(max, steps).entries| <= max
  {
    if steps != [] {
      NeverOverBound(max, steps[..|steps| - 1]);
      var s, step := After(max, steps[..|steps| - 1]), steps[|steps| - 1];
      match step
      case Start(id) =>
        assert s.entries[id := s.minted].Keys == s.entries.Keys + {id};
      case Cancel(id) => Smaller(s.entries, id);
      case GuardRemoves(token) => if token in s.tasks { Smaller(s.entries, s.tasks[token].id); }
      case _ =>
    }
  }

  lemma Smaller(m: map<RequestId, Token>, id: RequestId)
    ensures |m - {id}| <= |m|
  {
  }

  // ----- Cancelled for good

  lemma RunSnoc(max: nat, steps: seq<Step>, step: Step)
    ensures After(max, steps + [step]) == Take(After(max, steps), step)
  {
    assert (steps + [step])[..|steps|] == steps;
  }

  lemma StepCancelsOn(s: State, step: Step)
    ensures s.cancelled <= Take(s, step).cancelled
  {
  }

  /** A token once cancelled stays so. */
  lemma {:induction false} CancelledStays(max: nat, before: seq<Step>, later: seq<Step>)
    ensures After(max, before).cancelled <= After(max, before + later).cancelled
  {
    if later == [] {
      assert before + later == before;
    } else {
      var front, last := later[..|later| - 1], later[|later| - 1];
      assert before + later == before + front + [last];
      CancelledStays(max, before, front);
      RunSnoc(max, before + front, last);
      StepCancelsOn(After(max, before + front), last);
    }
  }

  /** A request named by a cancel, while it is in the map, is cancelled at every later point, and at once out of it. */
  lemma CancelIsFinal(max: nat, before: seq<Step>, id: RequestId, later: seq<Step>)
    requires After(max, before).handles > 0 && id in After(max, before).entries
    ensures After(max, before).entries[id] in After(max, before + [Cancel(id)] + later).cancelled
    ensures id !in After(max, before + [Cancel(id)]).entries
  {
    RunSnoc(max, before, Cancel(id));
    CancelledStays(max, before + [Cancel(id)], later);
  }

  /** Every token in use was minted before, so the next start's is new: no later request inherits a cancellation. */
  ghost predicate MintedOnly(s: State) {
    forall token :: token in s.tasks || token in s.cancelled || token in s.entries.Values ==> token < s.minted
  }

  lemma ReleaseMints(s: State)
    requires MintedOnly(s)
    ensures MintedOnly(Released(s))
  {
  }

  lemma FewerEntriesMint(s: State, id: RequestId, tasks: map<Token, Task>, cancelled: set<Token>)
    requires MintedOnly(s) && tasks.Keys <= s.tasks.Keys && (forall t :: t in cancelled ==> t < s.minted)
    ensures MintedOnly(s.(entries := s.entries - {id}, tasks := tasks, cancelled := cancelled))
  {
    assert (s.entries - {id}).Values <= s.entries.Values;
  }

  lemma StartMints(s: State, id: RequestId)
    requires MintedOnly(s)
    ensures MintedOnly(Take(s, Start(id)))
  {
    assert s.entries[id := s.minted].Values <= s.entries.Values + {s.minted};
  }

  lemma StepMints(s: State, step: Step)
    requires MintedOnly(s)
    ensures MintedOnly(Take(s, step))
  {
    match step
    case CloneHandle =>
    case DropHandle => if s.handles > 0 { ReleaseMints(s.(handles := s.handles - 1)); }
    case Start(id) => StartMints(s, id);
    case Cancel(id) =>
      if id in s.entries {
        assert s.entries[id] in s.entries.Values;
        FewerEntriesMint(s, id, s.tasks, s.cancelled + {s.entries[id]});
      }
    case WorkEnds(token) =>
    case GuardRemoves(token) =>
      if token in s.tasks {
        FewerEntriesMint(s, s.tasks[token].id, s.tasks - {token}, s.cancelled);
        ReleaseMints(s.(entries := s.entries - {s.tasks[token].id}, tasks := s.tasks - {token}));
      }
  }

  lemma {:induction false} TokensAreNew(max: nat, steps: seq<Step>)
    ensures MintedOnly(After(max, steps))
  {
    if steps != [] {
      TokensAreNew(max, steps[..|steps| - 1]);
      StepMints(After(max, steps[..|steps| - 1]), steps[|steps| - 1]);
    }
  }

  // ----- Ids reused

  /** The task's guard runs to its end. */
  function GuardRuns(s: State, token: Token): State {
    Take(Take(s, WorkEnds(token)), GuardRemoves(token))
  }

  /** Admitting an id that a task still carries breaks the map, at once or when that task's guard has run. */
  lemma ReuseBreaks(s: State, id: RequestId) returns (earlier: Token)
    requires Sound(s) && !Admissible(s, Start(id))
    ensures earlier in s.tasks && s.tasks[earlier].id == id
    ensures !Exact(Take(s, Start(id))) || !Exact(GuardRuns(Take(s, Start(id)), earlier))
  {
    earlier :| earlier in s.tasks && s.tasks[earlier].id == id;
    var after := Take(s, Start(id));
    assert after.entries[id] == s.minted && earlier != s.minted;
    if earlier !in s.cancelled {
      assert earlier in after.tasks && earlier !in after.cancelled;
    } else {
      Unregistered(after, id, earlier);
    }
  }

  /** The guard of the earlier task takes out the entry of the later one, which goes on running unlisted. */
  lemma Unregistered(s: State, id: RequestId, earlier: Token)
    requires s.alive && s.handles > 0
    requires earlier in s.tasks && s.tasks[earlier].id == id
    requires id in s.entries && s.entries[id] != earlier && s.entries[id] in s.tasks
    requires s.entries[id] !in s.cancelled && s.tasks[s.entries[id]].id == id
    ensures !Exact(GuardRuns(s, earlier))
  {
  }

  /** One start is safe for good if and only if its id is unused: then no run that reuses no id breaks the map. */
  lemma StartIsSafe(s: State, id: RequestId)
    requires Sound(s)
    ensures Admissible(s, Start(id)) <==>
      && Exact(Take(s, Start(id)))
      && forall earlier :: earlier in s.tasks && s.tasks[earlier].id == id ==>
           Exact(GuardRuns(Take(s, Start(id)), earlier))
  {
    if Admissible(s, Start(id)) {
      StartKeeps(s, id);
      var after := Take(s, Start(id));
      forall earlier | earlier in s.tasks && s.tasks[earlier].id == id
        ensures Exact(GuardRuns(after, earlier))
      {
        WorkEndsKeeps(after, earlier);
        GuardRemovesKeeps(Take(after, WorkEnds(earlier)), earlier);
      }
    } else {
      var _ := ReuseBreaks(s, id);
    }
  }

  /** An overwritten request outlives its session: with every handle gone, it runs on and nothing cancelled it. */
  lemma ReuseOutlivesSession()
    ensures var s := After(2, [Start("1"), Start("1"), DropHandle]);
      !Held(s) && 0 in s.tasks && 0 !in s.cancelled
  {
    var first := After(2, [Start("1")]);
    assert [Start("1"), Start("1")][..1] == [Start("1")];
    var second := After(2, [Start("1"), Start("1")]);
    assert [Start("1"), Start("1"), DropHandle][..2] == [Start("1"), Start("1")];
    assert first == NewSession(2).(entries := map["1" := 0], tasks := map[0 := Task("1", Working)], minted := 1);
    assert |first.entries| == 1;
    assert second.entries == map["1" := 1];
    assert second.tasks == map[0 := Task("1", Working), 1 := Task("1", Working)];
  }

  // ----- The session as it is written

  method CancelAll(tokens: set<Token>, cancelled: set<Token>) returns (after: set<Token>)
    ensures after == cancelled + tokens
  {
    after := cancelled;
    var left := tokens;
    while left != {}
      invariant after + left == cancelled + tokens && left <= tokens
      decreases |left|
    {
      var token :| token in left;
      after := after + {token};
      left := left - {token};
    }
  }

  class Session {
    const max: nat
    var entries: map<RequestId, Token>
    var tasks: map<Token, Task>
    var cancelled: set<Token>
    var handles: nat
    var alive: bool
    var minted: nat

    function View(): State
      reads this
    {
      State(max, entries, tasks, cancelled, handles, alive, minted)
    }

    constructor (max: nat)
      ensures View() == NewSession(max)
    {
      this.max := max;
      entries, tasks, cancelled, handles, alive, minted := map[], map[], {}, 1, true, 0;
    }

    /** Registers a request and mints its token, or refuses it at the bound; cap and insertion are one step. */
    method StartRequest(id: RequestId) returns (token: Token, started: bool)
      requires handles > 0
      modifies this
      ensures View() == Take(old(View()), Start(id))
      ensures started <==> |old(entries)| < max
      ensures started ==> token == old(minted) && entries == old(entries)[id := token]
                          && tasks == old(tasks)[token := Task(id, Working)] && cancelled == old(cancelled)
      ensures !started ==> View() == old(View())
    {
      token, started := minted, false;
      if |entries| >= max {
        return;
      }
      started := true;
      entries := entries[id := token];
      tasks := tasks[token := Task(id, Working)];
      minted := minted + 1;
    }

    /** True exactly when the id was known; then it is out of the map and its token is cancelled. */
    method CancelRequest(id: RequestId) returns (known: bool)
      requires handles > 0
      modifies this
      ensures View() == Take(old(View()), Cancel(id))
      ensures known <==> id in old(entries)
      ensures entries == old(entries) - {id}
      ensures cancelled == if known then old(cancelled) + {old(entries)[id]} else old(cancelled)
      ensures tasks == old(tasks) && handles == old(handles) && alive == old(alive) && minted == old(minted)
    {
      known := id in entries;
      if known {
        cancelled := cancelled + {entries[id]};
        entries := entries - {id};
      }
    }

    method CloneSession()
      requires handles > 0
      modifies this
      ensures View() == Take(old(View()), CloneHandle)
      ensures View() == old(View()).(handles := old(handles) + 1)
    {
      handles := handles + 1;
    }

    method DropSession()
      requires handles > 0
      modifies this
      ensures View() == Take(old(View()), DropHandle)
      ensures handles == old(handles) - 1 && tasks == old(tasks)
      ensures handles > 0 ==> entries == old(entries) && cancelled == old(cancelled) && alive == old(alive)
    {
      handles := handles - 1;
      DropMapIfReleased();
    }

    /** The drop of the map: every token left in it is cancelled. */
    method DropMapIfReleased()
      modifies this
      ensures View() == Released(old(View()))
      ensures handles == old(handles) && tasks == old(tasks)
      ensures old(alive) && handles == 0 && (forall token :: token in tasks ==> tasks[token].phase.Working?) ==>
                !alive && entries == map[] && cancelled == old(cancelled) + old(entries).Values
      ensures handles > 0 ==> View() == old(View())
    {
      if !alive || handles > 0 || exists token :: token in tasks && tasks[token].phase.Leaving? {
        return;
      }
      cancelled := CancelAll(entries.Values, cancelled);
      alive := false;
      entries := map[];
    }

    /** A task stops and its guard goes: the weak handle is upgraded if the map is still there. */
    method EndWork(token: Token)
      modifies this
      ensures View() == Take(old(View()), WorkEnds(token))
      ensures token in old(tasks) && old(tasks)[token].phase.Working? ==>
                tasks == if alive then old(tasks)[token := Task(old(tasks)[token].id, Leaving)]
                         else old(tasks) - {token}
      ensures entries == old(entries) && cancelled == old(cancelled)
    {
      if token in tasks && tasks[token].phase.Working? {
        if alive {
          tasks := tasks[token := tasks[token].(phase := Leaving)];
        } else {
          tasks := tasks - {token};
        }
      }
    }

    /** The upgraded guard takes its id out and lets its handle go, which may be the last. */
    method RemoveAndRelease(token: Token)
      modifies this
      ensures View() == Take(old(View()), GuardRemoves(token))
      ensures token in old(tasks) && old(tasks)[token].phase.Leaving? ==>
                tasks == old(tasks) - {token} && old(tasks)[token].id !in entries
    {
      if token in tasks && tasks[token].phase.Leaving? {
        entries := entries - {tasks[token].id};
        tasks := tasks - {token};
        DropMapIfReleased();
      }
    }
  }
}
