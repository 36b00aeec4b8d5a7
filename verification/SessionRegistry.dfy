/** The MCP session registry: capped, evicting the longest idle, swept when idle, listeners counted by drop guards. */
module SessionRegistry {
  import opened Wrappers
  import opened Sets

  type Id = string

  datatype Limits = Limits(maxSessions: nat, idleTimeout: nat)

  /** `sender` is the push channel of a legacy session and whether it is still open. */
  datatype Session = Session(sender: Option<bool>, listeners: nat, lastActivity: nat, key: Option<string>) {
    predicate IsConnected() {
      listeners > 0 || sender == Some(true)
    }

    /** A session made without identity is bound to nobody. */
    predicate OwnedBy(caller: Option<string>) {
      key.None? || caller == key
    }
  }

  type Sessions = map<Id, Session>

  datatype Access = Granted | Unknown | WrongKey

  function AccessTo(sessions: Sessions, id: Id, caller: Option<string>): Access {
    if id !in sessions then Unknown else if sessions[id].OwnedBy(caller) then Granted else WrongKey
  }

  /**
    `guards`: the listening streams whose guard has not yet run, by session. `ever`: every session ever
    created, with the time it was last active. `now`: the latest time a lock was taken at.
   */
  datatype State = State(sessions: Sessions, guards: multiset<Id>, ever: map<Id, nat>, now: nat)

  const START := State(map[], multiset{}, map[], 0)

  /**
    One critical section each, taken at time `t`. `Create` stamps the new session with `stamp`, which a
    legacy session takes before the lock; `victim` is the session evicted if the registry is full.
   */
  datatype Step =
    | Create(id: Id, key: Option<string>, legacy: bool, stamp: nat, victim: Id, t: nat)
    | Claim(id: Id, caller: Option<string>, t: nat)
    | OpenListener(id: Id, t: nat)
    | CloseListener(id: Id, t: nat)
    | Remove(id: Id, caller: Option<string>, t: nat)
    | Forget(id: Id, t: nat)
    | ChannelCloses(id: Id, t: nat)
    | Sweep(t: nat)
    | Shutdown(t: nat)

  predicate Full(s: State, limits: Limits) {
    |s.sessions| >= limits.maxSessions && s.sessions.Keys != {}
  }

  predicate Idlest(sessions: Sessions, victim: Id) {
    victim in sessions && forall id :: id in sessions ==> sessions[victim].lastActivity <= sessions[id].lastActivity
  }

  /** What can happen: time never runs back, ids are fresh, a full registry evicts its idlest, a guard runs once. */
  predicate Enabled(s: State, limits: Limits, step: Step) {
    s.now <= step.t
    && match step
       case Create(id, _, legacy, stamp, victim, t) =>
         id !in s.ever && stamp <= t && (Full(s, limits) ==> Idlest(s.sessions, victim))
       case CloseListener(id, _) => s.guards[id] > 0
       case _ => true
  }

  function Active(s: State, id: Id, session: Session, t: nat): State {
    s.(sessions := s.sessions[id := session.(lastActivity := t)], ever := s.ever[id := t], now := t)
  }

  predicate Stays(session: Session, limits: Limits, t: nat) {
    session.IsConnected() || t < session.lastActivity + limits.idleTimeout
  }

  function Swept(sessions: Sessions, limits: Limits, t: nat): Sessions {
    map id | id in sessions && Stays(sessions[id], limits, t) :: sessions[id]
  }

  function Take(s: State, limits: Limits, step: Step): State {
    if !Enabled(s, limits, step) then s
    else match step
      case Create(id, key, legacy, stamp, victim, t) =>
        var room := if Full(s, limits) then s.sessions - {victim} else s.sessions;
        var session := Session(if legacy then Some(true) else None, 0, stamp, key);
        s.(sessions := room[id := session], ever := s.ever[id := stamp], now := t)
      case Claim(id, caller, t) =>
        if id in s.sessions && s.sessions[id].OwnedBy(caller) then Active(s, id, s.sessions[id], t)
        else s.(now := t)
      case OpenListener(id, t) =>
        if id in s.sessions then
          Active(s, id, s.sessions[id].(listeners := s.sessions[id].listeners + 1), t)
          .(guards := s.guards + multiset{id})
        else s.(now := t)
      case CloseListener(id, t) =>
        var closed := s.(guards := s.guards - multiset{id});
        if id in s.sessions then
          var n := s.sessions[id].listeners;
          Active(closed, id, s.sessions[id].(listeners := if n == 0 then 0 else n - 1), t)
        else closed.(now := t)
      case Remove(id, caller, t) =>
        if id in s.sessions && s.sessions[id].OwnedBy(caller) then s.(sessions := s.sessions - {id}, now := t)
        else s.(now := t)
      case Forget(id, t) => s.(sessions := s.sessions - {id}, now := t)
      case ChannelCloses(id, t) =>
        if id in s.sessions && s.sessions[id].sender.Some? then
          s.(sessions := s.sessions[id := s.sessions[id].(sender := Some(false))], now := t)
        else s.(now := t)
      case Sweep(t) => s.(sessions := Swept(s.sessions, limits, t), now := t)
      case Shutdown(t) => s.(sessions := map[], now := t)
  }

  function After(limits: Limits, steps: seq<Step>): State {
    if steps == [] then START else Take(After(limits, steps[..|steps| - 1]), limits, steps[|steps| - 1])
  }

  /** What every step keeps, once true, stays true. */
  lemma {:induction false} Persists(limits: Limits, before: seq<Step>, later: seq<Step>, p: State -> bool)
    requires p(After(limits, before))
    requires forall s, step :: p(s) ==> p(Take(s, limits, step))
    ensures p(After(limits, before + later))
  {
    if later == [] {
      assert before + later == before;
    } else {
      var front, last := later[..|later| - 1], later[|later| - 1];
      assert before + later == before + front + [last];
      Persists(limits, before, front, p);
      RunSnoc(limits, before + front, last);
    }
  }

  lemma RunSnoc(limits: Limits, steps: seq<Step>, step: Step)
    ensures After(limits, steps + [step]) == Take(After(limits, steps), limits, step)
  {
    assert (steps + [step])[..|steps|] == steps;
  }

  // ----- Every run

  function Cap(limits: Limits): nat {
    if limits.maxSessions == 0 then 1 else limits.maxSessions
  }

  /** The registry never outgrows its cap, and a live session counts exactly the guards still to run on it. */
  ghost predicate Sound(s: State, limits: Limits) {
    && |s.sessions| <= Cap(limits)
    && (forall id :: id in s.sessions ==> id in s.ever && s.ever[id] == s.sessions[id].lastActivity)
    && (forall id :: id in s.sessions ==> s.sessions[id].listeners == s.guards[id])
    && (forall id :: id in s.guards ==> id in s.ever)
    && (forall id :: id in s.ever ==> s.ever[id] <= s.now)
  }

  lemma SizeOfCreate(s: State, limits: Limits, id: Id, victim: Id, session: Session)
    requires |s.sessions| <= Cap(limits) && id !in s.sessions && (Full(s, limits) ==> victim in s.sessions)
    ensures var room := if Full(s, limits) then s.sessions - {victim} else s.sessions;
            |room[id := session]| <= Cap(limits)
  {
  }

  lemma CreateKeeps(s: State, limits: Limits, step: Step)
    requires Sound(s, limits) && step.Create?
    ensures Sound(Take(s, limits, step), limits)
  {
    if Enabled(s, limits, step) {
      SizeOfCreate(s, limits, step.id, step.victim, Take(s, limits, step).sessions[step.id]);
    }
  }

  /** Any activity on a live session, with the guards it leaves. */
  lemma ActivityKeeps(s: State, limits: Limits, id: Id, n: nat, guards: multiset<Id>, t: nat)
    requires Sound(s, limits) && id in s.sessions && s.now <= t && n == guards[id]
    requires forall other :: other != id ==> guards[other] == s.guards[other]
    ensures Sound(Active(s.(guards := guards), id, s.sessions[id].(listeners := n), t), limits)
  {
    var after := Active(s.(guards := guards), id, s.sessions[id].(listeners := n), t);
    assert after.sessions.Keys == s.sessions.Keys;
    forall other | other in guards
      ensures other in after.ever
    {
      assert other != id ==> other in s.guards;
    }
  }

  lemma ShrinkKeeps(s: State, limits: Limits, kept: Sessions, t: nat)
    requires Sound(s, limits) && s.now <= t
    requires forall id :: id in kept ==> id in s.sessions && kept[id] == s.sessions[id]
    ensures Sound(s.(sessions := kept, now := t), limits)
  {
    SubsetSize(kept.Keys, s.sessions.Keys);
  }

  lemma ChannelKeeps(s: State, limits: Limits, id: Id, t: nat)
    requires Sound(s, limits)
    ensures Sound(Take(s, limits, ChannelCloses(id, t)), limits)
  {
    assert Take(s, limits, ChannelCloses(id, t)).sessions.Keys == s.sessions.Keys;
  }

  lemma OpenKeeps(s: State, limits: Limits, id: Id, t: nat)
    requires Sound(s, limits) && s.now <= t && id in s.sessions
    ensures Sound(Take(s, limits, OpenListener(id, t)), limits)
  {
  }

  lemma CloseKeeps(s: State, limits: Limits, id: Id, t: nat)
    requires Sound(s, limits) && s.now <= t && id in s.sessions && s.guards[id] > 0
    ensures Sound(Take(s, limits, CloseListener(id, t)), limits)
  {
  }

  lemma QuietKeeps(s: State, limits: Limits, guards: multiset<Id>, t: nat)
    requires Sound(s, limits) && s.now <= t
    requires forall id :: id in guards ==> id in s.guards
    requires forall id :: id in s.sessions ==> guards[id] == s.guards[id]
    ensures Sound(s.(guards := guards, now := t), limits)
  {
  }

  lemma StepKeepsSound(s: State, limits: Limits, step: Step)
    requires Sound(s, limits)
    ensures Sound(Take(s, limits, step), limits)
  {
    if Enabled(s, limits, step) {
      match step
      case Create(_, _, _, _, _, _) => CreateKeeps(s, limits, step);
      case Claim(id, caller, t) =>
        if id in s.sessions && s.sessions[id].OwnedBy(caller) {
          ActivityKeeps(s, limits, id, s.sessions[id].listeners, s.guards, t);
        } else {
          QuietKeeps(s, limits, s.guards, t);
        }
      case OpenListener(id, t) =>
        if id in s.sessions {
          OpenKeeps(s, limits, id, t);
        } else {
          QuietKeeps(s, limits, s.guards, t);
        }
      case CloseListener(id, t) =>
        if id in s.sessions {
          CloseKeeps(s, limits, id, t);
        } else {
          QuietKeeps(s, limits, s.guards - multiset{id}, t);
        }
      case Remove(id, _, t) =>
        QuietKeeps(s, limits, s.guards, t);
        ShrinkKeeps(s, limits, s.sessions - {id}, t);
      case Forget(id, t) => ShrinkKeeps(s, limits, s.sessions - {id}, t);
      case ChannelCloses(id, t) => ChannelKeeps(s, limits, id, t);
      case Sweep(t) => ShrinkKeeps(s, limits, Swept(s.sessions, limits, t), t);
      case Shutdown(t) => ShrinkKeeps(s, limits, map[], t);
    }
  }

  lemma {:induction false} RunsAreSound(limits: Limits, steps: seq<Step>)
    ensures Sound(After(limits, steps), limits)
  {
    if steps != [] {
      RunsAreSound(limits, steps[..|steps| - 1]);
      StepKeepsSound(After(limits, steps[..|steps| - 1]), limits, steps[|steps| - 1]);
    }
  }

  /** What one sweep does to one session. */
  ghost predicate SweptRight(s: State, limits: Limits, t: nat, id: Id)
    requires id in s.sessions
  {
    var swept := Take(s, limits, Sweep(t)).sessions;
    && (s.guards[id] > 0 || s.sessions[id].sender == Some(true) ==> id in swept)
    && (s.guards[id] == 0 && s.sessions[id].sender != Some(true) ==>
          (id in swept <==> t - s.sessions[id].lastActivity < limits.idleTimeout))
  }

  lemma SoundSweep(s: State, limits: Limits, t: nat, id: Id)
    requires Sound(s, limits) && s.now <= t && id in s.sessions
    ensures SweptRight(s, limits, t, id)
  {
  }

  /** A sweep, at any point of any run, removes exactly the sessions nobody holds open that sat idle for the timeout. */
  lemma SweepInRun(limits: Limits, steps: seq<Step>, t: nat, id: Id)
    requires After(limits, steps).now <= t && id in After(limits, steps).sessions
    ensures SweptRight(After(limits, steps), limits, t, id)
  {
    RunsAreSound(limits, steps);
    SoundSweep(After(limits, steps), limits, t, id);
  }

  // ----- When a session was last used

  predicate IsUse(step: Step) {
    step.Create? || step.Claim? || step.OpenListener? || step.CloseListener? || step.ChannelCloses?
  }

  /** The time a use gives its session. */
  function StampOf(step: Step): nat {
    if step.Create? then step.stamp else step.t
  }

  /** A create, a granted claim or a listener's coming and going while the session is listed is a use of it. */
  predicate Uses(s: State, limits: Limits, step: Step, id: Id) {
    Enabled(s, limits, step)
    && match step
       case Create(created, _, _, _, _, _) => created == id
       case Claim(claimed, caller, _) => claimed == id && AccessTo(s.sessions, id, caller) == Granted
       case OpenListener(heard, _) => heard == id && id in s.sessions
       case CloseListener(heard, _) => heard == id && id in s.sessions
       case _ => false
  }

  /** The k-th step of the run is a use of the session. */
  predicate UsesAt(limits: Limits, steps: seq<Step>, k: nat, id: Id) {
    k < |steps| && Uses(After(limits, steps[..k]), limits, steps[k], id)
  }

  /** The time of the last step of the run that used each session; none that was never used. */
  function LastUses(limits: Limits, steps: seq<Step>): map<Id, nat> {
    if steps == [] then map[]
    else
      var front, last := steps[..|steps| - 1], steps[|steps| - 1];
      var earlier := LastUses(limits, front);
      if IsUse(last) && Uses(After(limits, front), limits, last, last.id) then earlier[last.id := StampOf(last)]
      else earlier
  }

  /** The k-th step is the last use of the session in the run. */
  ghost predicate LastUsedAt(limits: Limits, steps: seq<Step>, k: nat, id: Id) {
    UsesAt(limits, steps, k, id) && forall j :: k < j < |steps| ==> !UsesAt(limits, steps, j, id)
  }

  lemma UsesBefore(limits: Limits, steps: seq<Step>, id: Id)
    requires steps != []
    ensures var front := steps[..|steps| - 1];
            && (forall j :: 0 <= j < |front| ==> (UsesAt(limits, steps, j, id) <==> UsesAt(limits, front, j, id)))
            && (UsesAt(limits, steps, |front|, id) <==> Uses(After(limits, front), limits, steps[|front|], id))
  {
    var front := steps[..|steps| - 1];
    forall j | 0 <= j < |front|
      ensures UsesAt(limits, steps, j, id) <==> UsesAt(limits, front, j, id)
    {
      assert steps[..j] == front[..j];
    }
  }

  lemma LastUseSnoc(limits: Limits, front: seq<Step>, last: Step, id: Id)
    ensures var used := Uses(After(limits, front), limits, last, id);
            && (used ==> id in LastUses(limits, front + [last])
                         && LastUses(limits, front + [last])[id] == StampOf(last))
            && (!used ==>
                  && (id in LastUses(limits, front + [last]) <==> id in LastUses(limits, front))
                  && (id in LastUses(limits, front) ==>
                        LastUses(limits, front + [last])[id] == LastUses(limits, front)[id]))
  {
    assert (front + [last])[..|front|] == front;
  }

  /** What that map says, step by step: the time of a session is that of the last step that used it. */
  lemma {:induction false} LastUseIs(limits: Limits, steps: seq<Step>, id: Id) returns (k: nat)
    requires id in LastUses(limits, steps)
    ensures LastUsedAt(limits, steps, k, id) && LastUses(limits, steps)[id] == StampOf(steps[k])
  {
    var front, last := steps[..|steps| - 1], steps[|steps| - 1];
    assert steps == front + [last];
    LastUseSnoc(limits, front, last, id);
    UsesBefore(limits, steps, id);
    if Uses(After(limits, front), limits, last, id) {
      k := |front|;
    } else {
      k := LastUseIs(limits, front, id);
      assert UsesAt(limits, front, k, id);
      forall j | k < j < |steps|
        ensures !UsesAt(limits, steps, j, id)
      {
        assert j < |front| ==> !UsesAt(limits, front, j, id);
      }
    }
  }

  /** A session that is not in it was used by no step. */
  lemma {:induction false} NeverUsed(limits: Limits, steps: seq<Step>, id: Id, k: nat)
    requires id !in LastUses(limits, steps)
    ensures !UsesAt(limits, steps, k, id)
  {
    if k < |steps| {
      var front, last := steps[..|steps| - 1], steps[|steps| - 1];
      assert steps == front + [last];
      LastUseSnoc(limits, front, last, id);
      UsesBefore(limits, steps, id);
      NeverUsed(limits, front, id, k);
    }
  }

  lemma UseMarks(s: State, limits: Limits, step: Step)
    requires IsUse(step) && Uses(s, limits, step, step.id)
    ensures Take(s, limits, step).ever == s.ever[step.id := StampOf(step)]
  {
  }

  lemma OthersMarkNothing(s: State, limits: Limits, step: Step)
    requires IsUse(step) ==> !Uses(s, limits, step, step.id)
    ensures Take(s, limits, step).ever == s.ever
  {
  }

  /** A use, and nothing else, sets a session's time. */
  lemma UseSetsTime(s: State, limits: Limits, step: Step)
    ensures Take(s, limits, step).ever
            == if IsUse(step) && Uses(s, limits, step, step.id) then s.ever[step.id := StampOf(step)] else s.ever
  {
    if IsUse(step) && Uses(s, limits, step, step.id) {
      UseMarks(s, limits, step);
    } else {
      OthersMarkNothing(s, limits, step);
    }
  }

  /** The registry's own record of activity is that map. */
  lemma {:induction false} ActivityIsLastUse(limits: Limits, steps: seq<Step>)
    ensures After(limits, steps).ever == LastUses(limits, steps)
  {
    if steps != [] {
      var front, last := steps[..|steps| - 1], steps[|steps| - 1];
      ActivityIsLastUse(limits, front);
      UseSetsTime(After(limits, front), limits, last);
    }
  }

  /** So a listed session's last activity is its last use. */
  lemma ListedSinceLastUse(limits: Limits, steps: seq<Step>, id: Id)
    requires id in After(limits, steps).sessions
    ensures id in LastUses(limits, steps)
            && After(limits, steps).sessions[id].lastActivity == LastUses(limits, steps)[id]
  {
    RunsAreSound(limits, steps);
    ActivityIsLastUse(limits, steps);
  }

  // ----- Runs of creates, claims, listeners and closing channels: least recently used

  /** A create that evicts is stamped no earlier than its victim was active; with `strict`, every stamp is new. */
  predicate InOrder(s: State, limits: Limits, step: Step, strict: bool) {
    if strict then s.now < StampOf(step)
    else step.Create? && Enabled(s, limits, step) && Full(s, limits) && step.victim in s.ever ==>
      s.ever[step.victim] <= step.stamp
  }

  /** Only uses, each in order. */
  predicate IsUseRun(limits: Limits, steps: seq<Step>, strict: bool) {
    steps == []
    || (var front, last := steps[..|steps| - 1], steps[|steps| - 1];
        IsUseRun(limits, front, strict) && IsUse(last) && InOrder(After(limits, front), limits, last, strict))
  }

  /** No session that is gone was active after one that is live; with `strict`, nor at the same time. */
  ghost predicate GoneIsOlder(s: State, strict: bool) {
    forall gone, live :: gone in s.ever && gone !in s.sessions && live in s.sessions && live in s.ever ==>
      s.ever[gone] <= s.ever[live] && (strict ==> s.ever[gone] < s.ever[live])
  }

  ghost predicate TimesDiffer(s: State) {
    forall a, b :: a in s.ever && b in s.ever && a != b ==> s.ever[a] != s.ever[b]
  }

  function Smaller(a: nat, b: nat): nat { if a <= b then a else b }

  /** The live sessions are the most recently active of all ever created, as many as the cap allows. */
  ghost predicate MostRecent(s: State, limits: Limits, strict: bool) {
    && |s.sessions| == Smaller(Cap(limits), |s.ever|)
    && GoneIsOlder(s, strict)
    && (strict ==> TimesDiffer(s))
  }

  /** These of the sessions used are the most recently used, as many as the cap allows. */
  ghost predicate MostRecentlyUsed(live: set<Id>, used: map<Id, nat>, limits: Limits, strict: bool) {
    && live <= used.Keys && |live| == Smaller(Cap(limits), |used|)
    && (forall gone, kept :: gone in used && gone !in live && kept in live ==>
          used[gone] <= used[kept] && (strict ==> used[gone] < used[kept]))
    && (strict ==> forall a, b :: a in used && b in used && a != b ==> used[a] != used[b])
  }

  /** The sessions listed after a run are the most recently used of it. */
  ghost predicate KeepsMostRecent(limits: Limits, steps: seq<Step>, strict: bool) {
    MostRecentlyUsed(After(limits, steps).sessions.Keys, LastUses(limits, steps), limits, strict)
  }

  lemma RecentIsUsed(limits: Limits, steps: seq<Step>, strict: bool)
    ensures KeepsMostRecent(limits, steps, strict) <==> MostRecent(After(limits, steps), limits, strict)
  {
    RunsAreSound(limits, steps);
    ActivityIsLastUse(limits, steps);
    RecentIs(After(limits, steps), limits, strict);
  }

  lemma RecentIs(s: State, limits: Limits, strict: bool)
    requires Sound(s, limits)
    ensures MostRecentlyUsed(s.sessions.Keys, s.ever, limits, strict) <==> MostRecent(s, limits, strict)
  {
    assert |s.sessions.Keys| == |s.sessions|;
  }

  lemma NoneGone(s: State, limits: Limits)
    requires Sound(s, limits) && |s.sessions| == |s.ever|
    ensures s.sessions.Keys == s.ever.Keys
  {
    SubsetOfSameSize(s.sessions.Keys, s.ever.Keys);
  }

  lemma SizesAfterCreate(s: State, limits: Limits, step: Step)
    requires Sound(s, limits) && |s.sessions| == Smaller(Cap(limits), |s.ever|)
    requires step.Create? && Enabled(s, limits, step)
    ensures var after := Take(s, limits, step);
            |after.sessions| == Smaller(Cap(limits), |after.ever|)
  {
  }

  lemma EvictionInOrder(s: State, limits: Limits, step: Step)
    requires Sound(s, limits) && GoneIsOlder(s, false)
    requires step.Create? && Enabled(s, limits, step) && Full(s, limits) && s.ever[step.victim] <= step.stamp
    ensures GoneIsOlder(Take(s, limits, step), false)
  {
  }

  lemma EvictionOutOfOrder(s: State, limits: Limits, step: Step)
    requires Sound(s, limits) && step.Create? && Enabled(s, limits, step) && Full(s, limits)
    requires s.ever[step.victim] > step.stamp
    ensures !GoneIsOlder(Take(s, limits, step), false)
  {
    var after := Take(s, limits, step);
    assert step.victim in after.ever && step.victim !in after.sessions && step.id in after.sessions;
  }

  /** In a full registry in order, a create leaves it in order exactly when its stamp is no older than its victim. */
  lemma CreateKeepsOrder(s: State, limits: Limits, step: Step)
    requires Sound(s, limits) && MostRecent(s, limits, false)
    requires step.Create? && Enabled(s, limits, step)
    ensures MostRecent(Take(s, limits, step), limits, false)
            <==> (Full(s, limits) ==> s.ever[step.victim] <= step.stamp)
  {
    SizesAfterCreate(s, limits, step);
    if !Full(s, limits) {
      NoneGone(s, limits);
    } else if s.ever[step.victim] <= step.stamp {
      EvictionInOrder(s, limits, step);
    } else {
      EvictionOutOfOrder(s, limits, step);
    }
  }

  /** A legacy session's stamp, taken before the lock, can put a session that is gone ahead of one that is live. */
  lemma EarlyStampBreaksOrder()
    ensures var limits := Limits(1, 0);
            var steps := [Create("a", None, false, 5, "", 5), Create("b", None, true, 4, "a", 6)];
            var s := After(limits, steps);
            "a" !in s.sessions && "b" in s.sessions && "a" in s.ever && "b" in s.ever && s.ever["a"] > s.ever["b"]
  {
    var limits := Limits(1, 0);
    var first, second := Create("a", None, false, 5, "", 5), Create("b", None, true, 4, "a", 6);
    assert [first, second][..1] == [first] && [first][..0] == [];
    var one := Take(START, limits, first);
    assert After(limits, [first]) == one;
    assert one.sessions == map["a" := Session(None, 0, 5, None)];
    assert Full(one, limits) && Idlest(one.sessions, "a");
  }

  lemma StrictCreate(s: State, limits: Limits, step: Step)
    requires Sound(s, limits) && MostRecent(s, limits, true)
    requires step.Create? && s.now < step.stamp && Enabled(s, limits, step)
    ensures MostRecent(Take(s, limits, step), limits, true)
  {
    SizesAfterCreate(s, limits, step);
    if !Full(s, limits) {
      NoneGone(s, limits);
    }
  }

  lemma ActivityKeepsOrder(s: State, limits: Limits, id: Id, session: Session, guards: multiset<Id>, t: nat,
                           strict: bool)
    requires Sound(s, limits) && MostRecent(s, limits, strict) && id in s.sessions
    requires s.now <= t && (strict ==> s.now < t)
    ensures MostRecent(Active(s.(guards := guards), id, session, t), limits, strict)
  {
    var after := Active(s.(guards := guards), id, session, t);
    assert after.sessions.Keys == s.sessions.Keys && after.ever.Keys == s.ever.Keys;
    forall gone, live | gone in after.ever && gone !in after.sessions && live in after.sessions && live in after.ever
      ensures after.ever[gone] <= after.ever[live] && (strict ==> after.ever[gone] < after.ever[live])
    {
      assert gone != id && after.ever[gone] == s.ever[gone] <= s.now;
      assert live == id || after.ever[live] == s.ever[live];
    }
    if strict {
      LaterTimesDiffer(s, after, id, t);
    }
  }

  lemma LaterTimesDiffer(s: State, after: State, id: Id, t: nat)
    requires TimesDiffer(s) && (forall x :: x in s.ever ==> s.ever[x] < t) && after.ever == s.ever[id := t]
    ensures TimesDiffer(after)
  {
  }

  lemma ChannelKeepsOrder(s: State, limits: Limits, id: Id, t: nat, strict: bool)
    requires MostRecent(s, limits, strict)
    ensures MostRecent(Take(s, limits, ChannelCloses(id, t)), limits, strict)
  {
    assert Take(s, limits, ChannelCloses(id, t)).sessions.Keys == s.sessions.Keys;
  }

  /** The steps that make a live session the most recently active one. */
  lemma TouchKeepsOrder(s: State, limits: Limits, step: Step, strict: bool)
    requires Sound(s, limits) && MostRecent(s, limits, strict) && (strict ==> s.now < step.t)
    requires step.Claim? || step.OpenListener? || step.CloseListener?
    requires Enabled(s, limits, step) && step.id in s.sessions
    ensures MostRecent(Take(s, limits, step), limits, strict)
  {
    var session, n := s.sessions[step.id], s.sessions[step.id].listeners;
    match step
    case Claim(id, caller, t) => ActivityKeepsOrder(s, limits, id, session, s.guards, t, strict);
    case OpenListener(id, t) =>
      ActivityKeepsOrder(s, limits, id, session.(listeners := n + 1), s.guards + multiset{id}, t, strict);
    case CloseListener(id, t) =>
      ActivityKeepsOrder(s, limits, id, session.(listeners := n - 1), s.guards - multiset{id}, t, strict);
  }

  lemma UseKeepsOrder(s: State, limits: Limits, step: Step, strict: bool)
    requires Sound(s, limits) && MostRecent(s, limits, strict) && IsUse(step) && InOrder(s, limits, step, strict)
    ensures MostRecent(Take(s, limits, step), limits, strict)
  {
    if Enabled(s, limits, step) {
      if step.Create? {
        if strict {
          StrictCreate(s, limits, step);
        } else {
          CreateKeepsOrder(s, limits, step);
        }
      } else if step.ChannelCloses? {
        ChannelKeepsOrder(s, limits, step.id, step.t, strict);
      } else if step.id in s.sessions {
        TouchKeepsOrder(s, limits, step, strict);
      }
    }
  }

  lemma {:induction false} UseRunKeepsOrder(limits: Limits, steps: seq<Step>, strict: bool)
    requires IsUseRun(limits, steps, strict)
    ensures MostRecent(After(limits, steps), limits, strict)
  {
    if steps != [] {
      var front := steps[..|steps| - 1];
      UseRunKeepsOrder(limits, front, strict);
      RunsAreSound(limits, front);
      UseKeepsOrder(After(limits, front), limits, steps[|steps| - 1], strict);
    }
  }

  /**
    Over any run of creates, claims, listener steps and closing channels, every create stamped no earlier
    than the activity of the session it evicts: the live sessions are those of all ever created that were
    used last, as many as the cap (at least one) allows.
   */
  lemma RegistryIsLru(limits: Limits, steps: seq<Step>, strict: bool)
    requires IsUseRun(limits, steps, strict)
    ensures KeepsMostRecent(limits, steps, strict)
  {
    UseRunKeepsOrder(limits, steps, strict);
    RecentIsUsed(limits, steps, strict);
  }

  lemma {:induction false} PrefixIsUseRun(limits: Limits, steps: seq<Step>, k: nat)
    requires IsUseRun(limits, steps, false) && k <= |steps|
    ensures IsUseRun(limits, steps[..k], false)
  {
    if k == |steps| {
      assert steps[..k] == steps;
    } else {
      PrefixIsUseRun(limits, steps[..|steps| - 1], k);
      assert steps[..|steps| - 1][..k] == steps[..k];
    }
  }

  lemma {:induction false} OrderNeedsStamps(limits: Limits, steps: seq<Step>)
    requires forall step :: step in steps ==> IsUse(step)
    requires forall k :: 0 <= k <= |steps| ==> MostRecent(After(limits, steps[..k]), limits, false)
    ensures IsUseRun(limits, steps, false)
  {
    if steps != [] {
      var front, last := steps[..|steps| - 1], steps[|steps| - 1];
      forall k | 0 <= k <= |front|
        ensures MostRecent(After(limits, front[..k]), limits, false)
      {
        assert front[..k] == steps[..k];
      }
      OrderNeedsStamps(limits, front);
      assert front[..|front|] == front && steps[..|steps|] == steps;
      RunsAreSound(limits, front);
      if last.Create? && Enabled(After(limits, front), limits, last) {
        CreateKeepsOrder(After(limits, front), limits, last);
      }
    }
  }

  /** Exactly those runs: the order holds throughout a run of uses if and only if every create is so stamped. */
  lemma OrderIffStamped(limits: Limits, steps: seq<Step>)
    requires forall step :: step in steps ==> IsUse(step)
    ensures IsUseRun(limits, steps, false)
            <==> forall k :: 0 <= k <= |steps| ==> KeepsMostRecent(limits, steps[..k], false)
  {
    if IsUseRun(limits, steps, false) {
      forall k | 0 <= k <= |steps|
        ensures KeepsMostRecent(limits, steps[..k], false)
      {
        PrefixIsUseRun(limits, steps, k);
        RegistryIsLru(limits, steps[..k], false);
      }
    } else if forall k :: 0 <= k <= |steps| ==> KeepsMostRecent(limits, steps[..k], false) {
      forall k | 0 <= k <= |steps|
        ensures MostRecent(After(limits, steps[..k]), limits, false)
      {
        RecentIsUsed(limits, steps[..k], false);
      }
      OrderNeedsStamps(limits, steps);
      assert false;
    }
  }

  /** Under a strictly increasing clock that pins the live sessions down: no other set of as many fits. */
  lemma MostRecentIsOneSet(live: set<Id>, other: set<Id>, used: map<Id, nat>, limits: Limits)
    requires MostRecentlyUsed(live, used, limits, true)
    requires other <= used.Keys && |other| == |live|
    requires forall gone, kept :: gone in used && gone !in other && kept in other ==> used[gone] < used[kept]
    ensures other == live
  {
    if other != live {
      var x, y := EachHasMore(other, live);
      assert false;
    }
  }

  // ----- Whose session it is

  lemma StepKeepsKey(s: State, limits: Limits, step: Step, id: Id)
    requires id in s.ever
    ensures var after := Take(s, limits, step);
            && id in after.ever
            && (id in after.sessions ==> id in s.sessions && after.sessions[id].key == s.sessions[id].key)
  {
  }

  /** A session that was created, and while it is listed has this key. */
  predicate KeyedBy(s: State, id: Id, key: Option<string>) {
    id in s.ever && (id in s.sessions ==> s.sessions[id].key == key)
  }

  lemma KeyStays(limits: Limits, before: seq<Step>, create: Step, later: seq<Step>)
    requires create.Create? && Enabled(After(limits, before), limits, create)
    ensures KeyedBy(After(limits, before + [create] + later), create.id, create.key)
  {
    var id, key := create.id, create.key;
    RunSnoc(limits, before, create);
    forall s, step | KeyedBy(s, id, key)
      ensures KeyedBy(Take(s, limits, step), id, key)
    {
      StepKeepsKey(s, limits, step, id);
    }
    Persists(limits, before + [create], later, (s: State) => KeyedBy(s, id, key));
  }

  /** However long after, a session is granted to its creator alone, or to anyone if it was created by nobody known. */
  lemma OnlyCreatorContinues(limits: Limits, before: seq<Step>, create: Step, later: seq<Step>, caller: Option<string>)
    requires create.Create? && Enabled(After(limits, before), limits, create)
    ensures var sessions := After(limits, before + [create] + later).sessions;
            AccessTo(sessions, create.id, caller) == Granted
            <==> create.id in sessions && (create.key.None? || caller == create.key)
  {
    KeyStays(limits, before, create, later);
  }

  // ----- When a session ends

  /** The step takes the session off the list. */
  predicate Ends(s: State, limits: Limits, step: Step, id: Id)
    requires id in s.sessions
  {
    Enabled(s, limits, step)
    && match step
       case Create(_, _, _, _, victim, _) => |s.sessions| >= limits.maxSessions && victim == id
       case Remove(removed, caller, _) => removed == id && (s.sessions[id].key.None? || caller == s.sessions[id].key)
       case Forget(forgotten, _) => forgotten == id
       case Sweep(t) =>
         && s.sessions[id].listeners == 0 && s.sessions[id].sender != Some(true)
         && t >= s.sessions[id].lastActivity + limits.idleTimeout
       case Shutdown(_) => true
       case _ => false
  }

  /** A listed session stays listed through every step but those that end it. */
  lemma LeavesIffEnded(s: State, limits: Limits, step: Step, id: Id)
    requires id in s.sessions && id in s.ever
    ensures id !in Take(s, limits, step).sessions <==> Ends(s, limits, step, id)
  {
  }

  predicate Gone(s: State, id: Id) {
    id in s.ever && id !in s.sessions
  }

  /** However it ended, a session is unknown to every caller for good. */
  lemma EndedIsUnknown(limits: Limits, before: seq<Step>, ending: Step, later: seq<Step>, id: Id,
                       caller: Option<string>)
    requires id in After(limits, before).sessions && Ends(After(limits, before), limits, ending, id)
    ensures AccessTo(After(limits, before + [ending] + later).sessions, id, caller) == Unknown
  {
    RunsAreSound(limits, before);
    LeavesIffEnded(After(limits, before), limits, ending, id);
    StepKeepsKey(After(limits, before), limits, ending, id);
    RunSnoc(limits, before, ending);
    forall s, step | Gone(s, id)
      ensures Gone(Take(s, limits, step), id)
    {
      StepKeepsKey(s, limits, step, id);
    }
    Persists(limits, before + [ending], later, (s: State) => Gone(s, id));
  }

  predicate Unpushed(s: State, id: Id) {
    id in s.ever && (id in s.sessions ==> s.sessions[id].sender != Some(true))
  }

  lemma StaysUnpushed(s: State, limits: Limits, step: Step, id: Id)
    requires Unpushed(s, id)
    ensures Unpushed(Take(s, limits, step), id)
  {
  }

  /** A push channel once closed holds its session open no more. */
  lemma ClosedChannelStays(limits: Limits, before: seq<Step>, id: Id, t: nat, later: seq<Step>)
    requires After(limits, before).now <= t && id in After(limits, before).ever
    ensures Unpushed(After(limits, before + [ChannelCloses(id, t)] + later), id)
  {
    RunSnoc(limits, before, ChannelCloses(id, t));
    forall s, step | Unpushed(s, id)
      ensures Unpushed(Take(s, limits, step), id)
    {
      StaysUnpushed(s, limits, step, id);
    }
    Persists(limits, before + [ChannelCloses(id, t)], later, (s: State) => Unpushed(s, id));
  }

  // ----- The registry as the transport drives it

  /** Each method is one critical section, and does to the registry what its step does. */
  class Registry {
    const limits: Limits
    var sessions: Sessions
    ghost var guards: multiset<Id>
    ghost var ever: map<Id, nat>
    ghost var now: nat

    ghost function View(): State
      reads this
    {
      State(sessions, guards, ever, now)
    }

    constructor (limits: Limits)
      ensures View() == START && this.limits == limits
    {
      this.limits := limits;
      sessions, guards, ever, now := map[], multiset{}, map[], 0;
    }

    method EvictIdlestIfFull() returns (ghost victim: Id)
      modifies this`sessions
      ensures if Full(old(View()), limits)
              then Idlest(old(sessions), victim) && sessions == old(sessions) - {victim}
              else sessions == old(sessions)
    {
      victim := "";
      if |sessions| < limits.maxSessions || |sessions| == 0 {
        return;
      }
      var todo := sessions.Keys;
      var idlest :| idlest in todo;
      todo := todo - {idlest};
      while todo != {}
        invariant todo <= sessions.Keys && idlest in sessions && sessions == old(sessions)
        invariant forall id :: id in sessions && id !in todo ==>
                    sessions[idlest].lastActivity <= sessions[id].lastActivity
      {
        var id :| id in todo;
        if sessions[id].lastActivity < sessions[idlest].lastActivity {
          idlest := id;
        }
        todo := todo - {id};
      }
      victim := idlest;
      sessions := sessions - {idlest};
    }

    /** A new session always gets in: the cap costs the idlest one its place, never the newcomer. */
    method CreateSession(id: Id, key: Option<string>, legacy: bool, stamp: nat, ghost t: nat)
      requires id !in ever && stamp <= t && now <= t
      modifies this
      ensures exists victim :: Enabled(old(View()), limits, Create(id, key, legacy, stamp, victim, t))
                               && View() == Take(old(View()), limits, Create(id, key, legacy, stamp, victim, t))
      ensures id in sessions && sessions[id] == Session(if legacy then Some(true) else None, 0, stamp, key)
      ensures if Full(old(View()), limits)
              then exists victim :: Idlest(old(sessions), victim)
                                    && sessions == (old(sessions) - {victim})[id := sessions[id]]
              else sessions == old(sessions)[id := sessions[id]]
    {
      ghost var victim := EvictIdlestIfFull();
      sessions := sessions[id := Session(if legacy then Some(true) else None, 0, stamp, key)];
      ever, now := ever[id := stamp], t;
      assert Enabled(old(View()), limits, Create(id, key, legacy, stamp, victim, t));
    }

    /** A claim is granted to the owner and counts as activity; refused, it changes nothing. */
    method ClaimSession(id: Id, caller: Option<string>, t: nat) returns (r: Access)
      requires now <= t
      modifies this
      ensures r == AccessTo(old(sessions), id, caller)
      ensures View() == Take(old(View()), limits, Claim(id, caller, t))
      ensures r == Granted ==> sessions == old(sessions)[id := old(sessions)[id].(lastActivity := t)]
      ensures r != Granted ==> sessions == old(sessions) && ever == old(ever)
      ensures guards == old(guards)
    {
      r := AccessTo(sessions, id, caller);
      if r == Granted {
        sessions := sessions[id := sessions[id].(lastActivity := t)];
        ever := ever[id := t];
      }
      now := t;
    }

    method OpenListener(id: Id, t: nat) returns (listening: bool)
      requires now <= t
      modifies this
      ensures listening <==> id in old(sessions)
      ensures View() == Take(old(View()), limits, Step.OpenListener(id, t))
      ensures listening ==>
                var was := old(sessions)[id];
                && guards == old(guards) + multiset{id}
                && sessions == old(sessions)[id := was.(listeners := was.listeners + 1, lastActivity := t)]
      ensures !listening ==> guards == old(guards) && sessions == old(sessions)
    {
      listening := id in sessions;
      if listening {
        var session := sessions[id].(listeners := sessions[id].listeners + 1);
        sessions := sessions[id := session.(lastActivity := t)];
        guards, ever := guards + multiset{id}, ever[id := t];
      }
      now := t;
    }

    /** Run by a stream's guard, once for every listener that was listening. */
    method CloseListener(id: Id, t: nat)
      requires now <= t && guards[id] > 0
      modifies this
      ensures View() == Take(old(View()), limits, Step.CloseListener(id, t))
      ensures guards == old(guards) - multiset{id}
      ensures id in old(sessions) && old(sessions)[id].listeners > 0 ==>
                var was := old(sessions)[id];
                sessions == old(sessions)[id := was.(listeners := was.listeners - 1, lastActivity := t)]
      ensures id !in old(sessions) ==> sessions == old(sessions)
    {
      guards := guards - multiset{id};
      if id in sessions {
        var n := sessions[id].listeners;
        var session := sessions[id].(listeners := if n == 0 then 0 else n - 1);
        sessions := sessions[id := session.(lastActivity := t)];
        ever := ever[id := t];
      }
      now := t;
    }

    method RemoveSession(id: Id, caller: Option<string>, ghost t: nat) returns (r: Access)
      requires now <= t
      modifies this
      ensures r == AccessTo(old(sessions), id, caller)
      ensures View() == Take(old(View()), limits, Remove(id, caller, t))
      ensures sessions == if r == Granted then old(sessions) - {id} else old(sessions)
    {
      r := AccessTo(sessions, id, caller);
      if r == Granted {
        sessions := sessions - {id};
      }
      now := t;
    }

    method ForgetSession(id: Id, ghost t: nat) returns (known: bool)
      requires now <= t
      modifies this
      ensures known <==> id in old(sessions)
      ensures View() == Take(old(View()), limits, Forget(id, t))
      ensures sessions == old(sessions) - {id}
    {
      known := id in sessions;
      sessions := sessions - {id};
      now := t;
    }

    method SweepIdle(t: nat)
      requires now <= t
      modifies this
      ensures View() == Take(old(View()), limits, Sweep(t))
      ensures forall id :: id in sessions <==> id in old(sessions) && (old(sessions)[id].IsConnected()
                                               || t - old(sessions)[id].lastActivity < limits.idleTimeout)
      ensures forall id :: id in sessions ==> sessions[id] == old(sessions)[id]
    {
      sessions := map id | id in sessions && (sessions[id].IsConnected()
                                              || t - sessions[id].lastActivity < limits.idleTimeout) :: sessions[id];
      now := t;
    }
  }
}
