/** `delete`: the id file cut into batches, sent by parallel workers, resumed from a progress file. */
module RetentionDelete {
  import opened Wrappers

  // ----- Batches

  function Flatten(batches: seq<seq<string>>): seq<string> {
    if batches == [] then [] else Flatten(batches[..|batches| - 1]) + batches[|batches| - 1]
  }

  /** The ids of a file: its lines stripped, blank ones dropped. */
  function Ids(lines: seq<string>, strip: string -> string): seq<string> {
    if lines == [] then []
    else
      var id := strip(lines[|lines| - 1]);
      Ids(lines[..|lines| - 1], strip) + (if id == "" then [] else [id])
  }

  function Clamp(skip: int, length: nat): nat {
    if skip < 0 then 0 else if skip < length then skip else length
  }

  /** `batches` cuts `ids` from position `from` on: in order, none empty, all but the last of the asked size. */
  ghost predicate Batching(batches: seq<seq<string>>, ids: seq<string>, from: nat, size: int)
    requires from <= |ids|
  {
    && Flatten(batches) == ids[from..]
    && (forall b :: b in batches ==> b != [])
    && (size >= 1 ==> forall i :: 0 <= i < |batches| ==>
         if i < |batches| - 1 then |batches[i]| == size else |batches[i]| <= size)
    && (size < 1 ==> |batches| <= 1)
  }

  lemma FlattenSnoc(batches: seq<seq<string>>, b: seq<string>)
    ensures Flatten(batches + [b]) == Flatten(batches) + b
  {
  }

  lemma IdsSnoc(lines: seq<string>, strip: string -> string, k: nat)
    requires k < |lines|
    ensures var id := strip(lines[k]);
            Ids(lines[..k + 1], strip) == Ids(lines[..k], strip) + if id == "" then [] else [id]
  {
    assert lines[..k + 1][..k] == lines[..k];
  }

  /** The ids past the skipped ones, cut so far into `out` and the batch being filled. */
  ghost predicate CutSoFar(out: seq<seq<string>>, batch: seq<string>, seen: seq<string>, skip: int) {
    Flatten(out) + batch == seen[Clamp(skip, |seen|)..]
  }

  lemma SkipOne(out: seq<seq<string>>, batch: seq<string>, seen: seq<string>, skip: int, id: string)
    requires CutSoFar(out, batch, seen, skip) && |seen| + 1 <= skip
    ensures CutSoFar(out, batch, seen + [id], skip)
  {
    assert seen[Clamp(skip, |seen|)..] == [] == (seen + [id])[Clamp(skip, |seen| + 1)..];
  }

  lemma TakeOne(out: seq<seq<string>>, batch: seq<string>, seen: seq<string>, skip: int, id: string)
    requires CutSoFar(out, batch, seen, skip) && skip < |seen| + 1
    ensures CutSoFar(out, batch + [id], seen + [id], skip)
  {
    assert (seen + [id])[Clamp(skip, |seen| + 1)..] == seen[Clamp(skip, |seen|)..] + [id];
    assert Flatten(out) + (batch + [id]) == Flatten(out) + batch + [id];
  }

  lemma CloseBatch(out: seq<seq<string>>, batch: seq<string>, seen: seq<string>, skip: int)
    requires CutSoFar(out, batch, seen, skip)
    ensures CutSoFar(out + [batch], [], seen, skip)
  {
    FlattenSnoc(out, batch);
    assert Flatten(out) + batch + [] == Flatten(out) + batch;
  }

  lemma BatchingEnds(out: seq<seq<string>>, batch: seq<string>, ids: seq<string>, from: nat, size: int)
    requires from <= |ids| && Flatten(out) + batch == ids[from..]
    requires forall b :: b in out ==> b != []
    requires if size >= 1 then |batch| < size && (forall b :: b in out ==> |b| == size) else out == []
    ensures Batching(if batch == [] then out else out + [batch], ids, from, size)
  {
  }

  method Batches(lines: seq<string>, strip: string -> string, size: int, skip: int) returns (out: seq<seq<string>>)
    ensures Batching(out, Ids(lines, strip), Clamp(skip, |Ids(lines, strip)|), size)
  {
    out := [];
    var batch: seq<string>, n := [], 0;
    ghost var seen: seq<string> := [];
    for k := 0 to |lines|
      invariant seen == Ids(lines[..k], strip) && n == |seen| && CutSoFar(out, batch, seen, skip)
      invariant forall b :: b in out ==> b != []
      invariant if size >= 1 then |batch| < size && (forall b :: b in out ==> |b| == size) else out == []
    {
      IdsSnoc(lines, strip, k);
      var id := strip(lines[k]);
      if id == "" {
        continue;
      }
      n := n + 1;
      if n <= skip {
        SkipOne(out, batch, seen, skip, id);
        seen := seen + [id];
        continue;
      }
      TakeOne(out, batch, seen, skip, id);
      batch, seen := batch + [id], seen + [id];
      if |batch| == size {
        CloseBatch(out, batch, seen, skip);
        out, batch := out + [batch], [];
      }
    }
    assert lines[..|lines|] == lines;
    BatchingEnds(out, batch, seen, Clamp(skip, n), size);
    if batch != [] {
      out := out + [batch];
    }
  }

  // ----- Interrupted runs

  datatype Sent = Waiting | Confirmed | Refused

  /** One run of the program: its batches in submission order, what became of each, how many are counted, and the
      running total of ids that goes into the progress file. */
  datatype Run = Run(from: nat, batches: seq<seq<string>>, sent: seq<Sent>, counted: nat, done: nat)

  /** `deleted`: ids the server has confirmed; `progress`: the number in the progress file. */
  datatype State = State(ids: seq<string>, deleted: set<string>, progress: nat, run: Option<Run>)

  datatype Step =
    | Start(size: int, restart: bool, batches: seq<seq<string>>)
    | Confirm(batch: nat)
    | Refuse(batch: nat)
    | Count
    | Stop

  function Fresh(ids: seq<string>): State {
    State(ids, {}, 0, None)
  }

  predicate NextConfirmed(r: Run) {
    r.counted < |r.batches| && r.counted < |r.sent| && r.sent[r.counted].Confirmed?
  }

  /** A run can start with these batches: some first ones of the rest of the file. */
  ghost predicate CanStart(s: State, size: int, restart: bool, batches: seq<seq<string>>) {
    var from := if restart then 0 else s.progress;
    s.run.None? && from <= |s.ids| && exists all :: batches <= all && Batching(all, s.ids, from, size)
  }

  /**
    A step that cannot happen leaves the state alone. `Start` hands the workers some first batches of the
    file (all of them, or fewer with a batch limit); workers finish in any order; batches are counted in
    submission order only; `Stop` is the end of the run, whatever caused it.
   */
  ghost function Take(s: State, step: Step): State {
    match step
    case Start(size, restart, batches) =>
      var from := if restart then 0 else s.progress;
      if CanStart(s, size, restart, batches) then
        s.(run := Some(Run(from, batches, seq(|batches|, _ => Waiting), 0, from)))
      else s
    case Confirm(k) =>
      if s.run.Some? && k < |s.run.value.sent| && s.run.value.sent[k].Waiting? && k < |s.run.value.batches| then
        s.(deleted := s.deleted + (set i | i in s.run.value.batches[k]),
           run := Some(s.run.value.(sent := s.run.value.sent[k := Confirmed])))
      else s
    case Refuse(k) =>
      if s.run.Some? && k < |s.run.value.sent| && s.run.value.sent[k].Waiting? then
        s.(run := Some(s.run.value.(sent := s.run.value.sent[k := Refused])))
      else s
    case Count =>
      if s.run.Some? && NextConfirmed(s.run.value) then
        var r := s.run.value;
        var done := r.done + |r.batches[r.counted]|;
        s.(progress := done, run := Some(r.(counted := r.counted + 1, done := done)))
      else s
    case Stop => s.(run := None)
  }

  ghost function After(s: State, steps: seq<Step>): State {
    if steps == [] then s else Take(After(s, steps[..|steps| - 1]), steps[|steps| - 1])
  }

  ghost predicate DeletedUpTo(s: State, n: nat) {
    n <= |s.ids| && forall i :: 0 <= i < n ==> s.ids[i] in s.deleted
  }

  ghost predicate RunSound(s: State, r: Run) {
    && |r.sent| == |r.batches| && r.counted <= |r.batches|
    && r.from <= |s.ids| && Flatten(r.batches) <= s.ids[r.from..]
    && DeletedUpTo(s, r.done) && r.done == r.from + |Flatten(r.batches[..r.counted])|
    && (forall k :: 0 <= k < |r.sent| && r.sent[k].Confirmed? ==> forall i :: i in r.batches[k] ==> i in s.deleted)
  }

  /** What the progress file promises, in every state. */
  ghost predicate Sound(s: State) {
    DeletedUpTo(s, s.progress) && (s.run.Some? ==> RunSound(s, s.run.value))
  }

  lemma {:induction false} FlattenPrefix(a: seq<seq<string>>, b: seq<seq<string>>)
    requires a <= b
    ensures Flatten(a) <= Flatten(b)
  {
    if a != b {
      FlattenPrefix(a, b[..|b| - 1]);
    }
  }

  lemma StartKeeps(s: State, size: int, restart: bool, batches: seq<seq<string>>)
    requires Sound(s)
    ensures Sound(Take(s, Start(size, restart, batches)))
  {
    var from := if restart then 0 else s.progress;
    if CanStart(s, size, restart, batches) {
      var all :| batches <= all && Batching(all, s.ids, from, size);
      FlattenPrefix(batches, all);
      assert batches[..0] == [];
    }
  }

  lemma CountKeeps(s: State)
    requires Sound(s)
    ensures Sound(Take(s, Count))
  {
    var t := Take(s, Count);
    if t != s {
      var r := s.run.value;
      var next := r.batches[..r.counted + 1];
      assert next[..r.counted] == r.batches[..r.counted];
      FlattenPrefix(next, r.batches);
      forall i | r.done <= i < t.progress
        ensures s.ids[i] in s.deleted
      {
        assert s.ids[i] == s.ids[r.from..][i - r.from] == Flatten(next)[i - r.from];
        assert Flatten(next)[i - r.from] in r.batches[r.counted];
      }
    }
  }

  lemma StepKeeps(s: State, step: Step)
    requires Sound(s)
    ensures Sound(Take(s, step))
  {
    match step
    case Start(size, restart, batches) => StartKeeps(s, size, restart, batches);
    case Count => CountKeeps(s);
    case Confirm(k) =>
    case Refuse(k) =>
    case Stop =>
  }

  /** Over any number of interrupted runs: every id the progress file counts has been confirmed deleted. */
  lemma {:induction false} ProgressIsDeleted(ids: seq<string>, steps: seq<Step>)
    ensures Sound(After(Fresh(ids), steps)) && After(Fresh(ids), steps).ids == ids
  {
    if steps != [] {
      ProgressIsDeleted(ids, steps[..|steps| - 1]);
      StepKeeps(After(Fresh(ids), steps[..|steps| - 1]), steps[|steps| - 1]);
    }
  }

  lemma {:induction false} InFlatten(batches: seq<seq<string>>, k: nat, i: string)
    requires k < |batches| && i in batches[k]
    ensures i in Flatten(batches)
  {
    if k < |batches| - 1 {
      InFlatten(batches[..|batches| - 1], k, i);
    }
  }

  /** Nothing but ids of the file is deleted. */
  ghost predicate OnlyListed(s: State) {
    forall i :: i in s.deleted ==> i in s.ids
  }

  lemma ConfirmKeepsListed(s: State, k: nat)
    requires Sound(s) && OnlyListed(s)
    ensures OnlyListed(Take(s, Confirm(k)))
  {
    if s.run.Some? && k < |s.run.value.batches| {
      var r := s.run.value;
      forall i | i in r.batches[k]
        ensures i in s.ids
      {
        InFlatten(r.batches, k, i);
        assert i in s.ids[r.from..];
      }
    }
  }

  /** Over any number of interrupted runs, in every state. */
  lemma {:induction false} DeletesOnlyListed(ids: seq<string>, steps: seq<Step>)
    ensures OnlyListed(After(Fresh(ids), steps))
  {
    if steps != [] {
      var front, last := steps[..|steps| - 1], steps[|steps| - 1];
      DeletesOnlyListed(ids, front);
      ProgressIsDeleted(ids, front);
      if last.Confirm? {
        ConfirmKeepsListed(After(Fresh(ids), front), last.batch);
      }
    }
  }

  // ----- Where a run begins, and where it gets to

  /** A run begins where the progress file says, or with `restart` at the first id, and nothing is counted yet. */
  lemma StartsAtProgress(s: State, size: int, restart: bool, batches: seq<seq<string>>)
    requires CanStart(s, size, restart, batches)
    ensures var t := Take(s, Start(size, restart, batches));
            && t.progress == s.progress && t.deleted == s.deleted && t.run.Some?
            && t.run.value.from == t.run.value.done == (if restart then 0 else s.progress)
            && t.run.value.batches == batches && t.run.value.counted == 0
            && |t.run.value.sent| == |batches| && forall k :: 0 <= k < |batches| ==> t.run.value.sent[k] == Waiting
  {
  }

  /** A batch counted moves the progress file past exactly its ids. */
  lemma CountIsWritten(s: State)
    requires s.run.Some? && NextConfirmed(s.run.value)
    ensures var t := Take(s, Count);
            && t.run.Some? && t.run.value.counted == s.run.value.counted + 1
            && t.progress == t.run.value.done == s.run.value.done + |s.run.value.batches[s.run.value.counted]|
  {
  }

  /** In every state: a run that has counted a batch has its total in the progress file, and counts no refused batch. */
  ghost predicate Written(s: State) {
    s.run.Some? ==>
      var r := s.run.value;
      && (r.counted > 0 ==> s.progress == r.done)
      && r.counted <= |r.sent| && forall k :: 0 <= k < r.counted ==> r.sent[k].Confirmed?
  }

  lemma StepWrites(s: State, step: Step)
    requires Written(s)
    ensures Written(Take(s, step))
  {
  }

  lemma {:induction false} ProgressIsWritten(ids: seq<string>, steps: seq<Step>)
    ensures Written(After(Fresh(ids), steps))
  {
    if steps != [] {
      ProgressIsWritten(ids, steps[..|steps| - 1]);
      StepWrites(After(Fresh(ids), steps[..|steps| - 1]), steps[|steps| - 1]);
    }
  }

  /** Wherever a run was stopped, the next one begins at what it had counted. */
  lemma ResumesAfterStop(s: State, size: int, batches: seq<seq<string>>)
    requires CanStart(s.(run := None), size, false, batches)
    ensures var t := Take(Take(s, Stop), Start(size, false, batches));
            t.run.Some? && t.run.value.from == s.progress && t.deleted == s.deleted
  {
  }

  predicate RefusedAt(s: State, k: nat) {
    s.run.Some? && k < |s.run.value.sent| && s.run.value.sent[k].Refused?
  }

  lemma StaysRefused(s: State, step: Step, k: nat)
    requires RefusedAt(s, k) && !step.Stop?
    ensures RefusedAt(Take(s, step), k)
  {
  }

  /** A refused batch is never counted, nor any after it, as long as the run lasts. */
  lemma {:induction false} RefusalHolds(ids: seq<string>, before: seq<Step>, k: nat, later: seq<Step>)
    requires var s := After(Fresh(ids), before);
             s.run.Some? && k < |s.run.value.sent| && s.run.value.sent[k].Waiting?
    requires Stop !in later
    ensures var s := After(Fresh(ids), before + [Refuse(k)] + later);
            RefusedAt(s, k) && s.run.value.counted <= k
  {
    var steps := before + [Refuse(k)] + later;
    if later == [] {
      assert steps == before + [Refuse(k)];
      RunSnoc(Fresh(ids), before, Refuse(k));
    } else {
      var front, last := later[..|later| - 1], later[|later| - 1];
      assert last in later && Stop !in front;
      assert steps == before + [Refuse(k)] + front + [last];
      RefusalHolds(ids, before, k, front);
      RunSnoc(Fresh(ids), before + [Refuse(k)] + front, last);
      StaysRefused(After(Fresh(ids), before + [Refuse(k)] + front), last, k);
    }
    ProgressIsWritten(ids, steps);
  }

  lemma RunSnoc(s: State, steps: seq<Step>, step: Step)
    ensures After(s, steps + [step]) == Take(After(s, steps), step)
  {
    assert (steps + [step])[..|steps|] == steps;
  }

  /** The first `n` batches, each sent, confirmed and counted. */
  function Worked(n: nat): seq<Step> {
    if n == 0 then [] else Worked(n - 1) + [Confirm(n - 1)] + [Count]
  }

  /** A run of these batches from `from`, with the first `n` counted and the rest still to be sent. */
  ghost predicate AtBatch(s: State, ids: seq<string>, from: nat, batches: seq<seq<string>>, n: nat) {
    && s.ids == ids && n <= |batches| && s.run.Some?
    && var r := s.run.value;
       && r.from == from && r.batches == batches && r.counted == n && r.done == from + |Flatten(batches[..n])|
       && |r.sent| == |batches| && (forall k :: n <= k < |batches| ==> r.sent[k].Waiting?)
  }

  lemma ConfirmAndCount(s: State, ids: seq<string>, from: nat, batches: seq<seq<string>>, n: nat)
    requires AtBatch(s, ids, from, batches, n) && n < |batches|
    ensures var t := Take(Take(s, Confirm(n)), Count);
            AtBatch(t, ids, from, batches, n + 1) && t.progress == t.run.value.done
  {
    assert batches[..n + 1][..n] == batches[..n];
    assert NextConfirmed(Take(s, Confirm(n)).run.value);
  }

  lemma {:induction false} WorkGoesOn(s: State, ids: seq<string>, from: nat, batches: seq<seq<string>>, n: nat)
    requires AtBatch(s, ids, from, batches, 0) && n <= |batches|
    ensures AtBatch(After(s, Worked(n)), ids, from, batches, n)
    ensures n > 0 ==> After(s, Worked(n)).progress == After(s, Worked(n)).run.value.done
  {
    if n > 0 {
      WorkGoesOn(s, ids, from, batches, n - 1);
      RunSnoc(s, Worked(n - 1), Confirm(n - 1));
      RunSnoc(s, Worked(n - 1) + [Confirm(n - 1)], Count);
      ConfirmAndCount(After(s, Worked(n - 1)), ids, from, batches, n - 1);
    }
  }

  lemma {:induction false} WorkKeeps(s: State, n: nat)
    requires Sound(s)
    ensures Sound(After(s, Worked(n)))
  {
    if n > 0 {
      WorkKeeps(s, n - 1);
      RunSnoc(s, Worked(n - 1), Confirm(n - 1));
      RunSnoc(s, Worked(n - 1) + [Confirm(n - 1)], Count);
      StepKeeps(After(s, Worked(n - 1)), Confirm(n - 1));
      StepKeeps(After(s, Worked(n - 1) + [Confirm(n - 1)]), Count);
    }
  }

  /** A run over the rest of the file can start, and stands before its first batch. */
  lemma WholeRunBegins(s: State, size: int, restart: bool, from: nat, all: seq<seq<string>>)
    requires Sound(s) && s.run.None? && from == (if restart then 0 else s.progress)
    requires from <= |s.ids| && Batching(all, s.ids, from, size)
    ensures var begun := Take(s, Start(size, restart, all));
            Sound(begun) && AtBatch(begun, s.ids, from, all, 0)
  {
    assert all <= all;
    assert CanStart(s, size, restart, all);
    StartsAtProgress(s, size, restart, all);
    StartKeeps(s, size, restart, all);
    assert all[..0] == [];
  }

  lemma CountedToTheEnd(s: State, ids: seq<string>, from: nat, all: seq<seq<string>>)
    requires AtBatch(s, ids, from, all, |all|) && from <= |ids| && Flatten(all) == ids[from..]
    ensures s.run.value.done == |ids|
  {
    assert all[..|all|] == all;
  }

  lemma WorkFinishes(begun: State, ids: seq<string>, from: nat, all: seq<seq<string>>)
    requires Sound(begun) && AtBatch(begun, ids, from, all, 0) && from <= |ids| && Flatten(all) == ids[from..]
    ensures var t := After(begun, Worked(|all|));
            && Sound(t) && t.ids == ids && t.run.Some? && t.run.value.done == |ids|
            && (all != [] ==> t.progress == |ids|)
  {
    WorkGoesOn(begun, ids, from, all, |all|);
    WorkKeeps(begun, |all|);
    CountedToTheEnd(After(begun, Worked(|all|)), ids, from, all);
  }

  lemma {:induction false} RunJoin(s: State, a: seq<Step>, b: seq<Step>)
    ensures After(s, a + b) == After(After(s, a), b)
  {
    if b == [] {
      assert a + b == a;
    } else {
      assert (a + b)[..|a + b| - 1] == a + b[..|b| - 1];
      RunJoin(s, a, b[..|b| - 1]);
    }
  }

  /**
    Nothing stands in the way of finishing: from any state between two runs, a run over the rest of the file
    whose batches are all confirmed ends with every id counted and, with those counted before, deleted.
   */
  lemma RunFinishes(ids: seq<string>, before: seq<Step>, size: int, restart: bool, all: seq<seq<string>>)
    requires var s := After(Fresh(ids), before);
             var from := if restart then 0 else s.progress;
             s.run.None? && from <= |ids| && Batching(all, ids, from, size)
    ensures var t := After(Fresh(ids), before + [Start(size, restart, all)] + Worked(|all|));
            && t.run.Some? && t.run.value.done == |ids| && (all != [] ==> t.progress == |ids|)
            && forall i :: i in ids ==> i in t.deleted
  {
    ProgressIsDeleted(ids, before);
    var s := After(Fresh(ids), before);
    var from := if restart then 0 else s.progress;
    WholeRunBegins(s, size, restart, from, all);
    WorkFinishes(Take(s, Start(size, restart, all)), ids, from, all);
    RunSnoc(Fresh(ids), before, Start(size, restart, all));
    RunJoin(Fresh(ids), before + [Start(size, restart, all)], Worked(|all|));
  }

  /** A run that was given the whole rest of the file and has counted all of it has deleted every id. */
  lemma WholeRunDeletesAll(ids: seq<string>, steps: seq<Step>)
    ensures var s := After(Fresh(ids), steps);
            s.run.Some? && s.run.value.counted == |s.run.value.batches| && s.run.value.from <= |ids|
            && Flatten(s.run.value.batches) == ids[s.run.value.from..]
            ==> forall i :: i in ids ==> i in s.deleted
  {
    ProgressIsDeleted(ids, steps);
    var s := After(Fresh(ids), steps);
    if s.run.Some? && s.run.value.counted == |s.run.value.batches| {
      assert s.run.value.batches[..s.run.value.counted] == s.run.value.batches;
    }
  }
}
