/** The rotating audit file: `audit.jsonl`, then `.1`, `.2` and on, newest first, the oldest discarded. */
module AuditFiles {
  import opened Wrappers
  import opened Sets

  /** A rendered line, one character for each of its bytes. */
  type Text = string

  type File = seq<Text>

  /** Every line ends in a newline. */
  function Size(file: File): nat {
    if file == [] then 0 else Size(file[..|file| - 1]) + |file[|file| - 1]| + 1
  }

  lemma SizeSnoc(file: File, line: Text)
    ensures Size(file + [line]) == Size(file) + |line| + 1
  {
  }

  /** A rotated file reached the limit with its last line and not before: it exceeds it by less than that line. */
  predicate Filled(maxBytes: nat, file: File) {
    file != [] && Size(file) >= maxBytes && Size(file[..|file| - 1]) < maxBytes
  }

  /**
    `files[i]` is the file numbered `i + 1`. `log`: every line written. `rotations`: every file ever
    rotated, newest first, had none been discarded.
   */
  datatype State = State(
    maxBytes: nat,
    maxFiles: nat,
    files: seq<File>,
    active: File,
    log: seq<Text>,
    rotations: seq<File>)

  datatype Step = Write(line: Text) | Reopen(maxFiles: nat)

  function AtLeastOne(n: nat): nat {
    if n == 0 then 1 else n
  }

  /** An empty folder, opened. */
  function Opened(maxBytes: nat, maxFiles: nat): State {
    State(maxBytes, AtLeastOne(maxFiles), [], [], [], [])
  }

  /** The numbers below `n` move up by one, over the file numbered `n`; the active file becomes the first. */
  function Shifted(files: seq<File>, active: File, n: nat): seq<File>
    requires n >= 1
  {
    if |files| < n then [active] + files else [active] + files[..n - 1] + files[n..]
  }

  function Rotated(s: State): State
    requires s.maxFiles >= 1
  {
    s.(files := Shifted(s.files, s.active, s.maxFiles), active := [], rotations := [s.active] + s.rotations)
  }

  function Take(s: State, step: Step): State
    requires s.maxFiles >= 1
  {
    match step
    case Write(line) =>
      var after := s.(active := s.active + [line], log := s.log + [line]);
      if Size(after.active) >= s.maxBytes then Rotated(after) else after
    case Reopen(maxFiles) => s.(maxFiles := AtLeastOne(maxFiles))
  }

  function After(maxBytes: nat, maxFiles: nat, steps: seq<Step>): (s: State)
    ensures s.maxFiles >= 1
  {
    if steps == [] then Opened(maxBytes, maxFiles)
    else Take(After(maxBytes, maxFiles, steps[..|steps| - 1]), steps[|steps| - 1])
  }

  // ----- Reading the trail back

  /** The rotated files, oldest first. */
  function Read(files: seq<File>): seq<Text> {
    if files == [] then [] else Read(files[1..]) + files[0]
  }

  /** The oldest file through `.1`, then the active one. */
  function Reading(s: State): seq<Text> {
    Read(s.files) + s.active
  }

  predicate IsSuffix(part: seq<Text>, whole: seq<Text>) {
    |part| <= |whole| && part == whole[|whole| - |part|..]
  }

  ghost predicate AllFilled(maxBytes: nat, files: seq<File>) {
    forall file :: file in files ==> Filled(maxBytes, file)
  }

  /** The files are the newest of all that were rotated, and the log is all of them read. */
  ghost predicate Sound(s: State) {
    && s.maxFiles >= 1
    && s.maxBytes > 0
    && s.files <= s.rotations
    && s.log == Read(s.rotations) + s.active
    && AllFilled(s.maxBytes, s.rotations)
    && Size(s.active) < s.maxBytes
  }

  lemma {:induction false} ReadJoin(newer: seq<File>, older: seq<File>)
    ensures Read(newer + older) == Read(older) + Read(newer)
  {
    if newer == [] {
      assert newer + older == older;
    } else {
      assert (newer + older)[1..] == newer[1..] + older;
      ReadJoin(newer[1..], older);
    }
  }

  lemma ReadCons(file: File, older: seq<File>)
    ensures Read([file] + older) == Read(older) + file
  {
  }

  /** What is read back is a suffix of what was written, in order and with nothing twice. */
  lemma SoundReadsSuffix(s: State)
    requires Sound(s)
    ensures IsSuffix(Reading(s), s.log)
  {
    var older := s.rotations[|s.files|..];
    assert s.rotations == s.files + older;
    ReadJoin(s.files, older);
    assert s.log == Read(older) + Reading(s);
  }

  lemma RotateKeeps(s: State)
    requires s.maxFiles >= 1 && s.maxBytes > 0 && s.files <= s.rotations && |s.files| <= s.maxFiles
    requires s.log == Read(s.rotations) + s.active
    requires AllFilled(s.maxBytes, s.rotations) && Filled(s.maxBytes, s.active)
    ensures Sound(Rotated(s)) && |Rotated(s).files| <= s.maxFiles
  {
    ReadCons(s.active, s.rotations);
    var after := Rotated(s);
    assert after.log == Read(after.rotations) + after.active;
    assert after.files <= after.rotations;
  }

  /** The line fills the active file. */
  predicate Fills(s: State, line: Text) {
    Size(s.active + [line]) >= s.maxBytes
  }

  lemma WriteKeeps(s: State, line: Text)
    requires Sound(s) && (Fills(s, line) ==> |s.files| <= s.maxFiles)
    ensures Sound(Take(s, Write(line)))
  {
    var after := s.(active := s.active + [line], log := s.log + [line]);
    assert after.active[..|s.active|] == s.active;
    assert after.log == Read(s.rotations) + after.active;
    if Fills(s, line) {
      RotateKeeps(after);
    }
  }

  /** A rotation finds no file numbered above those to keep. */
  predicate Roomy(s: State, step: Step) {
    step.Write? && Fills(s, step.line) ==> |s.files| <= s.maxFiles
  }

  predicate AllRoomy(maxBytes: nat, maxFiles: nat, steps: seq<Step>) {
    steps == []
    || (AllRoomy(maxBytes, maxFiles, steps[..|steps| - 1])
        && Roomy(After(maxBytes, maxFiles, steps[..|steps| - 1]), steps[|steps| - 1]))
  }

  /**
    From an empty folder, over every run of writes and restarts in which each rotation finds room: what is
    read back is a suffix of all lines written, and each rotated file was filled by its last line.
   */
  lemma {:induction false} TrailIsSuffix(maxBytes: nat, maxFiles: nat, steps: seq<Step>)
    requires maxBytes > 0 && AllRoomy(maxBytes, maxFiles, steps)
    ensures var s := After(maxBytes, maxFiles, steps);
      Sound(s) && IsSuffix(Reading(s), s.log) && s.maxBytes == maxBytes && AllFilled(maxBytes, s.files)
  {
    if steps == [] {
      assert Sound(Opened(maxBytes, maxFiles));
    } else {
      var s, step := After(maxBytes, maxFiles, steps[..|steps| - 1]), steps[|steps| - 1];
      TrailIsSuffix(maxBytes, maxFiles, steps[..|steps| - 1]);
      if step.Write? {
        WriteKeeps(s, step.line);
      }
    }
    SoundReadsSuffix(After(maxBytes, maxFiles, steps));
  }

  /** A restart never lowers the number of files below those that exist. */
  predicate NeverLowered(maxBytes: nat, maxFiles: nat, steps: seq<Step>) {
    steps == []
    || (var front, last := steps[..|steps| - 1], steps[|steps| - 1];
        && NeverLowered(maxBytes, maxFiles, front)
        && (last.Reopen? ==> |After(maxBytes, maxFiles, front).files| <= AtLeastOne(last.maxFiles)))
  }

  /** Then every rotation finds room, and no more files exist than are to be kept. */
  lemma {:induction false} FilesAreBounded(maxBytes: nat, maxFiles: nat, steps: seq<Step>)
    requires maxBytes > 0 && NeverLowered(maxBytes, maxFiles, steps)
    ensures AllRoomy(maxBytes, maxFiles, steps)
    ensures |After(maxBytes, maxFiles, steps).files| <= After(maxBytes, maxFiles, steps).maxFiles
  {
    if steps != [] {
      FilesAreBounded(maxBytes, maxFiles, steps[..|steps| - 1]);
    }
  }

  /** Nothing is discarded early: without a restart, the files are the newest `maxFiles` ever rotated. */
  lemma {:induction false} NewestAreKept(maxBytes: nat, maxFiles: nat, steps: seq<Step>)
    requires maxBytes > 0 && forall step :: step in steps ==> step.Write?
    ensures var s := After(maxBytes, maxFiles, steps);
      s.maxFiles == AtLeastOne(maxFiles)
      && s.files == if |s.rotations| <= s.maxFiles then s.rotations else s.rotations[..s.maxFiles]
  {
    if steps != [] {
      NewestAreKept(maxBytes, maxFiles, steps[..|steps| - 1]);
    }
  }

  // ----- A restart that keeps fewer files

  /** Rotating with more files than are to be kept leaves out the file in the middle, and reads on past it. */
  lemma LoweredSkips(s: State)
    requires 1 <= s.maxFiles < |s.files|
    ensures Reading(Rotated(s)) == Read(s.files[s.maxFiles..]) + Read(s.files[..s.maxFiles - 1]) + s.active
    ensures Reading(s)
      == Read(s.files[s.maxFiles..]) + s.files[s.maxFiles - 1] + Read(s.files[..s.maxFiles - 1]) + s.active
  {
    var n := s.maxFiles;
    var newer, gone, older := s.files[..n - 1], s.files[n - 1], s.files[n..];
    assert s.files == newer + ([gone] + older);
    ReadJoin(newer, [gone] + older);
    ReadCons(gone, older);
    assert [s.active] + newer + older == [s.active] + (newer + older);
    ReadCons(s.active, newer + older);
    ReadJoin(newer, older);
  }

  /** A suffix that leaves `gone` out would have to end its older part as `gone` ends. */
  lemma SuffixAligns(before: seq<Text>, older: seq<Text>, gone: seq<Text>, rest: seq<Text>)
    requires older != [] && gone != [] && IsSuffix(older + rest, before + older + gone + rest)
    ensures older[|older| - 1] == gone[|gone| - 1]
  {
    var part, whole := older + rest, before + older + gone + rest;
    assert part[|older| - 1] == whole[|whole| - |part|..][|older| - 1];
    assert whole[|before| + |older| + |gone| - 1] == gone[|gone| - 1];
  }

  lemma EndsDiffer(before: seq<Text>, older: seq<Text>, gone: seq<Text>, rest: seq<Text>)
    requires older != [] && gone != [] && Distinct(before + older + gone + rest)
    ensures older[|older| - 1] != gone[|gone| - 1]
  {
    var whole := before + older + gone + rest;
    assert whole[|before| + |older| - 1] == older[|older| - 1];
    assert whole[|before| + |older| + |gone| - 1] == gone[|gone| - 1];
  }

  /** Two parts with something between them left out do not make a suffix, when no line repeats. */
  lemma GapIsNoSuffix(before: seq<Text>, older: seq<Text>, gone: seq<Text>, rest: seq<Text>)
    requires older != [] && gone != [] && Distinct(before + older + gone + rest)
    ensures !IsSuffix(older + rest, before + older + gone + rest)
  {
    EndsDiffer(before, older, gone, rest);
    if IsSuffix(older + rest, before + older + gone + rest) {
      SuffixAligns(before, older, gone, rest);
      assert false;
    }
  }

  /** The log, cut around the file that the rotation discards. */
  lemma LogAround(s: State)
    requires 1 <= s.maxFiles < |s.files| && s.files <= s.rotations && s.log == Read(s.rotations) + s.active
    ensures s.log == Read(s.rotations[|s.files|..]) + Read(s.files[s.maxFiles..]) + s.files[s.maxFiles - 1]
      + (Read(s.files[..s.maxFiles - 1]) + s.active)
  {
    var oldest := s.rotations[|s.files|..];
    assert s.rotations == s.files + oldest;
    ReadJoin(s.files, oldest);
    assert s.log == Read(oldest) + Reading(s);
    LoweredSkips(s);
  }

  /**
    With no line repeated, the rotation after a restart reads back a suffix if and only if no file is
    numbered above the restart's `maxFiles`.
   */
  lemma RestartKeepsSuffix(s: State, maxFiles: nat)
    requires maxFiles >= 1 && s.maxBytes > 0 && s.files <= s.rotations
    requires s.log == Read(s.rotations) + s.active && Distinct(s.log)
    requires AllFilled(s.maxBytes, s.rotations) && Filled(s.maxBytes, s.active)
    ensures IsSuffix(Reading(Rotated(s.(maxFiles := maxFiles))), s.log) <==> |s.files| <= maxFiles
  {
    var restarted := s.(maxFiles := maxFiles);
    if |s.files| <= maxFiles {
      RotateKeeps(restarted);
      SoundReadsSuffix(Rotated(restarted));
    } else {
      LoweredBreaks(restarted);
    }
  }

  lemma LoweredBreaks(s: State)
    requires 1 <= s.maxFiles < |s.files| && s.files <= s.rotations
    requires s.log == Read(s.rotations) + s.active && Distinct(s.log)
    requires AllFilled(s.maxBytes, s.rotations)
    ensures !IsSuffix(Reading(Rotated(s)), s.log)
  {
    var older, gone, rest := s.files[s.maxFiles..], s.files[s.maxFiles - 1], Read(s.files[..s.maxFiles - 1]) + s.active;
    assert gone == s.rotations[s.maxFiles - 1];
    assert Filled(s.maxBytes, gone);
    assert older[0] == s.rotations[s.maxFiles];
    assert Filled(s.maxBytes, older[0]);
    LogAround(s);
    LoweredSkips(s);
    assert Reading(Rotated(s)) == Read(older) + rest;
    GapIsNoSuffix(Read(s.rotations[|s.files|..]), Read(older), gone, rest);
  }

  lemma RunSnoc(maxBytes: nat, maxFiles: nat, steps: seq<Step>, step: Step)
    ensures After(maxBytes, maxFiles, steps + [step]) == Take(After(maxBytes, maxFiles, steps), step)
  {
    assert (steps + [step])[..|steps|] == steps;
  }

  /** Writing a line to an empty file that it fills. */
  lemma WriteFills(s: State, line: Text)
    requires s.maxFiles >= 1 && s.active == [] && s.maxBytes <= |line| + 1
    ensures Take(s, Write(line)) == Rotated(s.(active := [line], log := s.log + [line]))
  {
    assert s.active + [line] == [line];
    SizeSnoc([], line);
  }

  lemma TwoFilled(a: Text, b: Text)
    ensures After(1, 2, [Write(a)] + [Write(b)]) == State(1, 2, [[b], [a]], [], [a, b], [[b], [a]])
  {
    RunSnoc(1, 2, [], Write(a));
    assert [] + [Write(a)] == [Write(a)];
    WriteFills(Opened(1, 2), a);
    assert After(1, 2, [Write(a)]) == State(1, 2, [[a]], [], [a], [[a]]);
    RunSnoc(1, 2, [Write(a)], Write(b));
    WriteFills(State(1, 2, [[a]], [], [a], [[a]]), b);
  }

  lemma ReadTwo(newer: File, older: File)
    ensures Read([newer, older]) == older + newer
  {
    assert [newer, older] == [newer] + [older] && [older] == [older] + [];
    ReadCons(newer, [older]);
    ReadCons(older, []);
  }

  /** Two files kept, room for one: the rotation discards the newer of them. */
  lemma RotatedPastOne(s: State, a: Text, b: Text, c: Text)
    requires s.maxFiles == 1 && s.files == [[b], [a]] && s.active == [] && s.log == [a, b] && s.maxBytes <= |c| + 1
    ensures var after := Take(s, Write(c));
            after.files == [[c], [a]] && after.active == [] && after.log == [a, b, c]
  {
    WriteFills(s, c);
  }

  lemma MiddleIsMissing(s: State, a: Text, b: Text, c: Text)
    requires a != b && s.files == [[c], [a]] && s.active == [] && s.log == [a, b, c]
    ensures Reading(s) == [a, c] && !IsSuffix(Reading(s), s.log)
  {
    ReadTwo([c], [a]);
    assert s.log[1..] == [b, c];
  }

  /**
    Three lines, each filling a file, and a restart to one file before the third: the folder then reads back
    the first and the third.
   */
  lemma LoweredRestartLosesLine(a: Text, b: Text, c: Text)
    requires a != b
    ensures var s := After(1, 2, [Write(a)] + [Write(b)] + [Reopen(1)] + [Write(c)]);
            s.log == [a, b, c] && Reading(s) == [a, c] && !IsSuffix(Reading(s), s.log)
  {
    var steps := [Write(a)] + [Write(b)];
    TwoFilled(a, b);
    RunSnoc(1, 2, steps, Reopen(1));
    RunSnoc(1, 2, steps + [Reopen(1)], Write(c));
    RotatedPastOne(After(1, 2, steps + [Reopen(1)]), a, b, c);
    MiddleIsMissing(After(1, 2, steps + [Reopen(1)] + [Write(c)]), a, b, c);
  }

  // ----- Exactly the runs that read back a suffix

  lemma LogGrows(s: State, step: Step)
    requires s.maxFiles >= 1
    ensures s.log <= Take(s, step).log
  {
  }

  lemma DistinctPart(part: seq<Text>, whole: seq<Text>)
    requires part <= whole && Distinct(whole)
    ensures Distinct(part)
  {
  }

  lemma {:induction false} RoomyPrefix(maxBytes: nat, maxFiles: nat, steps: seq<Step>, k: nat)
    requires AllRoomy(maxBytes, maxFiles, steps) && k <= |steps|
    ensures AllRoomy(maxBytes, maxFiles, steps[..k])
  {
    if k == |steps| {
      assert steps[..k] == steps;
    } else {
      RoomyPrefix(maxBytes, maxFiles, steps[..|steps| - 1], k);
      assert steps[..|steps| - 1][..k] == steps[..k];
    }
  }

  ghost predicate AlwaysSuffix(maxBytes: nat, maxFiles: nat, steps: seq<Step>) {
    forall k :: 0 <= k <= |steps| ==>
      var s := After(maxBytes, maxFiles, steps[..k]);
      IsSuffix(Reading(s), s.log)
  }

  lemma CrowdedBreaks(s: State, line: Text)
    requires Sound(s) && Fills(s, line) && |s.files| > s.maxFiles && Distinct(s.log + [line])
    ensures var after := Take(s, Write(line));
            !IsSuffix(Reading(after), after.log)
  {
    var filled := s.(active := s.active + [line], log := s.log + [line]);
    assert filled.log == Read(s.rotations) + filled.active;
    LoweredBreaks(filled);
  }

  lemma {:induction false} SuffixNeedsRoom(maxBytes: nat, maxFiles: nat, steps: seq<Step>)
    requires maxBytes > 0 && Distinct(After(maxBytes, maxFiles, steps).log)
    requires AlwaysSuffix(maxBytes, maxFiles, steps)
    ensures AllRoomy(maxBytes, maxFiles, steps)
  {
    if steps != [] {
      var front, last := steps[..|steps| - 1], steps[|steps| - 1];
      var s := After(maxBytes, maxFiles, front);
      LogGrows(s, last);
      DistinctPart(s.log, Take(s, last).log);
      forall k | 0 <= k <= |front|
        ensures var s := After(maxBytes, maxFiles, front[..k]); IsSuffix(Reading(s), s.log)
      {
        assert front[..k] == steps[..k];
      }
      SuffixNeedsRoom(maxBytes, maxFiles, front);
      TrailIsSuffix(maxBytes, maxFiles, front);
      assert steps[..|steps|] == steps;
      if last.Write? && Fills(s, last.line) && |s.files| > s.maxFiles {
        CrowdedBreaks(s, last.line);
        assert false;
      }
    }
  }

  /**
    With no line repeated, a run reads back a suffix at every point if and only if each of its rotations
    found no file numbered above those to keep. A restart that lowers the number and is undone before the
    next rotation does no harm.
   */
  lemma SuffixIffRoomy(maxBytes: nat, maxFiles: nat, steps: seq<Step>)
    requires maxBytes > 0 && Distinct(After(maxBytes, maxFiles, steps).log)
    ensures AllRoomy(maxBytes, maxFiles, steps) <==> AlwaysSuffix(maxBytes, maxFiles, steps)
  {
    if AllRoomy(maxBytes, maxFiles, steps) {
      forall k | 0 <= k <= |steps|
        ensures var s := After(maxBytes, maxFiles, steps[..k]); IsSuffix(Reading(s), s.log)
      {
        RoomyPrefix(maxBytes, maxFiles, steps, k);
        TrailIsSuffix(maxBytes, maxFiles, steps[..k]);
      }
    }
    if AlwaysSuffix(maxBytes, maxFiles, steps) {
      SuffixNeedsRoom(maxBytes, maxFiles, steps);
    }
  }

  // ----- The file sink as it is written

  function Numbered(files: seq<File>, k: nat): Option<File> {
    if 1 <= k <= |files| then Some(files[k - 1]) else None
  }

  function At(numbered: map<nat, File>, k: nat): Option<File> {
    if k in numbered then Some(numbered[k]) else None
  }

  /** The folder's numbered files are these. */
  ghost predicate Holds(numbered: map<nat, File>, files: seq<File>) {
    forall k: nat :: At(numbered, k) == Numbered(files, k)
  }

  /** Where the renames stand: those numbered above `index` and below `n` have moved up by one. */
  function Expected(files: seq<File>, n: nat, index: nat, k: nat): Option<File> {
    if k <= index || k > n || k == index + 1 == n then Numbered(files, k)
    else if k == index + 1 then None
    else Numbered(files, k - 1)
  }

  ghost predicate Moved(numbered: map<nat, File>, files: seq<File>, n: nat, index: nat) {
    forall k: nat :: At(numbered, k) == Expected(files, n, index, k)
  }

  class FileSink {
    const maxBytes: nat
    const maxFiles: nat
    var numbered: map<nat, File>
    var active: File
    var written: nat
    ghost var files: seq<File>
    ghost var log: seq<Text>
    ghost var rotations: seq<File>

    ghost predicate Valid()
      reads this
    {
      maxFiles >= 1 && Holds(numbered, files) && written == Size(active)
    }

    ghost function View(): State
      reads this
    {
      State(maxBytes, maxFiles, files, active, log, rotations)
    }

    /** Opens what the folder holds and goes on appending. */
    constructor (maxBytes: nat, maxFiles: nat, numbered: map<nat, File>, active: File, ghost was: State)
      requires Holds(numbered, was.files) && active == was.active && was.maxFiles >= 1 && maxBytes == was.maxBytes
      ensures Valid() && View() == Take(was, Reopen(maxFiles))
    {
      this.maxBytes, this.maxFiles := maxBytes, AtLeastOne(maxFiles);
      this.numbered, this.active := numbered, active;
      written := Size(active);
      files, log, rotations := was.files, was.log, was.rotations;
    }

    method WriteLine(line: Text)
      requires Valid()
      modifies this
      ensures Valid() && View() == Take(old(View()), Write(line)) && log == old(log) + [line]
      ensures if old(written) + |line| + 1 >= maxBytes
              then active == [] && At(numbered, 1) == Some(old(active) + [line])
              else active == old(active) + [line] && numbered == old(numbered)
    {
      var longer := active + [line];
      assert Size(longer) == written + |line| + 1 by {
        SizeSnoc(active, line);
      }
      active, log := longer, log + [line];
      written := written + |line| + 1;
      if written >= maxBytes {
        Rotate();
      }
    }

    method Rotate()
      requires Valid()
      modifies this
      ensures Valid() && View() == Rotated(old(View()))
      ensures active == [] && At(numbered, 1) == Some(old(active))
      ensures forall k: nat :: 1 < k <= maxFiles ==> At(numbered, k) == At(old(numbered), k - 1)
      ensures forall k: nat :: k > maxFiles ==> At(numbered, k) == At(old(numbered), k)
    {
      ghost var shifted := Shifted(files, active, maxFiles);
      MoveUp();
      numbered := numbered[1 := active];
      assert Holds(numbered, shifted) by {
        forall k: nat
          ensures At(numbered, k) == Numbered(shifted, k)
        {
          assert At(old(numbered), k) == Numbered(files, k);
          ShiftedAt(files, active, maxFiles, k);
        }
      }
      files, rotations := shifted, [active] + rotations;
      active, written := [], 0;
    }

    method MoveUp()
      requires Valid()
      modifies this`numbered
      ensures Moved(numbered, files, maxFiles, 0)
    {
      var index := maxFiles - 1;
      assert Moved(numbered, files, maxFiles, index);
      while index >= 1
        invariant 0 <= index <= maxFiles - 1
        invariant Moved(numbered, files, maxFiles, index)
      {
        ghost var was := numbered;
        if index in numbered {
          numbered := numbered[index + 1 := numbered[index]] - {index};
        }
        OneMoved(was, numbered, files, maxFiles, index);
        index := index - 1;
      }
    }
  }

  lemma OneMoved(was: map<nat, File>, now: map<nat, File>, files: seq<File>, n: nat, index: nat)
    requires 1 <= index < n && Moved(was, files, n, index)
    requires now == if index in was then was[index + 1 := was[index]] - {index} else was
    ensures Moved(now, files, n, index - 1)
  {
    assert At(was, index) == Expected(files, n, index, index);
    forall k: nat
      ensures At(now, k) == Expected(files, n, index - 1, k)
    {
      assert At(was, k) == Expected(files, n, index, k);
    }
  }

  lemma ShiftedAt(files: seq<File>, active: File, n: nat, k: nat)
    requires n >= 1
    ensures Numbered(Shifted(files, active, n), k) == if k == 1 then Some(active) else Expected(files, n, 0, k)
  {
  }
}
