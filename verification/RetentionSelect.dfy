/** `select`: where the range starts, walking every window once across interrupted runs, assembling the id file. */
module RetentionSelect {
  import opened Wrappers
  import opened Sets
  import opened RetentionWalk
  import opened RetentionWindows
  import opened Calendar

  // ----- The lower bound

  /** 1980-01-01, in seconds from the start of year 1: dates before it are placeholders and are never selected. */
  const FLOOR: nat := 62451129600

  /** The range starts at the hour of the oldest hit, asked for with a limit of one. */
  function LowerBound(page: seq<Entry>): Option<int> {
    var hits := Hits(page);
    if hits == [] then None else Some(hits[0].at - hits[0].at % HOUR)
  }

  /** The documents a selection started from that probe goes on to list. */
  function Found(index: Index, page: seq<Entry>, cutoff: int): set<Entry> {
    match LowerBound(page)
    case None => {}
    case Some(lo) => Readable(index, lo, cutoff)
  }

  lemma OneHit(page: seq<Entry>)
    requires |page| == 1
    ensures Hits(page) == if page[0].readable then page else []
  {
  }

  lemma ProbedFloor(index: Index, cutoff: int, oldest: int, lo: int)
    requires FLOOR <= oldest && lo == oldest - oldest % HOUR
    requires forall e :: e in Within(index, FLOOR, cutoff) ==> oldest <= e.at
    ensures Readable(index, lo, cutoff) == Readable(index, FLOOR, cutoff)
  {
  }

  /**
    The probe loses nothing exactly when the entry it is answered with still has its body, or there was
    nothing to find: one body-less entry at the old end of the range makes `select` report that there
    is nothing older than the cutoff.
   */
  lemma ProbeFindsAll(index: Index, cutoff: int, page: seq<Entry>)
    requires IsPage(index, FLOOR, cutoff, 1, page)
    ensures Found(index, page, cutoff) == Readable(index, FLOOR, cutoff)
            <==> page == [] || page[0].readable || Readable(index, FLOOR, cutoff) == {}
  {
    if page == [] {
      ShortPageIsAll(index, FLOOR, cutoff, 1, page);
    } else {
      OneHit(page);
      assert page[0] in page;
      if page[0].readable {
        ProbedFloor(index, cutoff, page[0].at, page[0].at - page[0].at % HOUR);
      }
    }
  }

  /** Two entries are enough: an unpurged deletion in front of a live document hides it. */
  lemma ProbeMissesDocument()
    ensures var dead := Entry(0, Some("a"), FLOOR, false, false);
            var live := Entry(1, Some("b"), FLOOR + 1, true, false);
            && IsPage({dead, live}, FLOOR, FLOOR + 2, 1, [dead])
            && LowerBound([dead]).None?
            && Readable({dead, live}, FLOOR, FLOOR + 2) == {live}
  {
    var dead := Entry(0, Some("a"), FLOOR, false, false);
    var live := Entry(1, Some("b"), FLOOR + 1, true, false);
    assert Within({dead, live}, FLOOR, FLOOR + 2) == {dead, live};
    assert Hits([dead]) == [];
  }

  // ----- Sizes

  lemma {:induction false} NamesSize(docs: set<Entry>)
    requires Keyed(docs) && forall e :: e in docs ==> e.id.Some?
    ensures |set e | e in docs :: e.id.value| == |docs|
  {
    if docs != {} {
      var e := Pick(docs);
      var rest := docs - {e};
      NamesSize(rest);
      assert (set d | d in docs :: d.id.value) == (set d | d in rest :: d.id.value) + {e.id.value};
      assert e.id.value !in (set d | d in rest :: d.id.value);
    }
  }

  lemma ListsSize(ids: seq<string>, docs: set<Entry>)
    requires Lists(ids, docs) && Keyed(docs)
    ensures |ids| == |docs|
  {
    DistinctSize(ids);
    NamesSize(docs);
    assert Elements(ids) == set e | e in docs :: e.id.value;
  }

  // ----- Assembly

  function Concat(files: seq<seq<string>>): seq<string> {
    if files == [] then [] else Concat(files[..|files| - 1]) + files[|files| - 1]
  }

  /** The readable documents that fall into the first `k` windows. */
  function ReadableIn(index: Index, ws: seq<Window>, k: nat): set<Entry>
    requires k <= |ws|
  {
    if k == 0 then {} else ReadableIn(index, ws, k - 1) + Readable(index, ws[k - 1].lo, ws[k - 1].hi)
  }

  lemma {:induction false} ReadableInAt(index: Index, ws: seq<Window>, k: nat, e: Entry)
    requires k <= |ws|
    ensures e in ReadableIn(index, ws, k) <==> exists i :: 0 <= i < k && e in Readable(index, ws[i].lo, ws[i].hi)
  {
    if k > 0 {
      ReadableInAt(index, ws, k - 1, e);
      assert e in Readable(index, ws[k - 1].lo, ws[k - 1].hi) ==> 0 <= k - 1 < k;
    }
  }

  lemma WindowsHoldAll(index: Index, lo: int, hi: int, maxDocs: int, ws: seq<Window>)
    requires Partition(index, lo, hi, maxDocs, ws)
    ensures ReadableIn(index, ws, |ws|) == Readable(index, lo, hi)
  {
    forall e | e in ReadableIn(index, ws, |ws|)
      ensures e in Readable(index, lo, hi)
    {
      ReadableInAt(index, ws, |ws|, e);
    }
    forall e | e in Readable(index, lo, hi)
      ensures e in ReadableIn(index, ws, |ws|)
    {
      var w :| w in ws && w.lo <= e.at < w.hi;
      var i :| 0 <= i < |ws| && ws[i] == w;
      assert e in Readable(index, ws[i].lo, ws[i].hi);
      ReadableInAt(index, ws, |ws|, e);
    }
  }

  ghost predicate FilesList(index: Index, ws: seq<Window>, files: seq<seq<string>>) {
    |files| == |ws| && forall i :: 0 <= i < |ws| ==> Lists(files[i], Readable(index, ws[i].lo, ws[i].hi))
  }

  /** No document is in two of the windows. */
  ghost predicate Apart(index: Index, ws: seq<Window>) {
    forall i, j :: 0 <= i < j < |ws| ==> Readable(index, ws[i].lo, ws[i].hi) !! Readable(index, ws[j].lo, ws[j].hi)
  }

  lemma {:induction false} ConcatLists(index: Index, ws: seq<Window>, files: seq<seq<string>>, k: nat)
    requires Apart(index, ws) && FilesList(index, ws, files) && k <= |ws| && Keyed(ReadableIn(index, ws, k))
    ensures Lists(Concat(files[..k]), ReadableIn(index, ws, k))
  {
    if k > 0 {
      ConcatLists(index, ws, files, k - 1);
      assert files[..k][..k - 1] == files[..k - 1];
      var before, here := ReadableIn(index, ws, k - 1), Readable(index, ws[k - 1].lo, ws[k - 1].hi);
      forall e | e in before
        ensures e !in here
      {
        ReadableInAt(index, ws, k - 1, e);
      }
      ListsJoin(Concat(files[..k - 1]), before, files[k - 1], here);
    }
  }

  /** Part files that each list their own window assemble into a list of the whole range, every document once. */
  lemma AssembledLists(index: Index, lo: int, hi: int, maxDocs: int, ws: seq<Window>, files: seq<seq<string>>)
    requires Partition(index, lo, hi, maxDocs, ws) && FilesList(index, ws, files)
    requires Keyed(Readable(index, lo, hi))
    ensures Lists(Concat(files), Readable(index, lo, hi))
  {
    WindowsHoldAll(index, lo, hi, maxDocs, ws);
    ConcatLists(index, ws, files, |ws|);
    assert files[..|ws|] == files;
  }

  // ----- Part files kept from a run with other windows

  lemma {:induction false} InConcat(files: seq<seq<string>>, i: string)
    requires i in Concat(files)
    ensures exists j :: 0 <= j < |files| && i in files[j]
  {
    if files != [] && i !in files[|files| - 1] {
      InConcat(files[..|files| - 1], i);
      var j :| 0 <= j < |files| - 1 && i in files[..|files| - 1][j];
      assert i in files[j];
    }
  }

  lemma {:induction false} ConcatHas(files: seq<seq<string>>, j: nat, i: string)
    requires j < |files| && i in files[j]
    ensures i in Concat(files)
  {
    if j < |files| - 1 {
      ConcatHas(files[..|files| - 1], j, i);
    }
  }

  /** An id in two files is in the assembled file twice. */
  lemma {:induction false} ConcatApart(files: seq<seq<string>>, a: nat, b: nat, i: string)
    requires a < b < |files| && i in files[a] && i in files[b]
    ensures !Distinct(Concat(files))
  {
    var front, last := files[..|files| - 1], files[|files| - 1];
    if b < |files| - 1 {
      ConcatApart(front, a, b, i);
      var x, y :| 0 <= x < y < |Concat(front)| && Concat(front)[x] == Concat(front)[y];
      assert Concat(files)[x] == Concat(files)[y];
    } else {
      ConcatHas(front, a, i);
      var x :| 0 <= x < |Concat(front)| && Concat(front)[x] == i;
      var y :| 0 <= y < |last| && last[y] == i;
      assert Concat(files)[x] == Concat(files)[|Concat(front)| + y];
    }
  }

  function Bodies(index: Index): set<Entry> {
    set e | e in index && e.readable
  }

  lemma {:induction false} ReadableInBodies(index: Index, ws: seq<Window>, k: nat)
    requires k <= |ws|
    ensures ReadableIn(index, ws, k) <= Bodies(index)
  {
    if k > 0 {
      ReadableInBodies(index, ws, k - 1);
    }
  }

  /** A complete assembled file was walked over stretches that share no document and hold them all. */
  lemma ListedOnce(index: Index, docs: set<Entry>, vs: seq<Window>, files: seq<seq<string>>)
    requires FilesList(index, vs, files) && Keyed(Bodies(index)) && docs <= Bodies(index)
    requires Lists(Concat(files), docs)
    ensures Apart(index, vs) && ReadableIn(index, vs, |vs|) == docs
  {
    forall a, b, e | 0 <= a < b < |vs| && e in Readable(index, vs[a].lo, vs[a].hi)
      ensures e !in Readable(index, vs[b].lo, vs[b].hi)
    {
      if e in Readable(index, vs[b].lo, vs[b].hi) {
        ConcatApart(files, a, b, e.id.value);
        assert false;
      }
    }
    forall e | e in ReadableIn(index, vs, |vs|)
      ensures e in docs
    {
      ReadableInAt(index, vs, |vs|, e);
      var a :| 0 <= a < |vs| && e in Readable(index, vs[a].lo, vs[a].hi);
      ConcatHas(files, a, e.id.value);
      var f :| f in docs && f.id == e.id;
      assert e in Bodies(index) && f in Bodies(index);
    }
    forall e | e in docs
      ensures e in ReadableIn(index, vs, |vs|)
    {
      InConcat(files, e.id.value);
      var a :| 0 <= a < |files| && e.id.value in files[a];
      var f :| f in Readable(index, vs[a].lo, vs[a].hi) && f.id == e.id;
      assert e in Bodies(index) && f in Bodies(index);
      ReadableInAt(index, vs, |vs|, e);
    }
  }

  /**
    A `.done` marker is found by its window's start alone, so the part files may have been walked for other
    windows `vs` with the same starts. The assembled file is right if and only if those share no document
    and hold together the documents of the range.
   */
  lemma KeptFilesExact(index: Index, lo: int, hi: int, vs: seq<Window>, files: seq<seq<string>>)
    requires FilesList(index, vs, files) && Keyed(Bodies(index))
    ensures Lists(Concat(files), Readable(index, lo, hi))
            <==> Apart(index, vs) && ReadableIn(index, vs, |vs|) == Readable(index, lo, hi)
  {
    if Lists(Concat(files), Readable(index, lo, hi)) {
      ListedOnce(index, Readable(index, lo, hi), vs, files);
    }
    if Apart(index, vs) && ReadableIn(index, vs, |vs|) == Readable(index, lo, hi) {
      ReadableInBodies(index, vs, |vs|);
      ConcatLists(index, vs, files, |vs|);
      assert files[..|vs|] == files;
    }
  }

  /** Part files kept by start time, each walked up to `ends[i]` in an earlier run. */
  ghost predicate KeptFiles(index: Index, ws: seq<Window>, ends: seq<int>, files: seq<seq<string>>) {
    && |files| == |ws| == |ends|
    && (forall i :: 0 <= i < |ws| ==> ws[i].lo <= ends[i] <= ws[i].hi)
    && (forall i :: 0 <= i < |ws| ==> Lists(files[i], Readable(index, ws[i].lo, ends[i])))
  }

  lemma ListedBeforeEnd(index: Index, lo: int, hi: int, ws: seq<Window>, ends: seq<int>, files: seq<seq<string>>,
                        e: Entry)
    requires InSequence(ws, lo, hi) && KeptFiles(index, ws, ends, files) && Keyed(Readable(index, lo, hi))
    requires e in Readable(index, lo, hi) && e.id.Some? && e.id.value in Concat(files)
    ensures exists j :: 0 <= j < |ws| && ws[j].lo <= e.at < ends[j]
  {
    InConcat(files, e.id.value);
    var j :| 0 <= j < |files| && e.id.value in files[j];
    var f :| f in Readable(index, ws[j].lo, ends[j]) && f.id == e.id;
    assert f in Readable(index, lo, hi);
  }

  lemma GapHidesDocument(index: Index, lo: int, hi: int, ws: seq<Window>, ends: seq<int>, files: seq<seq<string>>,
                         i: nat, e: Entry)
    requires InSequence(ws, lo, hi) && KeptFiles(index, ws, ends, files) && Keyed(Readable(index, lo, hi))
    requires i < |ws| && e in Readable(index, ends[i], ws[i].hi)
    ensures e in Readable(index, lo, hi) && (e.id.Some? ==> e.id.value !in Concat(files))
  {
    if e.id.Some? && e.id.value in Concat(files) {
      ListedBeforeEnd(index, lo, hi, ws, ends, files, e);
    }
  }

  /**
    Reusing a marker whose window ended earlier is harmless exactly when no document lies in the stretch
    the earlier window left out; the check for more ids than counted never notices.
   */
  lemma KeptFilesComplete(index: Index, lo: int, hi: int, maxDocs: int, ws: seq<Window>, ends: seq<int>,
                          files: seq<seq<string>>)
    requires Partition(index, lo, hi, maxDocs, ws) && KeptFiles(index, ws, ends, files)
    requires Keyed(Readable(index, lo, hi))
    ensures Lists(Concat(files), Readable(index, lo, hi))
            <==> forall i :: 0 <= i < |ws| ==> Readable(index, ends[i], ws[i].hi) == {}
    ensures forall i :: 0 <= i < |ws| ==> |files[i]| <= ws[i].n
  {
    if forall i :: 0 <= i < |ws| ==> Readable(index, ends[i], ws[i].hi) == {} {
      forall i | 0 <= i < |ws|
        ensures Lists(files[i], Readable(index, ws[i].lo, ws[i].hi))
      {
        var gap := Readable(index, ends[i], ws[i].hi);
        assert gap == {};
        assert Readable(index, ws[i].lo, ws[i].hi) == Readable(index, ws[i].lo, ends[i]) + gap;
      }
      AssembledLists(index, lo, hi, maxDocs, ws, files);
    } else {
      var i :| 0 <= i < |ws| && Readable(index, ends[i], ws[i].hi) != {};
      var e := Pick(Readable(index, ends[i], ws[i].hi));
      GapHidesDocument(index, lo, hi, ws, ends, files, i, e);
    }
    forall i | 0 <= i < |ws|
      ensures |files[i]| <= ws[i].n
    {
      NeverTooMany(index, lo, hi, maxDocs, ws[i], ends[i], files[i]);
    }
  }

  lemma NeverTooMany(index: Index, lo: int, hi: int, maxDocs: int, w: Window, end: int, ids: seq<string>)
    requires RightSize(index, w, maxDocs) && lo <= w.lo && end <= w.hi <= hi && Keyed(Readable(index, lo, hi))
    requires Lists(ids, Readable(index, w.lo, end))
    ensures |ids| <= w.n
  {
    var docs := Readable(index, w.lo, end);
    assert docs <= Readable(index, lo, hi);
    ListsSize(ids, docs);
    SubsetSize(docs, Within(index, w.lo, w.hi));
  }

  // ----- Part files of windows that ended later

  /** Part files kept by start time, each walked as far as its window goes or further. */
  ghost predicate LongerFiles(index: Index, ws: seq<Window>, vs: seq<Window>, files: seq<seq<string>>) {
    && |vs| == |ws| && FilesList(index, vs, files)
    && forall i :: 0 <= i < |ws| ==> vs[i].lo == ws[i].lo && ws[i].hi <= vs[i].hi
  }

  lemma CoveredBy(ws: seq<Window>, entries: set<Entry>, e: Entry) returns (j: nat)
    requires Covers(ws, entries) && e in entries
    ensures j < |ws| && ws[j].lo <= e.at < ws[j].hi
  {
    var w :| w in ws && w.lo <= e.at < w.hi;
    j :| 0 <= j < |ws| && ws[j] == w;
  }

  lemma InTwoWindows(index: Index, vs: seq<Window>, i: nat, j: nat, e: Entry)
    requires i < j < |vs| && e in Readable(index, vs[i].lo, vs[i].hi) && e in Readable(index, vs[j].lo, vs[j].hi)
    ensures !Apart(index, vs)
  {
    assert !(Readable(index, vs[i].lo, vs[i].hi) !! Readable(index, vs[j].lo, vs[j].hi));
  }

  /** A document of the range beyond its file's window is in another window, and so in another file. */
  lemma OtherWindow(index: Index, docs: set<Entry>, ws: seq<Window>, vs: seq<Window>, i: nat, e: Entry)
    requires Covers(ws, docs) && |vs| == |ws| && i < |ws| && ws[i].lo <= ws[i].hi
    requires forall k :: 0 <= k < |ws| ==> vs[k].lo == ws[k].lo && ws[k].hi <= vs[k].hi
    requires e in Readable(index, ws[i].hi, vs[i].hi) && e in docs
    ensures !Apart(index, vs)
  {
    var j := CoveredBy(ws, docs, e);
    if i < j {
      InTwoWindows(index, vs, i, j, e);
    } else {
      InTwoWindows(index, vs, j, i, e);
    }
  }

  lemma StretchIsRead(index: Index, ws: seq<Window>, vs: seq<Window>, i: nat, e: Entry)
    requires i < |ws| == |vs| && vs[i].lo == ws[i].lo <= ws[i].hi && e in Readable(index, ws[i].hi, vs[i].hi)
    ensures e in ReadableIn(index, vs, |vs|)
  {
    ReadableInAt(index, vs, |vs|, e);
    assert e in Readable(index, vs[i].lo, vs[i].hi);
  }

  lemma StretchListedTwice(index: Index, lo: int, hi: int, maxDocs: int, ws: seq<Window>, vs: seq<Window>,
                           files: seq<seq<string>>, i: nat, e: Entry)
    requires Partition(index, lo, hi, maxDocs, ws) && LongerFiles(index, ws, vs, files) && Keyed(Bodies(index))
    requires i < |ws| && e in Readable(index, ws[i].hi, vs[i].hi)
    ensures !Lists(Concat(files), Readable(index, lo, hi))
  {
    assert ws[i].lo < ws[i].hi;
    if Lists(Concat(files), Readable(index, lo, hi)) {
      ListedOnce(index, Readable(index, lo, hi), vs, files);
      StretchIsRead(index, ws, vs, i, e);
      OtherWindow(index, Within(index, lo, hi), ws, vs, i, e);
      assert false;
    }
  }

  /** Reusing markers whose windows ended later is harmless exactly when no document lies beyond the window. */
  lemma LongerFilesComplete(index: Index, lo: int, hi: int, maxDocs: int, ws: seq<Window>, vs: seq<Window>,
                            files: seq<seq<string>>)
    requires Partition(index, lo, hi, maxDocs, ws) && LongerFiles(index, ws, vs, files) && Keyed(Bodies(index))
    ensures Lists(Concat(files), Readable(index, lo, hi))
            <==> forall i :: 0 <= i < |ws| ==> Readable(index, ws[i].hi, vs[i].hi) == {}
  {
    if forall i :: 0 <= i < |ws| ==> Readable(index, ws[i].hi, vs[i].hi) == {} {
      forall i | 0 <= i < |ws|
        ensures Lists(files[i], Readable(index, ws[i].lo, ws[i].hi))
      {
        var beyond := Readable(index, ws[i].hi, vs[i].hi);
        assert beyond == {};
        assert Readable(index, vs[i].lo, vs[i].hi) == Readable(index, ws[i].lo, ws[i].hi) + beyond;
      }
      assert Readable(index, lo, hi) <= Bodies(index);
      AssembledLists(index, lo, hi, maxDocs, ws, files);
    } else {
      var i :| 0 <= i < |ws| && Readable(index, ws[i].hi, vs[i].hi) != {};
      var e := Pick(Readable(index, ws[i].hi, vs[i].hi));
      StretchListedTwice(index, lo, hi, maxDocs, ws, vs, files, i, e);
    }
  }

  /**
    The check for more ids than counted notices such a file exactly when the documents beyond its window
    outnumber the window's entries without a body; up to there the repetition passes in silence.
   */
  lemma LongerFileNoticed(index: Index, w: Window, end: int, ids: seq<string>)
    requires w.lo <= w.hi <= end && w.n == Count(index, w.lo, w.hi) && Keyed(Bodies(index))
    requires Lists(ids, Readable(index, w.lo, end))
    ensures |ids| > w.n
            <==> |Readable(index, w.hi, end)| > |Within(index, w.lo, w.hi) - Readable(index, w.lo, w.hi)|
  {
    var here, beyond, all := Readable(index, w.lo, w.hi), Readable(index, w.hi, end), Readable(index, w.lo, end);
    assert all == here + beyond && here !! beyond;
    assert all <= Bodies(index);
    ListsSize(ids, all);
    assert here <= Within(index, w.lo, w.hi);
    assert |Within(index, w.lo, w.hi) - here| == w.n - |here|;
  }

  // ----- A real pair of runs

  function Noon(): int {
    FLOOR + 43200
  }

  /** Two documents two hours apart. */
  function TwoDocuments(): (Entry, Entry) {
    (Entry(0, Some("a"), Noon(), true, false), Entry(1, Some("b"), Noon() + 7200, true, false))
  }

  lemma TwoDocumentsWithin(lo: int, hi: int)
    ensures var (a, b) := TwoDocuments();
            Within({a, b}, lo, hi) == (if lo <= a.at < hi then {a} else {}) + (if lo <= b.at < hi then {b} else {})
  {
  }

  /** The windows of four hours from the first: at a limit of one, and at a limit of two. */
  lemma TwoDocumentsSplit()
    ensures var (a, b) := TwoDocuments();
            var count := CountIn({a, b});
            && Split(count, a.at, a.at + 14400, 1) == [Window(a.at, b.at, 1)] + [Window(b.at, a.at + 14400, 1)]
            && Split(count, a.at, a.at + 14400, 2) == [Window(a.at, a.at + 14400, 2)]
  {
    var (a, b) := TwoDocuments();
    var count, lo, mid, hi := CountIn({a, b}), a.at, b.at, a.at + 14400;
    TwoDocumentsWithin(lo, hi);
    TwoDocumentsWithin(lo, mid);
    TwoDocumentsWithin(mid, hi);
    assert {a} + {b} == {a, b} && {a} + {} == {a} && {} + {b} == {b} && |{a, b}| == 2;
    assert count(lo, hi) == 2 && count(lo, mid) == 1 && count(mid, hi) == 1;
    assert lo + (hi - lo) / 2 == mid;
    assert Split(count, lo, mid, 1) == [Window(lo, mid, 1)] && Split(count, mid, hi, 1) == [Window(mid, hi, 1)];
  }

  /**
    Selected at a limit of one document a window, then again at two: the second run finds the first one's
    marker at its only window's start, keeps the file, and the later document is gone without a word.
   */
  lemma MarkerLosesDocument()
    ensures var (a, b) := TwoDocuments();
            var first, whole := Window(a.at, b.at, 1), Window(a.at, a.at + 14400, 2);
            && Split(CountIn({a, b}), whole.lo, whole.hi, 1) == [first] + [Window(b.at, whole.hi, 1)]
            && Split(CountIn({a, b}), whole.lo, whole.hi, 2) == [whole]
            && Keyed({a, b}) && Lists(["a"], Readable({a, b}, first.lo, first.hi)) && |["a"]| <= whole.n
            && !Lists(["a"], Readable({a, b}, whole.lo, whole.hi))
  {
    var (a, b) := TwoDocuments();
    TwoDocumentsSplit();
    TwoDocumentsWithin(a.at, b.at);
    TwoDocumentsWithin(a.at, a.at + 14400);
    assert Readable({a, b}, a.at, b.at) == {a};
    assert b in Readable({a, b}, a.at, a.at + 14400);
    assert "b" !in ["a"];
  }

  /** Two documents two hours apart and, a second after the first, an entry without a body. */
  function ThreeEntries(): (Entry, Entry, Entry) {
    var (a, b) := TwoDocuments();
    (a, Entry(2, Some("g"), Noon() + 1, false, false), b)
  }

  lemma ThreeEntriesWithin(lo: int, hi: int)
    ensures var (a, g, b) := ThreeEntries();
            Within({a, g, b}, lo, hi) == (if lo <= a.at < hi then {a} else {}) + (if lo <= g.at < hi then {g} else {})
                                         + (if lo <= b.at < hi then {b} else {})
  {
  }

  /** The windows of four hours from the first: at a limit of three, and at a limit of two. */
  lemma ThreeEntriesSplit()
    ensures var (a, g, b) := ThreeEntries();
            var count := CountIn({a, g, b});
            && Split(count, a.at, a.at + 14400, 3) == [Window(a.at, a.at + 14400, 3)]
            && Split(count, a.at, a.at + 14400, 2) == [Window(a.at, b.at, 2)] + [Window(b.at, a.at + 14400, 1)]
  {
    var (a, g, b) := ThreeEntries();
    var count, lo, mid, hi := CountIn({a, g, b}), a.at, b.at, a.at + 14400;
    ThreeEntriesWithin(lo, hi);
    ThreeEntriesWithin(lo, mid);
    ThreeEntriesWithin(mid, hi);
    assert {a} + {g} + {b} == {a, g, b} && {a} + {g} + {} == {a, g} && {} + {} + {b} == {b};
    assert |{a, g}| == 2 && |{a, g, b}| == 3;
    assert count(lo, hi) == 3 && count(lo, mid) == 2 && count(mid, hi) == 1;
    assert lo + (hi - lo) / 2 == mid;
    assert Split(count, lo, mid, 2) == [Window(lo, mid, 2)] && Split(count, mid, hi, 2) == [Window(mid, hi, 1)];
  }

  lemma ConcatTwo(one: seq<string>, two: seq<string>)
    ensures Concat([one] + [two]) == one + two
  {
    assert ([one] + [two])[..1] == [one] && [one][..0] == [];
    assert Concat([one]) == [] + one;
  }

  /**
    Selected at a limit of three entries a window, then again at two: the second run keeps the first one's
    file for its first window, walks its second, and assembles a document twice. The kept file holds no more
    ids than its window counts, so the check says nothing.
   */
  lemma MarkerRepeatsDocument()
    ensures var (a, g, b) := ThreeEntries();
            var index, whole := {a, g, b}, Window(a.at, a.at + 14400, 3);
            var first, second := Window(a.at, b.at, 2), Window(b.at, whole.hi, 1);
            && Split(CountIn(index), whole.lo, whole.hi, 3) == [whole]
            && Split(CountIn(index), whole.lo, whole.hi, 2) == [first] + [second]
            && Keyed(index) && Lists(["a", "b"], Readable(index, whole.lo, whole.hi)) && |["a", "b"]| <= first.n
            && Lists(["b"], Readable(index, second.lo, second.hi)) && |["b"]| <= second.n
            && Concat([["a", "b"]] + [["b"]]) == ["a", "b", "b"]
            && !Lists(["a", "b", "b"], Readable(index, whole.lo, whole.hi))
  {
    var (a, g, b) := ThreeEntries();
    ThreeEntriesSplit();
    ThreeEntriesWithin(a.at, a.at + 14400);
    ThreeEntriesWithin(b.at, a.at + 14400);
    assert Readable({a, g, b}, a.at, a.at + 14400) == {a, b};
    assert Readable({a, g, b}, b.at, a.at + 14400) == {b};
    ConcatTwo(["a", "b"], ["b"]);
    assert ["a", "b"] + ["b"] == ["a", "b", "b"];
    assert ["a", "b", "b"][1] == ["a", "b", "b"][2];
  }

  // ----- Walking the windows

  datatype Selection = Stopped(error: WalkError) | Mismatch | Written(ids: seq<string>)

  /** Every kept part file whose start is a window of `ws` lists that window. */
  ghost predicate PartsMatch(index: Index, ws: seq<Window>, parts: map<int, seq<string>>) {
    forall w :: w in ws && w.lo in parts ==> Lists(parts[w.lo], Readable(index, w.lo, w.hi))
  }

  lemma PartAdded(index: Index, lo: int, hi: int, ws: seq<Window>, w: Window, parts: map<int, seq<string>>,
                  ids: seq<string>)
    requires InSequence(ws, lo, hi) && w in ws && PartsMatch(index, ws, parts)
    requires Lists(ids, Readable(index, w.lo, w.hi))
    ensures PartsMatch(index, ws, parts[w.lo := ids])
  {
  }

  /**
    Nothing of the range stops a walk, whatever the server: every document is named, and the range does not
    fill a page, or its documents have one date each and are spread out, or all its entries are plain and no
    second is crowded.
   */
  ghost predicate Walkable(index: Index, lo: int, hi: int) {
    && AllNamed(Readable(index, lo, hi))
    && (|| Count(index, lo, hi) < PAGE
        || (SingleDated(Readable(index, lo, hi)) && SpreadOut(index, lo, hi))
        || (Plain(Within(index, lo, hi)) && NoCrowdedSecond(index, lo, hi)))
  }

  lemma WalkablePart(index: Index, lo: int, hi: int, a: int, b: int)
    requires Walkable(index, lo, hi) && lo <= a && b <= hi
    ensures Walkable(index, a, b)
  {
    assert Within(index, a, b) <= Within(index, lo, hi);
    SubsetSize(Within(index, a, b), Within(index, lo, hi));
    assert Readable(index, a, b) <= Readable(index, lo, hi);
  }

  lemma WalkableWindows(index: Index, lo: int, hi: int, ws: seq<Window>)
    requires Walkable(index, lo, hi) && InSequence(ws, lo, hi)
    ensures forall w :: w in ws ==> Walkable(index, w.lo, w.hi)
  {
    forall w | w in ws
      ensures Walkable(index, w.lo, w.hi)
    {
      var i :| 0 <= i < |ws| && ws[i] == w;
      WalkablePart(index, lo, hi, w.lo, w.hi);
    }
  }

  /** The whole range is named when each window is. */
  lemma NamedInWindows(index: Index, lo: int, hi: int, maxDocs: int, ws: seq<Window>)
    requires Partition(index, lo, hi, maxDocs, ws)
    ensures AllNamed(Readable(index, lo, hi)) <==> forall w :: w in ws ==> AllNamed(Readable(index, w.lo, w.hi))
  {
    forall w | w in ws
      ensures Readable(index, w.lo, w.hi) <= Readable(index, lo, hi)
    {
      var i :| 0 <= i < |ws| && ws[i] == w;
    }
    if forall w :: w in ws ==> AllNamed(Readable(index, w.lo, w.hi)) {
      forall e | e in Readable(index, lo, hi)
        ensures e.id.Some?
      {
        var w :| w in ws && w.lo <= e.at < w.hi;
        assert e in Readable(index, w.lo, w.hi);
      }
    }
  }

  /** One window's work: keep the part file a finished run left, or walk the window and leave one. */
  method WorkWindow(ghost index: Index, server: (int, nat, int) -> seq<Entry>, ghost lo: int, ghost hi: int,
                    ghost ws: seq<Window>, w: Window, kept: map<int, seq<string>>)
    returns (r: Result<seq<string>, WalkError>, parts: map<int, seq<string>>)
    requires InSequence(ws, lo, hi) && w in ws && Keyed(Readable(index, lo, hi)) && PartsMatch(index, ws, kept)
    requires forall end, k, cur :: IsPage(index, cur, end, PAGE, server(end, k, cur))
    ensures PartsMatch(index, ws, parts)
    ensures r.Ok? ==> Lists(r.value, Readable(index, w.lo, w.hi)) && w.lo in parts && parts[w.lo] == r.value
    ensures parts == kept || (w.lo !in kept && r.Ok? && parts == kept[w.lo := r.value])
    ensures w.lo in kept || Walkable(index, w.lo, w.hi) ==> r.Ok?
    ensures r.Ok? ==> AllNamed(Readable(index, w.lo, w.hi))
  {
    parts := kept;
    if w.lo in kept {
      return Ok(kept[w.lo]), kept;
    }
    assert Readable(index, w.lo, w.hi) <= Readable(index, lo, hi);
    r := FetchWindow(index, (n: nat, cur: int) => server(w.hi, n, cur), w.lo, w.hi);
    if r.Ok? {
      PartAdded(index, lo, hi, ws, w, kept, r.value);
      parts := kept[w.lo := r.value];
    }
  }

  lemma SelectionComplete(index: Index, lo: int, hi: int, maxDocs: int, ws: seq<Window>, files: seq<seq<string>>)
    requires Partition(index, lo, hi, maxDocs, ws) && FilesList(index, ws, files) && Keyed(Readable(index, lo, hi))
    ensures Lists(Concat(files), Readable(index, lo, hi))
    ensures |Concat(files)| + |Within(index, lo, hi) - Readable(index, lo, hi)| == Total(ws)
    ensures forall k :: 0 <= k < |ws| ==> |files[k]| <= ws[k].n
  {
    AssembledLists(index, lo, hi, maxDocs, ws, files);
    ListsSize(Concat(files), Readable(index, lo, hi));
    forall k | 0 <= k < |ws|
      ensures |files[k]| <= ws[k].n
    {
      NeverTooMany(index, lo, hi, maxDocs, ws[k], ws[k].hi, files[k]);
    }
  }

  method WorkWindows(ghost index: Index, server: (int, nat, int) -> seq<Entry>, ghost lo: int, ghost hi: int,
                     ws: seq<Window>, kept: map<int, seq<string>>)
    returns (r: Result<seq<seq<string>>, WalkError>, parts: map<int, seq<string>>)
    requires InSequence(ws, lo, hi) && Keyed(Readable(index, lo, hi)) && PartsMatch(index, ws, kept)
    requires forall end, k, cur :: IsPage(index, cur, end, PAGE, server(end, k, cur))
    ensures PartsMatch(index, ws, parts) && forall s :: s in kept ==> s in parts && parts[s] == kept[s]
    ensures r.Ok? ==> FilesList(index, ws, r.value)
    ensures (forall w :: w in ws ==> w.lo in kept || Walkable(index, w.lo, w.hi)) ==> r.Ok?
    ensures r.Ok? ==> forall w :: w in ws ==> AllNamed(Readable(index, w.lo, w.hi))
  {
    parts := kept;
    var files: seq<seq<string>> := [];
    for k := 0 to |ws|
      invariant PartsMatch(index, ws, parts) && forall s :: s in kept ==> s in parts && parts[s] == kept[s]
      invariant |files| == k
      invariant forall i :: 0 <= i < k ==> Lists(files[i], Readable(index, ws[i].lo, ws[i].hi))
      invariant forall i :: 0 <= i < k ==> AllNamed(Readable(index, ws[i].lo, ws[i].hi))
    {
      assert ws[k] in ws;
      var worked;
      worked, parts := WorkWindow(index, server, lo, hi, ws, ws[k], parts);
      if worked.Err? {
        return Err(worked.error), parts;
      }
      files := files + [worked.value];
    }
    return Ok(files), parts;
  }

  /**
    One run over a fixed window list, starting from the part files earlier runs left behind. Whatever
    stops it, the part files it leaves can be resumed from; a run that ends writes every readable
    document once, and the entries without a body make up the difference to the count. The check for
    more ids than counted never fires on an index that holds still.
   */
  method SelectWindows(ghost index: Index, server: (int, nat, int) -> seq<Entry>, ghost lo: int, ghost hi: int,
                       ghost maxDocs: int, ws: seq<Window>, kept: map<int, seq<string>>)
    returns (r: Selection, parts: map<int, seq<string>>)
    requires Partition(index, lo, hi, maxDocs, ws) && Keyed(Readable(index, lo, hi)) && PartsMatch(index, ws, kept)
    requires forall end, k, cur :: IsPage(index, cur, end, PAGE, server(end, k, cur))
    ensures PartsMatch(index, ws, parts) && forall s :: s in kept ==> s in parts && parts[s] == kept[s]
    ensures r.Written? ==> Lists(r.ids, Readable(index, lo, hi))
    ensures r.Written? ==> |r.ids| + |Within(index, lo, hi) - Readable(index, lo, hi)| == Total(ws)
    ensures !r.Mismatch?
    ensures (forall w :: w in ws ==> w.lo in kept || Walkable(index, w.lo, w.hi)) ==> r.Written?
    ensures (forall w :: w in ws ==> w.n < PAGE) ==> (r.Written? <==> AllNamed(Readable(index, lo, hi)))
  {
    NamedInWindows(index, lo, hi, maxDocs, ws);
    var worked;
    worked, parts := WorkWindows(index, server, lo, hi, ws, kept);
    if worked.Err? {
      return Stopped(worked.error), parts;
    }
    var files := worked.value;
    SelectionComplete(index, lo, hi, maxDocs, ws, files);
    r := if exists k :: 0 <= k < |ws| && |files[k]| > ws[k].n then Mismatch else Written(Concat(files));
  }

  /** Nothing to start from; a start but nothing counted from there on; a run. */
  datatype Outcome = NothingOlder | NothingCounted(lo: int) | Ran(lo: int, selection: Selection)

  /** Where the range starts: an explicit bound, or the hour of the oldest hit the probe is answered with. */
  function RangeStart(newerThan: Option<nat>, probe: seq<Entry>): Option<int> {
    if newerThan.Some? then Some(newerThan.value) else LowerBound(probe)
  }

  method SelectRange(index: Index, server: (int, nat, int) -> seq<Entry>, lo: nat, hi: int, maxDocs: int,
                     kept: map<int, seq<string>>)
    returns (r: Selection, parts: map<int, seq<string>>)
    requires forall end, k, cur :: IsPage(index, cur, end, PAGE, server(end, k, cur))
    requires Keyed(Readable(index, lo, hi)) && PartsMatch(index, Windows(index, lo, hi, maxDocs), kept)
    ensures PartsMatch(index, Windows(index, lo, hi, maxDocs), parts)
    ensures forall s :: s in kept ==> s in parts && parts[s] == kept[s]
    ensures !r.Mismatch?
    ensures r.Written? ==>
              && Lists(r.ids, Readable(index, lo, hi))
              && |r.ids| + |Within(index, lo, hi) - Readable(index, lo, hi)| == Count(index, lo, hi)
    ensures Walkable(index, lo, hi) ==> r.Written?
    ensures (forall w :: w in Windows(index, lo, hi, maxDocs) ==> w.n < PAGE) ==>
              (r.Written? <==> AllNamed(Readable(index, lo, hi)))
  {
    var ws := BuildWindows(index, lo, hi, maxDocs);
    if Walkable(index, lo, hi) {
      WalkableWindows(index, lo, hi, ws);
    }
    r, parts := SelectWindows(index, server, lo, hi, maxDocs, ws, kept);
  }

  /** A run of these arguments may go on from these part files. */
  ghost predicate Resumable(index: Index, lo: Option<int>, cutoff: int, maxDocs: int, parts: map<int, seq<string>>) {
    lo.Some? && lo.value >= 0 ==> PartsMatch(index, Windows(index, lo.value, cutoff, maxDocs), parts)
  }

  /** An empty folder always will do. */
  lemma EmptyResumes(index: Index, lo: Option<int>, cutoff: int, maxDocs: int)
    ensures Resumable(index, lo, cutoff, maxDocs, map[])
  {
  }

  /** The hour a probe found is that of its one entry. */
  lemma ProbeHit(index: Index, cutoff: int, probe: seq<Entry>) returns (at: int)
    requires IsPage(index, FLOOR, cutoff, 1, probe) && LowerBound(probe).Some?
    ensures |probe| == 1 && at == probe[0].at && LowerBound(probe) == Some(at - at % HOUR)
  {
    assert |probe| <= 1;
    OneHit(probe);
    at := probe[0].at;
  }

  lemma ProbedOldest(index: Index, cutoff: int, probe: seq<Entry>, other: seq<Entry>)
    requires IsPage(index, FLOOR, cutoff, 1, probe) && IsPage(index, FLOOR, cutoff, 1, other)
    requires |probe| == 1 && |other| == 1
    ensures probe[0].at <= other[0].at
  {
    assert probe[0] in probe && other[0] in other;
    assert other[0] in Within(index, FLOOR, cutoff);
  }

  /** Two probes of one index that both find a start find the same one, however they break ties. */
  lemma SameStart(index: Index, cutoff: int, newerThan: Option<nat>, probe: seq<Entry>, other: seq<Entry>)
    requires IsPage(index, FLOOR, cutoff, 1, probe) && IsPage(index, FLOOR, cutoff, 1, other)
    requires RangeStart(newerThan, probe).Some? && RangeStart(newerThan, other).Some?
    ensures RangeStart(newerThan, probe) == RangeStart(newerThan, other)
  {
    if newerThan.None? {
      var a := ProbeHit(index, cutoff, probe);
      var b := ProbeHit(index, cutoff, other);
      ProbedOldest(index, cutoff, probe, other);
      ProbedOldest(index, cutoff, other, probe);
      assert a == b;
    }
  }

  /**
    A whole `select`, on part files that earlier runs of the same arguments may have left. Where it writes,
    the file lists every readable document from the range's start to the cutoff once. However it ends, it
    has kept every part file it found, and what it leaves can be resumed from by the next such run.
   */
  method Select(index: Index, server: (int, nat, int) -> seq<Entry>, probe: seq<Entry>, newerThan: Option<nat>,
                cutoff: int, maxDocs: int, kept: map<int, seq<string>>)
    returns (r: Outcome, parts: map<int, seq<string>>)
    requires IsPage(index, FLOOR, cutoff, 1, probe)
    requires forall end, k, cur :: IsPage(index, cur, end, PAGE, server(end, k, cur))
    requires Keyed(Bodies(index)) && Resumable(index, RangeStart(newerThan, probe), cutoff, maxDocs, kept)
    ensures Resumable(index, RangeStart(newerThan, probe), cutoff, maxDocs, parts)
    ensures forall s :: s in kept ==> s in parts && parts[s] == kept[s]
    ensures r.NothingOlder? <==> RangeStart(newerThan, probe).None?
    ensures !r.NothingOlder? ==> Some(r.lo) == RangeStart(newerThan, probe)
    ensures r.NothingCounted? <==>
              RangeStart(newerThan, probe).Some? && Count(index, RangeStart(newerThan, probe).value, cutoff) == 0
    ensures !r.Ran? ==> parts == kept
    ensures r.Ran? ==> !r.selection.Mismatch?
    ensures r.Ran? && r.selection.Written? ==>
              && Lists(r.selection.ids, Readable(index, r.lo, cutoff))
              && |r.selection.ids| + |Within(index, r.lo, cutoff) - Readable(index, r.lo, cutoff)|
                 == Count(index, r.lo, cutoff)
    ensures r.Ran? && Walkable(index, r.lo, cutoff) ==> r.selection.Written?
    ensures r.Ran? && r.lo >= 0 && (forall w :: w in Windows(index, r.lo, cutoff, maxDocs) ==> w.n < PAGE) ==>
              (r.selection.Written? <==> AllNamed(Readable(index, r.lo, cutoff)))
  {
    parts := kept;
    if newerThan.None? && Hits(probe) == [] {
      return NothingOlder, parts;
    }
    var lo := RangeStart(newerThan, probe).value;
    if Count(index, lo, cutoff) == 0 {
      return NothingCounted(lo), parts;
    }
    RangeStartIsDate(index, cutoff, newerThan, probe);
    var selection;
    selection, parts := SelectRange(index, server, lo, cutoff, maxDocs, kept);
    r := Ran(lo, selection);
  }

  lemma RangeStartIsDate(index: Index, cutoff: int, newerThan: Option<nat>, probe: seq<Entry>)
    requires IsPage(index, FLOOR, cutoff, 1, probe) && RangeStart(newerThan, probe).Some?
    ensures 0 <= RangeStart(newerThan, probe).value
  {
    if newerThan.None? {
      assert Hits(probe)[0] in probe;
    }
  }

  /**
    Two runs of the same arguments, answered by different servers with different probes: the second goes on
    from what the first left, if it finds anything to do, and keeps all of it.
   */
  method SelectTwice(index: Index, server: (int, nat, int) -> seq<Entry>, probe: seq<Entry>,
                     server2: (int, nat, int) -> seq<Entry>, probe2: seq<Entry>, newerThan: Option<nat>, cutoff: int,
                     maxDocs: int)
    returns (first: Outcome, left: map<int, seq<string>>, r: Outcome, parts: map<int, seq<string>>)
    requires IsPage(index, FLOOR, cutoff, 1, probe) && IsPage(index, FLOOR, cutoff, 1, probe2)
    requires forall end, k, cur :: IsPage(index, cur, end, PAGE, server(end, k, cur))
    requires forall end, k, cur :: IsPage(index, cur, end, PAGE, server2(end, k, cur))
    requires Keyed(Bodies(index))
    ensures forall s :: s in left ==> s in parts && parts[s] == left[s]
    ensures r.Ran? && r.selection.Written? ==> Lists(r.selection.ids, Readable(index, r.lo, cutoff))
  {
    EmptyResumes(index, RangeStart(newerThan, probe), cutoff, maxDocs);
    first, left := Select(index, server, probe, newerThan, cutoff, maxDocs, map[]);
    if RangeStart(newerThan, probe).Some? && RangeStart(newerThan, probe2).Some? {
      SameStart(index, cutoff, newerThan, probe, probe2);
    }
    r, parts := Select(index, server2, probe2, newerThan, cutoff, maxDocs, left);
  }
}
