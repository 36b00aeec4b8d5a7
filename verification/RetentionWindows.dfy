/** Splitting the selected time range into windows: calendar months, bisected where they hold too much. */
module RetentionWindows {
  import opened RetentionWalk
  import opened Calendar

  // ----- Windows

  datatype Window = Window(lo: int, hi: int, n: nat)

  function Total(ws: seq<Window>): nat {
    if ws == [] then 0 else Total(ws[..|ws| - 1]) + ws[|ws| - 1].n
  }

  ghost predicate InSequence(ws: seq<Window>, lo: int, hi: int) {
    && (forall i :: 0 <= i < |ws| ==> lo <= ws[i].lo < ws[i].hi <= hi)
    && (forall i, j :: 0 <= i < j < |ws| ==> ws[i].hi <= ws[j].lo)
  }

  ghost predicate Covers(ws: seq<Window>, entries: set<Entry>) {
    forall e :: e in entries ==> exists w :: w in ws && w.lo <= e.at < w.hi
  }

  ghost predicate RightSize(index: Index, w: Window, maxDocs: int) {
    0 < w.n == Count(index, w.lo, w.hi) && (w.n <= maxDocs || w.hi - w.lo <= HOUR)
  }

  /** What the windows of `[lo, hi)` owe the walk: in order, apart, none empty or oversized, none missing. */
  ghost predicate Partition(index: Index, lo: int, hi: int, maxDocs: int, ws: seq<Window>) {
    && InSequence(ws, lo, hi)
    && (forall w :: w in ws ==> RightSize(index, w, maxDocs))
    && Covers(ws, Within(index, lo, hi))
    && Total(ws) == Count(index, lo, hi)
  }

  lemma {:induction false} TotalJoin(a: seq<Window>, b: seq<Window>)
    ensures Total(a + b) == Total(a) + Total(b)
  {
    if b == [] {
      assert a + b == a;
    } else {
      assert (a + b)[..|a + b| - 1] == a + b[..|b| - 1];
      TotalJoin(a, b[..|b| - 1]);
    }
  }

  lemma CountJoin(index: Index, lo: int, mid: int, hi: int)
    requires lo <= mid <= hi
    ensures Within(index, lo, hi) == Within(index, lo, mid) + Within(index, mid, hi)
    ensures Count(index, lo, hi) == Count(index, lo, mid) + Count(index, mid, hi)
  {
  }

  lemma InSequenceJoin(a: seq<Window>, b: seq<Window>, lo: int, mid: int, hi: int)
    requires lo <= mid <= hi && InSequence(a, lo, mid) && InSequence(b, mid, hi)
    ensures InSequence(a + b, lo, hi)
  {
  }

  lemma PartitionJoin(index: Index, lo: int, mid: int, hi: int, maxDocs: int, a: seq<Window>, b: seq<Window>)
    requires lo <= mid <= hi
    requires Partition(index, lo, mid, maxDocs, a) && Partition(index, mid, hi, maxDocs, b)
    ensures Partition(index, lo, hi, maxDocs, a + b)
  {
    InSequenceJoin(a, b, lo, mid, hi);
    TotalJoin(a, b);
    CountJoin(index, lo, mid, hi);
    forall e | e in Within(index, lo, hi)
      ensures exists w :: w in a + b && w.lo <= e.at < w.hi
    {
      if e in Within(index, lo, mid) {
        var w :| w in a && w.lo <= e.at < w.hi;
        assert w in a + b;
      } else {
        var w :| w in b && w.lo <= e.at < w.hi;
        assert w in a + b;
      }
    }
  }

  lemma NoEntries(index: Index, lo: int, hi: int, maxDocs: int)
    requires Count(index, lo, hi) == 0
    ensures Partition(index, lo, hi, maxDocs, [])
  {
  }

  lemma OneWindow(index: Index, lo: int, hi: int, maxDocs: int, w: Window)
    requires w.lo == lo && w.hi == hi && RightSize(index, w, maxDocs)
    ensures Partition(index, lo, hi, maxDocs, [w])
  {
  }

  /** Bisection: every count is one query. It splits any range, reversed or empty ones included. */
  function Split(count: (int, int) -> nat, lo: int, hi: int, maxDocs: int): seq<Window>
    decreases hi - lo
  {
    var n := count(lo, hi);
    if n == 0 then []
    else if n <= maxDocs || hi - lo <= HOUR then [Window(lo, hi, n)]
    else
      var mid := lo + (hi - lo) / 2;
      Split(count, lo, mid, maxDocs) + Split(count, mid, hi, maxDocs)
  }

  ghost predicate CountsAt(count: (int, int) -> nat, index: Index, lo: int, hi: int) {
    count(lo, hi) == Count(index, lo, hi)
  }

  /** `count` asks the server for the entries of a range. */
  ghost predicate IsCount(count: (int, int) -> nat, index: Index) {
    forall lo, hi :: CountsAt(count, index, lo, hi)
  }

  /** One level of the bisection. */
  ghost predicate SplitsInto(count: (int, int) -> nat, lo: int, mid: int, hi: int, maxDocs: int, ws: seq<Window>,
                             left: seq<Window>, right: seq<Window>)
  {
    var n := count(lo, hi);
    if n == 0 then ws == []
    else if n <= maxDocs || hi - lo <= HOUR then ws == [Window(lo, hi, n)]
    else lo < mid < hi && ws == left + right
  }

  lemma LevelPartitions(index: Index, count: (int, int) -> nat, lo: int, mid: int, hi: int, maxDocs: int,
                        ws: seq<Window>, left: seq<Window>, right: seq<Window>)
    requires IsCount(count, index) && SplitsInto(count, lo, mid, hi, maxDocs, ws, left, right)
    requires lo < mid < hi ==> Partition(index, lo, mid, maxDocs, left) && Partition(index, mid, hi, maxDocs, right)
    ensures Partition(index, lo, hi, maxDocs, ws)
  {
    assert CountsAt(count, index, lo, hi);
    var n := count(lo, hi);
    if n == 0 {
      NoEntries(index, lo, hi, maxDocs);
    } else if n <= maxDocs || hi - lo <= HOUR {
      NonEmptyRange(index, lo, hi);
      OneWindow(index, lo, hi, maxDocs, Window(lo, hi, n));
    } else {
      PartitionJoin(index, lo, mid, hi, maxDocs, left, right);
    }
  }

  lemma {:induction false} SplitPartitions(index: Index, count: (int, int) -> nat, lo: int, hi: int, maxDocs: int)
    requires IsCount(count, index)
    ensures Partition(index, lo, hi, maxDocs, Split(count, lo, hi, maxDocs))
    decreases hi - lo
  {
    var mid := lo + (hi - lo) / 2;
    if lo < mid < hi {
      SplitPartitions(index, count, lo, mid, maxDocs);
      SplitPartitions(index, count, mid, hi, maxDocs);
    }
    LevelPartitions(index, count, lo, mid, hi, maxDocs, Split(count, lo, hi, maxDocs), Split(count, lo, mid, maxDocs),
                    Split(count, mid, hi, maxDocs));
  }

  lemma NonEmptyRange(index: Index, lo: int, hi: int)
    requires Count(index, lo, hi) > 0
    ensures lo < hi
  {
    var e :| e in Within(index, lo, hi);
  }

  // ----- Month edges

  /** How many months from the k-th on start before `hi`. */
  function MonthCount(start: nat -> int, k: nat, hi: int): nat
    requires IsCalendar(start)
    decreases hi - start(k)
  {
    if start(k) < hi then 1 + MonthCount(start, k + 1, hi) else 0
  }

  lemma {:induction false} MonthCountIs(start: nat -> int, k: nat, hi: int, n: nat)
    requires IsCalendar(start) && n == MonthCount(start, k, hi)
    ensures forall m: nat :: k <= m < k + n ==> start(m) < hi
    ensures hi <= start(k + n)
    decreases n
  {
    if start(k) < hi {
      MonthCountIs(start, k + 1, hi, n - 1);
    }
  }

  ghost predicate FollowFrom(months: seq<Month>, first: nat) {
    forall i :: 0 <= i < |months| ==> IsMonth(months[i]) && NumberOf(months[i]) == first + i
  }

  /** The months from the first on that start before `hi`, stepped as the source steps them. */
  method MonthStarts(start: nat -> int, first: nat, hi: int) returns (months: seq<Month>)
    requires IsCalendar(start)
    ensures |months| == MonthCount(start, first, hi) && FollowFrom(months, first)
  {
    months := [];
    var cur := MonthNumbered(first);
    var k := first;
    while start(NumberOf(cur)) < hi
      invariant IsMonth(cur) && NumberOf(cur) == k == first + |months| && FollowFrom(months, first)
      invariant |months| + MonthCount(start, k, hi) == MonthCount(start, first, hi)
      decreases hi - start(k)
    {
      months := months + [cur];
      cur := Advance(cur);
      k := k + 1;
    }
  }

  function Max(a: int, b: int): int { if a >= b then a else b }

  function Min(a: int, b: int): int { if a <= b then a else b }

  /** Consecutive ranges from `lo` to `hi`; none of them holds anything when `hi` is not past `lo`. */
  ghost predicate Tiles(edges: seq<(int, int)>, lo: int, hi: int) {
    if lo < hi then
      && edges != [] && edges[0].0 == lo && edges[|edges| - 1].1 == hi
      && (forall i :: 0 <= i < |edges| ==> lo <= edges[i].0 <= edges[i].1 <= hi)
      && (forall i, j :: 0 <= i && j == i + 1 < |edges| ==> edges[i].1 == edges[j].0)
    else
      forall i :: 0 <= i < |edges| ==> edges[i].1 <= edges[i].0
  }

  function Edge(start: nat -> int, month: nat, lo: int, hi: int): (int, int) {
    (Max(start(month), lo), Min(start(month + 1), hi))
  }

  /** The months from the first on, clipped to `[lo, hi)`. */
  function Edges(start: nat -> int, first: nat, lo: int, hi: int): seq<(int, int)>
    requires IsCalendar(start)
  {
    seq(MonthCount(start, first, hi), i requires 0 <= i => Edge(start, first + i, lo, hi))
  }

  method MonthEdges(start: nat -> int, first: nat, lo: int, hi: int) returns (edges: seq<(int, int)>)
    requires IsCalendar(start)
    ensures edges == Edges(start, first, lo, hi)
  {
    var months := MonthStarts(start, first, hi);
    edges := [];
    for i := 0 to |months|
      invariant |edges| == i && forall j :: 0 <= j < i ==> edges[j] == Edge(start, first + j, lo, hi)
    {
      var m := months[i];
      var next := Advance(m);
      edges := edges + [(Max(start(NumberOf(m)), lo), Min(start(NumberOf(next)), hi))];
    }
  }

  lemma MonthsTile(start: nat -> int, first: nat, lo: int, hi: int)
    requires IsCalendar(start) && start(first) <= lo < start(first + 1)
    ensures Tiles(Edges(start, first, lo, hi), lo, hi)
  {
    var n := MonthCount(start, first, hi);
    MonthCountIs(start, first, hi, n);
    EdgesTile(start, first, lo, hi, seq(n, i requires 0 <= i => first + i), Edges(start, first, lo, hi));
  }

  lemma EdgesTile(start: nat -> int, first: nat, lo: int, hi: int, months: seq<nat>, edges: seq<(int, int)>)
    requires IsCalendar(start) && start(first) <= lo < start(first + 1)
    requires forall i :: 0 <= i < |months| ==> months[i] == first + i && start(months[i]) < hi
    requires hi <= start(first + |months|)
    requires |edges| == |months| && forall i :: 0 <= i < |edges| ==> edges[i] == Edge(start, months[i], lo, hi)
    ensures Tiles(edges, lo, hi)
  {
    if lo < hi {
      forall i | 0 <= i < |edges|
        ensures lo <= edges[i].0 <= edges[i].1 <= hi
      {
        assert start(months[i]) < start(months[i] + 1);
        assert first + 1 < months[i] + 1 ==> start(first + 1) < start(months[i] + 1);
      }
      forall i, j | 0 <= i && j == i + 1 < |edges|
        ensures edges[i].1 == edges[j].0
      {
        assert months[j] == months[i] + 1;
        assert first + 1 < months[j] ==> start(first + 1) < start(months[j]);
      }
    }
  }

  function WindowsOver(count: (int, int) -> nat, edges: seq<(int, int)>, maxDocs: int): seq<Window> {
    if edges == [] then []
    else
      var last := edges[|edges| - 1];
      WindowsOver(count, edges[..|edges| - 1], maxDocs) + Split(count, last.0, last.1, maxDocs)
  }

  /** The windows of a whole selection: month by month from the month of `lo`, each bisected as far as it needs. */
  function WindowsFrom(count: (int, int) -> nat, start: nat -> int, first: nat, lo: int, hi: int, maxDocs: int)
    : seq<Window>
    requires IsCalendar(start)
  {
    WindowsOver(count, Edges(start, first, lo, hi), maxDocs)
  }

  lemma {:induction false} TiledPartition(index: Index, count: (int, int) -> nat, lo: int, hi: int, maxDocs: int,
                                          edges: seq<(int, int)>, k: nat)
    requires IsCount(count, index) && lo < hi && Tiles(edges, lo, hi) && 0 < k <= |edges|
    ensures Partition(index, lo, edges[k - 1].1, maxDocs, WindowsOver(count, edges[..k], maxDocs))
  {
    var (a, b) := edges[k - 1];
    SplitPartitions(index, count, a, b, maxDocs);
    assert edges[..k][..k - 1] == edges[..k - 1];
    if k == 1 {
      assert WindowsOver(count, edges[..0], maxDocs) == [];
      assert [] + Split(count, a, b, maxDocs) == Split(count, a, b, maxDocs);
    } else {
      TiledPartition(index, count, lo, hi, maxDocs, edges, k - 1);
      PartitionJoin(index, lo, a, b, maxDocs, WindowsOver(count, edges[..k - 1], maxDocs), Split(count, a, b, maxDocs));
    }
  }

  lemma {:induction false} NoWindows(index: Index, count: (int, int) -> nat, edges: seq<(int, int)>, maxDocs: int)
    requires IsCount(count, index) && forall i :: 0 <= i < |edges| ==> edges[i].1 <= edges[i].0
    ensures WindowsOver(count, edges, maxDocs) == []
  {
    if edges != [] {
      NoWindows(index, count, edges[..|edges| - 1], maxDocs);
      var last := edges[|edges| - 1];
      assert CountsAt(count, index, last.0, last.1);
      assert Within(index, last.0, last.1) == {};
    }
  }

  /** The windows of a selection partition its range. */
  lemma WindowsPartition(index: Index, count: (int, int) -> nat, start: nat -> int, first: nat, lo: int, hi: int,
                         maxDocs: int)
    requires IsCount(count, index) && IsCalendar(start) && start(first) <= lo < start(first + 1)
    ensures Partition(index, lo, hi, maxDocs, WindowsFrom(count, start, first, lo, hi, maxDocs))
  {
    var edges := Edges(start, first, lo, hi);
    MonthsTile(start, first, lo, hi);
    if lo < hi {
      TiledPartition(index, count, lo, hi, maxDocs, edges, |edges|);
      assert edges[..|edges|] == edges;
    } else {
      NoWindows(index, count, edges, maxDocs);
      assert Within(index, lo, hi) == {};
      NoEntries(index, lo, hi, maxDocs);
    }
  }

  method WindowsByMonth(ghost index: Index, count: (int, int) -> nat, start: nat -> int, first: nat, lo: int, hi: int,
                        maxDocs: int)
    returns (ws: seq<Window>)
    requires IsCount(count, index) && IsCalendar(start) && start(first) <= lo < start(first + 1)
    ensures ws == WindowsFrom(count, start, first, lo, hi, maxDocs)
    ensures Partition(index, lo, hi, maxDocs, ws)
  {
    var edges := MonthEdges(start, first, lo, hi);
    ws := [];
    for k := 0 to |edges|
      invariant ws == WindowsOver(count, edges[..k], maxDocs)
    {
      assert edges[..k + 1][..k] == edges[..k];
      ws := ws + Split(count, edges[k].0, edges[k].1, maxDocs);
    }
    assert edges[..|edges|] == edges;
    // The results arrive in the order of the months, so the final sort leaves them as they are.
    WindowsPartition(index, count, start, first, lo, hi, maxDocs);
  }

  function CountIn(index: Index): (int, int) -> nat {
    (lo: int, hi: int) => Count(index, lo, hi)
  }

  lemma CountInCounts(index: Index)
    ensures IsCount(CountIn(index), index)
  {
  }

  /** The windows on the Gregorian calendar, from the month `lo` is in. */
  function Windows(index: Index, lo: nat, hi: int, maxDocs: int): seq<Window> {
    GregorianIsCalendar();
    WindowsFrom(CountIn(index), Gregorian, MonthAt(lo), lo, hi, maxDocs)
  }

  method BuildWindows(index: Index, lo: nat, hi: int, maxDocs: int) returns (ws: seq<Window>)
    ensures ws == Windows(index, lo, hi, maxDocs)
    ensures Partition(index, lo, hi, maxDocs, ws)
  {
    GregorianIsCalendar();
    CountInCounts(index);
    ws := WindowsByMonth(index, CountIn(index), Gregorian, MonthAt(lo), lo, hi, maxDocs);
  }
}
