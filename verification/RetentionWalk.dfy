/** The keyset walk of one time window: `fetch_window` over a server free to order ties as it likes. */
module RetentionWalk {
  import opened Wrappers
  import opened Sets

  const PAGE: nat := 10000

  /**
    One index entry. `at` is the second the server filters and sorts it by; `readable` says whether its
    document body still exists, `id` what the hit reports as its key, `multi` whether the hit lists
    several dates.
   */
  datatype Entry = Entry(serial: nat, id: Option<string>, at: int, readable: bool, multi: bool)

  type Index = set<Entry>

  function Within(index: Index, lo: int, hi: int): set<Entry> {
    set e | e in index && lo <= e.at < hi
  }

  function Count(index: Index, lo: int, hi: int): nat {
    |Within(index, lo, hi)|
  }

  function CountAt(index: Index, t: int): nat {
    Count(index, t, t + 1)
  }

  /** The documents a walk of `[lo, hi)` is to find. */
  function Readable(index: Index, lo: int, hi: int): set<Entry> {
    set e | e in Within(index, lo, hi) && e.readable
  }

  /** A document key names one document. */
  ghost predicate Keyed(docs: set<Entry>) {
    forall e, f :: e in docs && f in docs && e.id.Some? && e.id == f.id ==> e == f
  }

  ghost predicate ByTime(s: seq<Entry>) {
    forall i, j :: 0 <= i < j < |s| ==> s[i].at <= s[j].at
  }

  /** A first page of the range, sorted by time, ties in any order. */
  ghost predicate IsPage(index: Index, lo: int, hi: int, limit: nat, page: seq<Entry>) {
    && Distinct(page)
    && (forall e :: e in page ==> e in Within(index, lo, hi))
    && ByTime(page)
    && |page| == (if Count(index, lo, hi) < limit then Count(index, lo, hi) else limit)
    && (forall e, p :: e in Within(index, lo, hi) && e !in page && p in page ==> p.at <= e.at)
  }

  /** What a page shows of itself: the entries whose body is still there. */
  function Hits(page: seq<Entry>): (hits: seq<Entry>)
    ensures forall e :: e in hits <==> e in page && e.readable
  {
    if page == [] then []
    else
      var front, last := page[..|page| - 1], page[|page| - 1];
      assert page == front + [last];
      Hits(front) + (if last.readable then [last] else [])
  }

  function Unseen(hits: seq<Entry>, boundary: set<string>): set<Entry> {
    set e | e in hits && e.id.Some? && e.id.value !in boundary
  }

  /** The ids of the hits not seen on the page before. */
  function Fresh(hits: seq<Entry>, boundary: set<string>): seq<string> {
    if hits == [] then []
    else
      var last := hits[|hits| - 1];
      Fresh(hits[..|hits| - 1], boundary)
      + (if last.id.Some? && last.id.value !in boundary then [last.id.value] else [])
  }

  datatype WalkError = HitWithoutId | NothingReadable | MultiValued | TooManyAtOnce

  /** `ids` lists every document of `docs` once and nothing else. */
  ghost predicate Lists(ids: seq<string>, docs: set<Entry>) {
    && Distinct(ids)
    && (forall e :: e in docs ==> e.id.Some? && e.id.value in ids)
    && (forall i :: i in ids ==> exists e :: e in docs && e.id == Some(i))
  }

  // ----- Pages

  lemma {:induction false} HitsDistinct(page: seq<Entry>)
    requires Distinct(page)
    ensures Distinct(Hits(page))
  {
    if page != [] {
      var front, last := page[..|page| - 1], page[|page| - 1];
      HitsDistinct(front);
      assert last !in front;
    }
  }

  lemma {:induction false} HitsByTime(page: seq<Entry>)
    requires ByTime(page)
    ensures ByTime(Hits(page))
  {
    if page != [] {
      var front, last := page[..|page| - 1], page[|page| - 1];
      HitsByTime(front);
      forall i | 0 <= i < |Hits(front)|
        ensures Hits(front)[i].at <= last.at
      {
        assert Hits(front)[i] in front;
      }
    }
  }

  lemma {:induction false} HitsOfReadable(page: seq<Entry>)
    requires forall e :: e in page ==> e.readable
    ensures Hits(page) == page
  {
    if page != [] {
      var front, last := page[..|page| - 1], page[|page| - 1];
      assert page == front + [last];
      forall e | e in front
        ensures e.readable
      {
        assert e in page;
      }
      HitsOfReadable(front);
      assert last in page;
    }
  }

  lemma ShortPageIsAll(index: Index, lo: int, hi: int, limit: nat, page: seq<Entry>)
    requires IsPage(index, lo, hi, limit, page) && |page| < limit
    ensures forall e :: e in Within(index, lo, hi) ==> e in page
  {
    DistinctSize(page);
    SubsetOfSameSize(Elements(page), Within(index, lo, hi));
  }

  lemma {:induction false} FreshLists(hits: seq<Entry>, boundary: set<string>, docs: set<Entry>)
    requires Distinct(hits) && Keyed(docs)
    requires forall e :: e in hits ==> e in docs && e.id.Some?
    ensures Lists(Fresh(hits, boundary), Unseen(hits, boundary))
  {
    if hits != [] {
      var front, last := hits[..|hits| - 1], hits[|hits| - 1];
      assert hits == front + [last];
      FreshLists(front, boundary, docs);
      assert forall e :: e in front ==> e != last && e.id != last.id;
    }
  }

  lemma ListsJoin(ids: seq<string>, docs: set<Entry>, more: seq<string>, others: set<Entry>)
    requires Lists(ids, docs) && Lists(more, others)
    requires docs !! others && Keyed(docs + others)
    ensures Lists(ids + more, docs + others)
  {
    DistinctJoin(ids, more);
  }

  // ----- The walk

  /** The documents already written when the walk stands at `cur`. */
  function Done(index: Index, lo: int, hi: int, cur: int, boundary: set<string>): set<Entry> {
    set e | e in Readable(index, lo, hi)
            && (e.at < cur || (e.at == cur && e.id.Some? && e.id.value in boundary))
  }

  function IdsAt(hits: seq<Entry>, t: int): set<string> {
    set e | e in hits && e.at == t && e.id.Some? :: e.id.value
  }

  /** `boundary` holds ids of documents at `cur` only. */
  ghost predicate BoundaryAt(index: Index, lo: int, hi: int, cur: int, boundary: set<string>) {
    forall i :: i in boundary ==> exists e :: e in Readable(index, lo, hi) && e.at == cur && e.id == Some(i)
  }

  ghost predicate Identified(hits: seq<Entry>) {
    forall e :: e in hits ==> e.id.Some?
  }

  lemma WrittenSoFar(index: Index, lo: int, hi: int, cur: int, boundary: set<string>, page: seq<Entry>,
                     ids: seq<string>)
    requires lo <= cur && Keyed(Readable(index, lo, hi))
    requires IsPage(index, cur, hi, PAGE, page) && Identified(Hits(page))
    requires Lists(ids, Done(index, lo, hi, cur, boundary))
    ensures Lists(ids + Fresh(Hits(page), boundary),
                  Done(index, lo, hi, cur, boundary) + Unseen(Hits(page), boundary))
  {
    var hits := Hits(page);
    HitsDistinct(page);
    assert forall e :: e in hits ==> e in Readable(index, lo, hi);
    FreshLists(hits, boundary, Readable(index, lo, hi));
    ListsJoin(ids, Done(index, lo, hi, cur, boundary), Fresh(hits, boundary),
              Unseen(hits, boundary));
  }

  lemma ShortPageEnds(index: Index, lo: int, hi: int, cur: int, boundary: set<string>, page: seq<Entry>,
                      ids: seq<string>)
    requires lo <= cur && Keyed(Readable(index, lo, hi))
    requires BoundaryAt(index, lo, hi, cur, boundary)
    requires IsPage(index, cur, hi, PAGE, page) && |page| < PAGE && Identified(Hits(page))
    requires Lists(ids, Done(index, lo, hi, cur, boundary))
    ensures Lists(ids + Fresh(Hits(page), boundary), Readable(index, lo, hi))
  {
    WrittenSoFar(index, lo, hi, cur, boundary, page, ids);
    ShortPageIsAll(index, cur, hi, PAGE, page);
    var done, news := Done(index, lo, hi, cur, boundary), Unseen(Hits(page), boundary);
    forall e | e in Readable(index, lo, hi)
      ensures e in done + news
    {
      if e.at >= cur {
        assert e in Within(index, cur, hi);
      }
    }
    assert done + news == Readable(index, lo, hi);
  }

  /** A full page that spans two seconds holds everything before its last readable second. */
  lemma PageReaches(index: Index, lo: int, hi: int, page: seq<Entry>, last: Entry)
    requires IsPage(index, lo, hi, PAGE, page) && last in page
    ensures forall e :: e in Within(index, lo, hi) && e.at < last.at ==> e in page
  {
  }

  lemma NextIsWritten(index: Index, lo: int, hi: int, cur: int, boundary: set<string>, page: seq<Entry>, e: Entry)
    requires lo <= cur && Keyed(Readable(index, lo, hi)) && BoundaryAt(index, lo, hi, cur, boundary)
    requires IsPage(index, cur, hi, PAGE, page) && Identified(Hits(page)) && Hits(page) != []
    requires var hits := Hits(page);
             var last := hits[|hits| - 1].at;
             cur < last && e in Done(index, lo, hi, last, IdsAt(hits, last))
    ensures e in Done(index, lo, hi, cur, boundary) + Unseen(Hits(page), boundary)
  {
  }

  lemma WrittenIsNext(index: Index, lo: int, hi: int, cur: int, boundary: set<string>, hits: seq<Entry>, e: Entry)
    requires hits != [] && ByTime(hits) && cur < hits[|hits| - 1].at
    requires forall h :: h in hits ==> h in Readable(index, lo, hi)
    requires e in Done(index, lo, hi, cur, boundary) + Unseen(hits, boundary)
    ensures e in Done(index, lo, hi, hits[|hits| - 1].at, IdsAt(hits, hits[|hits| - 1].at))
  {
  }

  lemma FullPageAdvances(index: Index, lo: int, hi: int, cur: int, boundary: set<string>, page: seq<Entry>,
                         ids: seq<string>)
    requires lo <= cur && Keyed(Readable(index, lo, hi)) && BoundaryAt(index, lo, hi, cur, boundary)
    requires IsPage(index, cur, hi, PAGE, page) && Identified(Hits(page))
    requires Hits(page) != [] && Hits(page)[0].at != Hits(page)[|Hits(page)| - 1].at
    requires Lists(ids, Done(index, lo, hi, cur, boundary))
    ensures var hits := Hits(page);
            var last := hits[|hits| - 1].at;
            && cur < last < hi
            && BoundaryAt(index, lo, hi, last, IdsAt(hits, last))
            && Lists(ids + Fresh(hits, boundary), Done(index, lo, hi, last, IdsAt(hits, last)))
  {
    var hits := Hits(page);
    var last := hits[|hits| - 1].at;
    HitsByTime(page);
    assert hits[0] in page && hits[|hits| - 1] in page;
    WrittenSoFar(index, lo, hi, cur, boundary, page, ids);
    var written := Done(index, lo, hi, cur, boundary) + Unseen(hits, boundary);
    var next := Done(index, lo, hi, last, IdsAt(hits, last));
    forall e | e in next
      ensures e in written
    {
      NextIsWritten(index, lo, hi, cur, boundary, page, e);
    }
    forall e | e in written
      ensures e in next
    {
      WrittenIsNext(index, lo, hi, cur, boundary, hits, e);
    }
    assert written == next;
    BoundaryMoves(index, lo, hi, cur, page);
  }

  lemma BoundaryMoves(index: Index, lo: int, hi: int, cur: int, page: seq<Entry>)
    requires lo <= cur && IsPage(index, cur, hi, PAGE, page) && Hits(page) != []
    ensures var hits := Hits(page);
            var last := hits[|hits| - 1].at;
            BoundaryAt(index, lo, hi, last, IdsAt(hits, last))
  {
  }

  // ----- Seconds that hold too many entries

  lemma SecondsPassed(index: Index, lo: int, hi: int, page: seq<Entry>, last: Entry, t: int)
    requires IsPage(index, lo, hi, PAGE, page) && last in page && lo <= t < last.at
    ensures CountAt(index, t) < PAGE
  {
    DistinctSize(page);
    PageReaches(index, lo, hi, page, last);
    var others := Elements(page) - {last};
    forall e | e in Within(index, t, t + 1)
      ensures e in others
    {
      assert last in Within(index, lo, hi);
      assert e in Within(index, lo, hi);
    }
    SubsetSize(Within(index, t, t + 1), others);
    SubsetSize(others, Elements(page));
    assert |Elements(page)| == |others| + 1;
  }

  lemma SecondsOfShortPage(index: Index, lo: int, hi: int, page: seq<Entry>, t: int)
    requires IsPage(index, lo, hi, PAGE, page) && |page| < PAGE && lo <= t < hi
    ensures CountAt(index, t) < PAGE
  {
    SubsetSize(Within(index, t, t + 1), Within(index, lo, hi));
  }

  lemma SecondOfTiedPage(index: Index, lo: int, hi: int, page: seq<Entry>)
    requires IsPage(index, lo, hi, PAGE, page) && |page| == PAGE && page[0].at == page[|page| - 1].at
    ensures lo <= page[0].at < hi && CountAt(index, page[0].at) >= PAGE
  {
    var t := page[0].at;
    assert page[0] in page;
    forall e | e in page
      ensures e in Within(index, t, t + 1)
    {
      var k :| 0 <= k < |page| && page[k] == e;
      assert page[0].at <= page[k].at <= page[|page| - 1].at;
    }
    DistinctSize(page);
    SubsetSize(Elements(page), Within(index, t, t + 1));
  }

  /** Every entry of the range can be read, names its document and has one date. */
  ghost predicate Plain(entries: set<Entry>) {
    forall e :: e in entries ==> e.readable && e.id.Some? && !e.multi
  }

  ghost predicate NoCrowdedSecond(index: Index, lo: int, hi: int) {
    forall t :: lo <= t < hi ==> CountAt(index, t) < PAGE
  }

  method CollectFresh(hits: seq<Entry>, boundary: set<string>) returns (r: Result<seq<string>, WalkError>)
    ensures r.Ok? <==> Identified(hits)
    ensures r.Ok? ==> r.value == Fresh(hits, boundary)
    ensures r.Err? ==> r.error == HitWithoutId
  {
    var ids: seq<string> := [];
    for k := 0 to |hits|
      invariant Identified(hits[..k]) && ids == Fresh(hits[..k], boundary)
    {
      assert hits[..k + 1][..k] == hits[..k];
      if hits[k].id.None? {
        assert hits[k] in hits;
        return Err(HitWithoutId);
      }
      if hits[k].id.value !in boundary {
        ids := ids + [hits[k].id.value];
      }
    }
    assert hits[..|hits|] == hits;
    return Ok(ids);
  }

  lemma HitsOfPlain(index: Index, lo: int, hi: int, cur: int, page: seq<Entry>)
    requires lo <= cur && IsPage(index, cur, hi, PAGE, page) && Plain(Within(index, lo, hi))
    ensures Hits(page) == page && Identified(page) && forall e :: e in page ==> !e.multi
  {
    assert forall e :: e in page ==> e in Within(index, lo, hi);
    HitsOfReadable(page);
  }

  /** Where a walk stands before its next request: `ids` lists what `cur` and `boundary` say is done. */
  ghost predicate Standing(index: Index, lo: int, hi: int, cur: int, boundary: set<string>, ids: seq<string>) {
    && lo <= cur
    && BoundaryAt(index, lo, hi, cur, boundary)
    && Lists(ids, Done(index, lo, hi, cur, boundary))
    && NoCrowdedSecond(index, lo, cur)
  }

  lemma WalkEnds(index: Index, lo: int, hi: int, cur: int, boundary: set<string>, page: seq<Entry>, ids: seq<string>)
    requires Keyed(Readable(index, lo, hi)) && Standing(index, lo, hi, cur, boundary, ids)
    requires IsPage(index, cur, hi, PAGE, page) && |page| < PAGE && Identified(Hits(page))
    ensures Lists(ids + Fresh(Hits(page), boundary), Readable(index, lo, hi))
    ensures NoCrowdedSecond(index, lo, hi)
  {
    ShortPageEnds(index, lo, hi, cur, boundary, page, ids);
    forall t | lo <= t < hi
      ensures CountAt(index, t) < PAGE
    {
      if t >= cur {
        SecondsOfShortPage(index, cur, hi, page, t);
      }
    }
  }

  lemma WalkContinues(index: Index, lo: int, hi: int, cur: int, boundary: set<string>, page: seq<Entry>,
                      ids: seq<string>)
    requires Keyed(Readable(index, lo, hi)) && Standing(index, lo, hi, cur, boundary, ids)
    requires IsPage(index, cur, hi, PAGE, page) && Identified(Hits(page))
    requires Hits(page) != [] && Hits(page)[0].at != Hits(page)[|Hits(page)| - 1].at
    ensures var hits := Hits(page);
            var last := hits[|hits| - 1].at;
            cur < last < hi && Standing(index, lo, hi, last, IdsAt(hits, last), ids + Fresh(hits, boundary))
  {
    FullPageAdvances(index, lo, hi, cur, boundary, page, ids);
    var last := Hits(page)[|Hits(page)| - 1];
    assert last in page;
    forall t | lo <= t < last.at
      ensures CountAt(index, t) < PAGE
    {
      if t >= cur {
        SecondsPassed(index, cur, hi, page, last, t);
      }
    }
  }

  // ----- What stops a walk

  ghost predicate AllNamed(docs: set<Entry>) {
    forall e :: e in docs ==> e.id.Some?
  }

  ghost predicate SingleDated(docs: set<Entry>) {
    forall e :: e in docs ==> !e.multi
  }

  ghost predicate AtOneSecond(docs: set<Entry>) {
    forall e, f :: e in docs && f in docs ==> e.at == f.at
  }

  /** What is left to read of a page. */
  function Left(page: seq<Entry>): set<Entry> {
    set e | e in page && e.readable
  }

  /** Why a page stops the walk, if it does: body-less entries count for its size and for nothing else. */
  ghost function Stop(page: seq<Entry>): Option<WalkError> {
    var left := Left(page);
    if !AllNamed(left) then Some(HitWithoutId)
    else if |page| < PAGE then None
    else if left == {} then Some(NothingReadable)
    else if !SingleDated(left) then Some(MultiValued)
    else if AtOneSecond(left) then Some(TooManyAtOnce)
    else None
  }

  lemma HitsAreLeft(page: seq<Entry>)
    ensures Identified(Hits(page)) <==> AllNamed(Left(page))
    ensures Hits(page) == [] <==> Left(page) == {}
    ensures (exists h :: h in Hits(page) && h.multi) <==> !SingleDated(Left(page))
  {
    if Hits(page) != [] {
      assert Hits(page)[0] in Left(page);
    }
  }

  lemma EndsTell(hits: seq<Entry>, left: set<Entry>)
    requires ByTime(hits) && hits != [] && forall e :: e in hits <==> e in left
    ensures hits[0].at == hits[|hits| - 1].at <==> AtOneSecond(left)
  {
    assert hits[0] in left && hits[|hits| - 1] in left;
    forall e | e in left
      ensures hits[0].at <= e.at <= hits[|hits| - 1].at
    {
      var k :| 0 <= k < |hits| && hits[k] == e;
    }
  }

  lemma HitsAtOneSecond(page: seq<Entry>)
    requires ByTime(page) && Hits(page) != []
    ensures Hits(page)[0].at == Hits(page)[|Hits(page)| - 1].at <==> AtOneSecond(Left(page))
  {
    HitsByTime(page);
    EndsTell(Hits(page), Left(page));
  }

  /** Every stretch that fills a page has documents at two seconds before its last one. */
  ghost predicate SpreadOut(index: Index, lo: int, hi: int) {
    forall a, b :: lo <= a < b <= hi && Count(index, a, b) >= PAGE ==> !AtOneSecond(Readable(index, a, b - 1))
  }

  /** Then no page stops the walk, whatever the order of ties and wherever the body-less entries fall. */
  lemma SpreadOutGoesOn(index: Index, lo: int, hi: int, cur: int, page: seq<Entry>)
    requires lo <= cur && IsPage(index, cur, hi, PAGE, page)
    requires AllNamed(Readable(index, lo, hi)) && SingleDated(Readable(index, lo, hi)) && SpreadOut(index, lo, hi)
    ensures Stop(page).None?
  {
    assert forall e :: e in Left(page) ==> e in Readable(index, lo, hi);
    if |page| == PAGE {
      var last := page[|page| - 1];
      assert last in page;
      StretchIsFull(index, cur, hi, page);
      assert !AtOneSecond(Readable(index, cur, last.at));
      var e, f :| e in Readable(index, cur, last.at) && f in Readable(index, cur, last.at) && e.at != f.at;
      PageReaches(index, cur, hi, page, last);
      assert e in Left(page) && f in Left(page);
    }
  }

  lemma StretchIsFull(index: Index, lo: int, hi: int, page: seq<Entry>)
    requires IsPage(index, lo, hi, PAGE, page) && |page| == PAGE
    ensures var last := page[|page| - 1].at;
            lo <= last < hi && Count(index, lo, last + 1) >= PAGE
  {
    var last := page[|page| - 1];
    assert last in page;
    forall e | e in page
      ensures e in Within(index, lo, last.at + 1)
    {
      var k :| 0 <= k < |page| && page[k] == e;
      assert k < |page| - 1 ==> page[k].at <= page[|page| - 1].at;
    }
    DistinctSize(page);
    SubsetSize(Elements(page), Within(index, lo, last.at + 1));
  }

  /** A range that does not fill a page is stopped by a nameless document alone. */
  lemma ShortWindowStops(index: Index, lo: int, hi: int, page: seq<Entry>)
    requires IsPage(index, lo, hi, PAGE, page) && Count(index, lo, hi) < PAGE
    ensures |page| < PAGE && (Stop(page).None? <==> AllNamed(Readable(index, lo, hi)))
  {
    ShortPageIsAll(index, lo, hi, PAGE, page);
    assert Left(page) == Readable(index, lo, hi);
  }

  lemma WhatStops(index: Index, lo: int, hi: int, cur: int, page: seq<Entry>)
    requires lo <= cur && IsPage(index, cur, hi, PAGE, page)
    ensures Count(index, lo, hi) < PAGE && cur == lo ==>
              |page| < PAGE && (Stop(page).None? <==> AllNamed(Readable(index, lo, hi)))
    ensures AllNamed(Readable(index, lo, hi)) && SingleDated(Readable(index, lo, hi)) && SpreadOut(index, lo, hi) ==>
              Stop(page).None?
  {
    if Count(index, lo, hi) < PAGE && cur == lo {
      ShortWindowStops(index, lo, hi, page);
    }
    if AllNamed(Readable(index, lo, hi)) && SingleDated(Readable(index, lo, hi)) && SpreadOut(index, lo, hi) {
      SpreadOutGoesOn(index, lo, hi, cur, page);
    }
  }

  /** What one answered request leads to. */
  datatype Step =
    | Finish(ids: seq<string>)
    | Fail(error: WalkError)
    | Continue(cur: int, boundary: set<string>, ids: seq<string>)

  method TakePage(ghost index: Index, ghost lo: int, ghost hi: int, cur: int, boundary: set<string>, ids: seq<string>,
                  page: seq<Entry>)
    returns (step: Step)
    requires Keyed(Readable(index, lo, hi)) && Standing(index, lo, hi, cur, boundary, ids)
    requires IsPage(index, cur, hi, PAGE, page)
    ensures step.Finish? ==> Lists(step.ids, Readable(index, lo, hi)) && NoCrowdedSecond(index, lo, hi)
    ensures step.Continue? ==> cur < step.cur < hi && Standing(index, lo, hi, step.cur, step.boundary, step.ids)
    ensures step.Fail? <==> Stop(page).Some?
    ensures step.Fail? ==> step.error == Stop(page).value
    ensures step.Finish? <==> Stop(page).None? && |page| < PAGE
    ensures step.Fail? && Plain(Within(index, lo, hi)) ==>
              step.error == TooManyAtOnce && !NoCrowdedSecond(index, lo, hi)
  {
    var hits := Hits(page);
    HitsAreLeft(page);
    if Plain(Within(index, lo, hi)) {
      HitsOfPlain(index, lo, hi, cur, page);
    }
    var collected := CollectFresh(hits, boundary);
    if collected.Err? {
      return Fail(collected.error);
    }
    if |page| < PAGE {
      WalkEnds(index, lo, hi, cur, boundary, page, ids);
      return Finish(ids + collected.value);
    }
    if hits == [] {
      return Fail(NothingReadable);
    }
    if exists h :: h in hits && h.multi {
      return Fail(MultiValued);
    }
    HitsAtOneSecond(page);
    var last := hits[|hits| - 1].at;
    if hits[0].at == last {
      if Plain(Within(index, lo, hi)) {
        SecondOfTiedPage(index, cur, hi, page);
      }
      return Fail(TooManyAtOnce);
    }
    WalkContinues(index, lo, hi, cur, boundary, page, ids);
    return Continue(last, IdsAt(hits, last), ids + collected.value);
  }

  /**
    Walk `[lo, hi)`. `server(k, cur)` is the page the k-th request for `[cur, hi)` is answered with: any
    first page of that range, ties in an order that may change from one request to the next. A walk
    that returns lists every readable document of the window once. It never gets past a second that
    holds a full page of entries; where every entry is plain that is the only thing that stops it. With
    body-less entries among them: a window that does not fill a page is stopped by a nameless document
    alone, and a larger one not at all where its documents are named, of one date and spread out.
   */
  method FetchWindow(ghost index: Index, server: (nat, int) -> seq<Entry>, lo: int, ghost hi: int)
    returns (r: Result<seq<string>, WalkError>)
    requires Keyed(Readable(index, lo, hi))
    requires forall k, cur :: IsPage(index, cur, hi, PAGE, server(k, cur))
    ensures r.Ok? ==> Lists(r.value, Readable(index, lo, hi)) && NoCrowdedSecond(index, lo, hi)
    ensures Plain(Within(index, lo, hi)) ==>
              (r.Ok? <==> NoCrowdedSecond(index, lo, hi)) && (r.Err? ==> r.error == TooManyAtOnce)
    ensures r.Ok? ==> AllNamed(Readable(index, lo, hi))
    ensures r.Err? ==> exists k, cur :: lo <= cur && Stop(server(k, cur)) == Some(r.error)
    ensures Count(index, lo, hi) < PAGE ==> (r.Ok? <==> AllNamed(Readable(index, lo, hi)))
    ensures AllNamed(Readable(index, lo, hi)) && SingleDated(Readable(index, lo, hi)) && SpreadOut(index, lo, hi) ==>
              r.Ok?
  {
    var ids: seq<string>, cur, boundary: set<string>, k := [], lo, {}, 0;
    while true
      invariant Standing(index, lo, hi, cur, boundary, ids)
      invariant Count(index, lo, hi) < PAGE ==> cur == lo
      decreases hi - cur
    {
      WhatStops(index, lo, hi, cur, server(k, cur));
      var step := TakePage(index, lo, hi, cur, boundary, ids, server(k, cur));
      match step
      case Finish(all) => return Ok(all);
      case Fail(error) => return Err(error);
      case Continue(next, seen, written) => cur, boundary, ids, k := next, seen, written, k + 1;
    }
  }
}
