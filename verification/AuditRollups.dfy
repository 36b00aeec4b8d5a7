/** Audit records, the totals that stand for many of them, and the order totals are written in. */
module AuditRollups {
  import opened Wrappers
  import opened Sets

  datatype Outcome = Allowed | Denied

  /** `detail`: the fields that are only passed on (peer, method, path, tool, query, reason). */
  datatype Record = Record(
    ts: string,
    event: string,
    outcome: Option<Outcome>,
    keyId: Option<string>,
    keyLabel: Option<string>,
    role: Option<string>,
    index: Option<string>,
    status: Option<nat>,
    detail: string)

  datatype RollupKey = RollupKey(event: string, keyId: Option<string>, index: Option<string>, outcome: Option<Outcome>)

  datatype Rollup = Rollup(ops: nat, errors: nat, windowStart: string, keyLabel: Option<string>, role: Option<string>)

  type Buckets = map<RollupKey, Rollup>

  /** One line of the trail: a record kept verbatim, a total for one bucket, or an admission of loss. */
  datatype Line =
    | Kept(record: Record)
    | Total(ts: string, key: RollupKey, rollup: Rollup)
    | Gap(ts: string, lost: nat)

  function KeyOf(record: Record): RollupKey {
    RollupKey(record.event, record.keyId, record.index, record.outcome)
  }

  predicate Failed(record: Record) {
    record.status.Some? && record.status.value >= 400
  }

  /** The bucket of `record` with it counted; the first of a window gives it its start, label and role. */
  function Counted(buckets: Buckets, record: Record): Rollup {
    var key := KeyOf(record);
    var was := if key in buckets then buckets[key] else Rollup(0, 0, record.ts, record.keyLabel, record.role);
    was.(ops := was.ops + 1, errors := was.errors + if Failed(record) then 1 else 0)
  }

  function Folded(buckets: Buckets, record: Record): Buckets {
    buckets[KeyOf(record) := Counted(buckets, record)]
  }

  /** The four fields a record is counted by. */
  predicate Has(record: Record, key: RollupKey) {
    && record.event == key.event && record.keyId == key.keyId
    && record.index == key.index && record.outcome == key.outcome
  }

  // ----- What a record, a bucket and a line are worth

  /** What is counted: every record; the operations or the failures of one bucket; the records lost. */
  datatype Measure = AllRecords | OpsOf(key: RollupKey) | ErrorsOf(key: RollupKey) | Losses

  function RolledWeight(m: Measure, record: Record): nat {
    match m
    case AllRecords => 1
    case OpsOf(key) => if KeyOf(record) == key then 1 else 0
    case ErrorsOf(key) => if KeyOf(record) == key && Failed(record) then 1 else 0
    case Losses => 0
  }

  function BucketWeight(m: Measure, key: RollupKey, rollup: Rollup): nat {
    match m
    case AllRecords => rollup.ops
    case OpsOf(k) => if k == key then rollup.ops else 0
    case ErrorsOf(k) => if k == key then rollup.errors else 0
    case Losses => 0
  }

  function LineWeight(m: Measure, line: Line): nat {
    match line
    case Kept(_) => if m.AllRecords? then 1 else 0
    case Total(_, key, rollup) => BucketWeight(m, key, rollup)
    case Gap(_, lost) => if m.Losses? then lost else 0
  }

  function LinesWeight(m: Measure, lines: seq<Line>): nat {
    if lines == [] then 0 else LinesWeight(m, lines[..|lines| - 1]) + LineWeight(m, lines[|lines| - 1])
  }

  /** The sum over all buckets; which bucket is taken first does not matter (`PendingTake`). */
  ghost function Pending(m: Measure, buckets: Buckets): nat
    decreases |buckets.Keys|
  {
    if buckets.Keys == {} then 0
    else
      var key :| key in buckets.Keys;
      BucketWeight(m, key, buckets[key]) + PendingWithout(m, buckets, key)
  }

  ghost function PendingWithout(m: Measure, buckets: Buckets, key: RollupKey): nat
    requires key in buckets
    decreases |buckets.Keys|, 0
  {
    assert (buckets - {key}).Keys == buckets.Keys - {key};
    Pending(m, buckets - {key})
  }

  lemma {:induction false} PendingTake(m: Measure, buckets: Buckets, key: RollupKey)
    requires key in buckets
    ensures Pending(m, buckets) == BucketWeight(m, key, buckets[key]) + Pending(m, buckets - {key})
    decreases |buckets.Keys|
  {
    var first :| first in buckets.Keys
      && Pending(m, buckets) == BucketWeight(m, first, buckets[first]) + PendingWithout(m, buckets, first);
    assert PendingWithout(m, buckets, first) == Pending(m, buckets - {first});
    if first != key {
      assert (buckets - {first}).Keys == buckets.Keys - {first};
      assert (buckets - {key}).Keys == buckets.Keys - {key};
      PendingTake(m, buckets - {first}, key);
      PendingTake(m, buckets - {key}, first);
      assert buckets - {first} - {key} == buckets - {key} - {first};
    }
  }

  /** What is pending for one key is what its bucket says. */
  lemma {:induction false} PendingOfKey(buckets: Buckets, key: RollupKey)
    ensures Pending(OpsOf(key), buckets) == if key in buckets then buckets[key].ops else 0
    ensures Pending(ErrorsOf(key), buckets) == if key in buckets then buckets[key].errors else 0
    decreases |buckets.Keys|
  {
    if buckets.Keys != {} {
      var other :| other in buckets.Keys;
      assert (buckets - {other}).Keys == buckets.Keys - {other};
      PendingOfKey(buckets - {other}, key);
      PendingTake(OpsOf(key), buckets, other);
      PendingTake(ErrorsOf(key), buckets, other);
    }
  }

  /** Folding a record in adds exactly that record, under every measure. */
  lemma FoldAdds(m: Measure, buckets: Buckets, record: Record)
    ensures Pending(m, Folded(buckets, record)) == Pending(m, buckets) + RolledWeight(m, record)
  {
    var key, after := KeyOf(record), Folded(buckets, record);
    PendingTake(m, after, key);
    assert after - {key} == buckets - {key};
    if key in buckets {
      PendingTake(m, buckets, key);
    } else {
      assert buckets - {key} == buckets;
    }
  }

  lemma {:induction false} LinesJoin(m: Measure, a: seq<Line>, b: seq<Line>)
    ensures LinesWeight(m, a + b) == LinesWeight(m, a) + LinesWeight(m, b)
  {
    if b == [] {
      assert a + b == a;
    } else {
      assert (a + b)[..|a + b| - 1] == a + b[..|b| - 1];
      LinesJoin(m, a, b[..|b| - 1]);
    }
  }

  // ----- One window

  /** The buckets of a window in which these records were counted. */
  function FoldedAll(records: seq<Record>): Buckets {
    if records == [] then map[] else Folded(FoldedAll(records[..|records| - 1]), records[|records| - 1])
  }

  /** How many of the records have this event, key id, index and outcome. */
  function OpsWith(records: seq<Record>, key: RollupKey): nat {
    if records == [] then 0
    else OpsWith(records[..|records| - 1], key) + if Has(records[|records| - 1], key) then 1 else 0
  }

  /** How many of those have a status of 400 or more. */
  function ErrorsWith(records: seq<Record>, key: RollupKey): nat {
    if records == [] then 0
    else
      var last := records[|records| - 1];
      ErrorsWith(records[..|records| - 1], key)
      + if Has(last, key) && last.status.Some? && last.status.value >= 400 then 1 else 0
  }

  /** A window has a bucket for exactly the fields its records have, and the bucket counts those records. */
  lemma {:induction false} WindowIs(records: seq<Record>, key: RollupKey)
    ensures key in FoldedAll(records) <==> exists r :: r in records && Has(r, key)
    ensures key in FoldedAll(records) ==>
              FoldedAll(records)[key].ops == OpsWith(records, key)
              && FoldedAll(records)[key].errors == ErrorsWith(records, key)
    ensures key !in FoldedAll(records) ==> OpsWith(records, key) == ErrorsWith(records, key) == 0
  {
    if records != [] {
      assert records == records[..|records| - 1] + [records[|records| - 1]];
      WindowIs(records[..|records| - 1], key);
    }
  }

  ghost predicate FirstWith(records: seq<Record>, k: nat, key: RollupKey) {
    k < |records| && Has(records[k], key) && forall j :: 0 <= j < k ==> !Has(records[j], key)
  }

  /** A bucket takes its start, label and role from the first of its records. */
  lemma {:induction false} WindowStarts(records: seq<Record>, k: nat, key: RollupKey)
    requires FirstWith(records, k, key)
    ensures key in FoldedAll(records)
    ensures var bucket, first := FoldedAll(records)[key], records[k];
            bucket.windowStart == first.ts && bucket.keyLabel == first.keyLabel && bucket.role == first.role
  {
    var front := records[..|records| - 1];
    if k < |front| {
      WindowStarts(front, k, key);
    } else {
      WindowIs(front, key);
    }
  }

  // ----- The order of totals

  function CompareText(a: string, b: string): int {
    if a == b then 0
    else if a == [] || (b != [] && a[0] < b[0]) then -1
    else if b == [] || b[0] < a[0] then 1
    else CompareText(a[1..], b[1..])
  }

  function CompareOption(a: Option<string>, b: Option<string>): int {
    match (a, b)
    case (None, None) => 0
    case (None, Some(_)) => -1
    case (Some(_), None) => 1
    case (Some(x), Some(y)) => CompareText(x, y)
  }

  /** Key, then index, then event; the outcome takes no part. */
  function CompareKeys(a: RollupKey, b: RollupKey): int {
    var byKey, byIndex := CompareOption(a.keyId, b.keyId), CompareOption(a.index, b.index);
    if byKey != 0 then byKey else if byIndex != 0 then byIndex else CompareText(a.event, b.event)
  }

  lemma {:induction false} TextOrder(a: string, b: string, c: string)
    ensures CompareText(a, b) == -CompareText(b, a)
    ensures CompareText(a, b) == 0 <==> a == b
    ensures CompareText(a, b) <= 0 && CompareText(b, c) <= 0 ==> CompareText(a, c) <= 0
    ensures CompareText(a, b) <= 0 && CompareText(b, c) <= 0 && CompareText(a, c) == 0 ==> a == b
  {
    if a != [] && b != [] && c != [] {
      assert a == [a[0]] + a[1..] && b == [b[0]] + b[1..] && c == [c[0]] + c[1..];
      TextOrder(a[1..], b[1..], c[1..]);
    } else if a != [] && b != [] {
      assert a == [a[0]] + a[1..] && b == [b[0]] + b[1..];
      TextOrder(a[1..], b[1..], []);
    }
  }

  lemma OptionOrder(a: Option<string>, b: Option<string>, c: Option<string>)
    ensures CompareOption(a, b) == -CompareOption(b, a)
    ensures CompareOption(a, b) == 0 <==> a == b
    ensures CompareOption(a, b) <= 0 && CompareOption(b, c) <= 0 ==> CompareOption(a, c) <= 0
    ensures CompareOption(a, b) <= 0 && CompareOption(b, c) <= 0 && CompareOption(a, c) == 0 ==> a == b
  {
    if a.Some? && b.Some? {
      TextOrder(a.value, b.value, if c.Some? then c.value else "");
    }
  }

  predicate Tied(a: RollupKey, b: RollupKey) {
    a.keyId == b.keyId && a.index == b.index && a.event == b.event
  }

  /** A total preorder whose ties are the keys that differ in outcome alone. */
  lemma KeysOrder(a: RollupKey, b: RollupKey, c: RollupKey)
    ensures CompareKeys(a, b) == -CompareKeys(b, a)
    ensures CompareKeys(a, b) == 0 <==> Tied(a, b)
    ensures CompareKeys(a, b) <= 0 && CompareKeys(b, c) <= 0 ==> CompareKeys(a, c) <= 0
  {
    OptionOrder(a.keyId, b.keyId, c.keyId);
    OptionOrder(b.keyId, c.keyId, a.keyId);
    OptionOrder(a.index, b.index, c.index);
    OptionOrder(b.index, c.index, a.index);
    TextOrder(a.event, b.event, c.event);
  }

  predicate InOrder(order: seq<RollupKey>) {
    forall i, j :: 0 <= i < j < |order| ==> CompareKeys(order[i], order[j]) <= 0
  }

  /** One of the orders in which the totals of these buckets may come out. */
  ghost predicate IsOrder(order: seq<RollupKey>, keys: set<RollupKey>) {
    Distinct(order) && Elements(order) == keys && InOrder(order)
  }

  /** Some such order exists. */
  lemma {:induction false} OrderExists(keys: set<RollupKey>) returns (order: seq<RollupKey>)
    ensures IsOrder(order, keys)
  {
    order := [];
    if keys != {} {
      var key :| key in keys;
      var rest := OrderExists(keys - {key});
      order := Placed(rest, key);
      PlacedIsOrder(rest, key);
      assert keys == (keys - {key}) + {key};
    }
  }

  /** `key` placed after the last one that does not follow it. */
  function Placed(order: seq<RollupKey>, key: RollupKey): seq<RollupKey> {
    if order == [] || CompareKeys(order[|order| - 1], key) <= 0 then order + [key]
    else Placed(order[..|order| - 1], key) + [order[|order| - 1]]
  }

  lemma {:induction false} PlacedElements(order: seq<RollupKey>, key: RollupKey)
    ensures Elements(Placed(order, key)) == Elements(order) + {key}
    ensures |Placed(order, key)| == |order| + 1
  {
    if order == [] || CompareKeys(order[|order| - 1], key) <= 0 {
      ElementsSnoc(order, key);
    } else {
      var front, last := order[..|order| - 1], order[|order| - 1];
      PlacedElements(front, key);
      ElementsSnoc(Placed(front, key), last);
      ElementsSnoc(front, last);
      assert order == front + [last];
    }
  }

  lemma {:induction false} PlacedIsOrder(order: seq<RollupKey>, key: RollupKey)
    requires IsOrder(order, Elements(order)) && key !in order
    ensures IsOrder(Placed(order, key), Elements(order) + {key})
  {
    PlacedElements(order, key);
    var placed := Placed(order, key);
    if order != [] {
      var front, last := order[..|order| - 1], order[|order| - 1];
      if CompareKeys(last, key) > 0 {
        PlacedIsOrder(front, key);
        PlacedElements(front, key);
        var before := Placed(front, key);
        forall i | 0 <= i < |before|
          ensures before[i] != last && CompareKeys(before[i], last) <= 0
        {
          assert before[i] in Elements(before);
          KeysOrder(key, last, key);
        }
      } else {
        forall i | 0 <= i < |order|
          ensures CompareKeys(order[i], key) <= 0
        {
          KeysOrder(order[i], last, key);
        }
      }
    }
  }

  ghost predicate NoTies(keys: set<RollupKey>) {
    forall a, b :: a in keys && b in keys && Tied(a, b) ==> a == b
  }

  /** The order of the totals is determined if and only if no two buckets differ in outcome alone. */
  lemma OrderDetermined(keys: set<RollupKey>)
    ensures NoTies(keys) <==> forall a, b :: IsOrder(a, keys) && IsOrder(b, keys) ==> a == b
  {
    if NoTies(keys) {
      forall a, b | IsOrder(a, keys) && IsOrder(b, keys)
        ensures a == b
      {
        OneOrder(a, b, keys);
      }
    } else {
      var x, y :| x in keys && y in keys && Tied(x, y) && x != y;
      var order := OrderExists(keys);
      TiesSwap(order, keys, x, y);
    }
  }

  lemma {:induction false} OneOrder(a: seq<RollupKey>, b: seq<RollupKey>, keys: set<RollupKey>)
    requires NoTies(keys) && IsOrder(a, keys) && IsOrder(b, keys)
    ensures a == b
  {
    DistinctSize(a);
    DistinctSize(b);
    if a != [] {
      var x, y := a[|a| - 1], b[|b| - 1];
      LastsTied(a, b, keys);
      assert x == y;
      FrontIsOrder(a, keys);
      FrontIsOrder(b, keys);
      OneOrder(a[..|a| - 1], b[..|b| - 1], keys - {x});
      assert a == a[..|a| - 1] + [x] && b == b[..|b| - 1] + [y];
    }
  }

  /** Two orders of the same keys end in tied keys. */
  lemma LastsTied(a: seq<RollupKey>, b: seq<RollupKey>, keys: set<RollupKey>)
    requires IsOrder(a, keys) && IsOrder(b, keys) && a != [] && b != []
    ensures a[|a| - 1] in keys && b[|b| - 1] in keys && Tied(a[|a| - 1], b[|b| - 1])
  {
    var x, y := a[|a| - 1], b[|b| - 1];
    assert x in Elements(a) && y in Elements(b);
    if x != y {
      BeforeLast(a, y);
      BeforeLast(b, x);
    }
    KeysOrder(x, y, x);
  }

  lemma BeforeLast(order: seq<RollupKey>, key: RollupKey)
    requires InOrder(order) && key in order && key != order[|order| - 1]
    ensures CompareKeys(key, order[|order| - 1]) <= 0
  {
  }

  lemma FrontIsOrder(order: seq<RollupKey>, keys: set<RollupKey>)
    requires IsOrder(order, keys) && order != []
    ensures IsOrder(order[..|order| - 1], keys - {order[|order| - 1]})
  {
  }

  lemma TiesSwap(order: seq<RollupKey>, keys: set<RollupKey>, x: RollupKey, y: RollupKey)
    requires IsOrder(order, keys) && x in keys && y in keys && Tied(x, y) && x != y
    ensures exists other :: IsOrder(other, keys) && other != order
  {
    assert x in Elements(order) && y in Elements(order);
    var i :| 0 <= i < |order| && order[i] == x;
    var j :| 0 <= j < |order| && order[j] == y;
    var other := order[i := y][j := x];
    SwapKeeps(order, i, j);
    assert IsOrder(other, keys) && other[i] != order[i];
  }

  lemma SwapKeeps(order: seq<RollupKey>, i: nat, j: nat)
    requires i < |order| && j < |order| && i != j && Tied(order[i], order[j])
    requires Distinct(order) && InOrder(order)
    ensures Elements(order[i := order[j]][j := order[i]]) == Elements(order)
    ensures Distinct(order[i := order[j]][j := order[i]]) && InOrder(order[i := order[j]][j := order[i]])
  {
    var other := order[i := order[j]][j := order[i]];
    forall k | 0 <= k < |order|
      ensures order[k] in other && Tied(other[k], order[k])
    {
      assert other[if k == i then j else if k == j then i else k] == order[k];
    }
    forall a, b | 0 <= a < b < |other|
      ensures CompareKeys(other[a], other[b]) <= 0
    {
      assert Tied(other[a], order[a]) && Tied(other[b], order[b]);
    }
  }

  // ----- The rollups as they are written

  /** The totals of the buckets, in this order. */
  function Totals(order: seq<RollupKey>, buckets: Buckets, now: string): seq<Line>
    requires Elements(order) <= buckets.Keys
  {
    if order == [] then []
    else
      var front, last := order[..|order| - 1], order[|order| - 1];
      assert last in Elements(order) && Elements(front) <= Elements(order);
      Totals(front, buckets, now) + [Total(now, last, buckets[last])]
  }

  /** One total for each bucket, as the bucket stands. */
  lemma {:induction false} TotalsAre(order: seq<RollupKey>, buckets: Buckets, now: string)
    requires Elements(order) <= buckets.Keys
    ensures |Totals(order, buckets, now)| == |order|
    ensures forall i :: 0 <= i < |order| ==>
              order[i] in buckets && Totals(order, buckets, now)[i] == Total(now, order[i], buckets[order[i]])
  {
    if order != [] {
      var front, last := order[..|order| - 1], order[|order| - 1];
      assert last in Elements(order) && Elements(front) <= Elements(order);
      TotalsAre(front, buckets, now);
    }
  }

  lemma {:induction false} TotalsCarry(m: Measure, order: seq<RollupKey>, buckets: Buckets, now: string)
    requires Distinct(order) && Elements(order) <= buckets.Keys
    ensures LinesWeight(m, Totals(order, buckets, now)) + Pending(m, buckets - Elements(order)) == Pending(m, buckets)
  {
    if order == [] {
      assert buckets - Elements(order) == buckets;
    } else {
      var front, last := order[..|order| - 1], order[|order| - 1];
      assert order == front + [last];
      ElementsSnoc(front, last);
      TotalsCarry(m, front, buckets, now);
      var rest := buckets - Elements(front);
      PendingTake(m, rest, last);
      assert rest - {last} == buckets - Elements(order);
      LinesSnoc(m, Totals(front, buckets, now), Total(now, last, buckets[last]));
    }
  }

  lemma LinesSnoc(m: Measure, lines: seq<Line>, line: Line)
    ensures LinesWeight(m, lines + [line]) == LinesWeight(m, lines) + LineWeight(m, line)
  {
  }

  /** Draining loses nothing: the totals carry exactly what was pending, under every measure. */
  lemma TotalsCarryPending(m: Measure, order: seq<RollupKey>, buckets: Buckets, now: string)
    requires IsOrder(order, buckets.Keys)
    ensures LinesWeight(m, Totals(order, buckets, now)) == Pending(m, buckets)
  {
    TotalsCarry(m, order, buckets, now);
    assert (buckets - Elements(order)).Keys == {};
  }

  class Rollups {
    var buckets: Buckets

    constructor ()
      ensures buckets == map[]
    {
      buckets := map[];
    }

    /** Counts the record in its bucket, as a failure too when its status says so. */
    method Fold(record: Record)
      modifies this
      ensures buckets == Folded(old(buckets), record)
      ensures forall key :: key in buckets <==> key in old(buckets) || Has(record, key)
      ensures forall key :: key in buckets && !Has(record, key) ==> buckets[key] == old(buckets)[key]
      ensures forall key :: key in old(buckets) && Has(record, key) ==>
                var was := old(buckets)[key];
                var failed := record.status.Some? && record.status.value >= 400;
                buckets[key] == was.(ops := was.ops + 1, errors := was.errors + if failed then 1 else 0)
      ensures forall key :: key !in old(buckets) && Has(record, key) ==>
                var failed := record.status.Some? && record.status.value >= 400;
                buckets[key] == Rollup(1, if failed then 1 else 0, record.ts, record.keyLabel, record.role)
    {
      var key := KeyOf(record);
      if key !in buckets {
        buckets := buckets[key := Rollup(0, 0, record.ts, record.keyLabel, record.role)];
      }
      var entry := buckets[key];
      entry := entry.(ops := entry.ops + 1);
      if Failed(record) {
        entry := entry.(errors := entry.errors + 1);
      }
      buckets := buckets[key := entry];
    }

    /** Every bucket becomes one total, in one of the sorted orders, and a new window starts. */
    method Drain(now: string) returns (order: seq<RollupKey>, totals: seq<Line>)
      modifies this
      ensures buckets == map[]
      ensures IsOrder(order, old(buckets).Keys)
      ensures totals == Totals(order, old(buckets), now) && |totals| == |order|
      ensures forall i :: 0 <= i < |order| ==>
                order[i] in old(buckets) && totals[i] == Total(now, order[i], old(buckets)[order[i]])
    {
      var left := buckets.Keys;
      order := [];
      while left != {}
        invariant left <= buckets.Keys && left !! Elements(order)
        invariant IsOrder(order, buckets.Keys - left)
        invariant buckets == old(buckets)
        decreases |left|
      {
        var key :| key in left;
        PlacedIsOrder(order, key);
        order := Placed(order, key);
        left := left - {key};
      }
      assert buckets.Keys - left == buckets.Keys;
      totals := Totals(order, buckets, now);
      TotalsAre(order, buckets, now);
      buckets := map[];
    }
  }
}
