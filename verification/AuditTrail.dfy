/** The audit writer: senders that never block, one thread that folds, flushes and admits what was lost. */
module AuditTrail {
  import opened Wrappers
  import opened Sets
  import opened AuditRollups
  import F = AuditFiles

  datatype Message = Detail(record: Record) | Rolled(record: Record) | Shutdown

  /** Waiting for a message; totals out and the drop counter still to be read; counter read for the last time; gone. */
  datatype Writer = Idle | Reporting(stopping: bool) | Closing | Stopped

  /**
    `offered`: the records handed to the sink, as messages. `lost`: those the queue refused, of which
    `uncounted` are still to be added to the counter `dropped` by their senders. `accepted`: the messages the
    queue took, in order. `received`: those the writer has taken. `queue`: those it has not. `emitted`: every
    line written. `reported`: the drops admitted.
   */
  datatype State = State(
    capacity: nat,
    offered: seq<Message>,
    lost: seq<Message>,
    uncounted: nat,
    accepted: seq<Message>,
    received: seq<Message>,
    queue: seq<Message>,
    dropped: nat,
    buckets: Buckets,
    emitted: seq<Line>,
    reported: nat,
    writer: Writer)

  function Started(capacity: nat): State {
    State(capacity, [], [], 0, [], [], [], 0, map[], [], 0, Idle)
  }

  /** `now`, `order`: the clock and the order of the totals, where a step writes any. */
  datatype Step =
    | Offer(record: Record, rolled: bool)
    | CountDrop
    | AskShutdown
    | Receive(now: string, order: seq<RollupKey>)
    | Timeout(now: string, order: seq<RollupKey>)
    | Report(now: string)
    | Close

  predicate HasRoom(s: State) {
    !s.writer.Stopped? && |s.queue| < s.capacity
  }

  function Wrap(record: Record, rolled: bool): Message {
    if rolled then Rolled(record) else Detail(record)
  }

  function Enqueued(s: State, message: Message): State {
    s.(accepted := s.accepted + [message], queue := s.queue + [message])
  }

  /** The buckets become totals; what is left of the flush is the drop counter. */
  ghost function Flushed(s: State, now: string, order: seq<RollupKey>, stopping: bool): State
    requires IsOrder(order, s.buckets.Keys)
  {
    s.(emitted := s.emitted + Totals(order, s.buckets, now), buckets := map[], writer := Reporting(stopping))
  }

  ghost function Processed(s: State, message: Message, now: string, order: seq<RollupKey>): State {
    match message
    case Detail(record) => s.(emitted := s.emitted + [Kept(record)])
    case Rolled(record) => s.(buckets := Folded(s.buckets, record))
    case Shutdown => if IsOrder(order, s.buckets.Keys) then Flushed(s, now, order, true) else s
  }

  predicate CanReceive(s: State) {
    s.writer.Idle? && s.queue != []
  }

  /** One atomic step each; one that cannot happen leaves the state alone. */
  ghost function Take(s: State, step: Step): State {
    match step
    case Offer(record, rolled) =>
      var message := Wrap(record, rolled);
      if HasRoom(s) then Enqueued(s, message).(offered := s.offered + [message])
      else s.(offered := s.offered + [message], lost := s.lost + [message], uncounted := s.uncounted + 1)
    case CountDrop =>
      if s.uncounted > 0 then s.(uncounted := s.uncounted - 1, dropped := s.dropped + 1) else s
    case AskShutdown => if HasRoom(s) then Enqueued(s, Shutdown) else s
    case Receive(now, order) =>
      if CanReceive(s) && (s.queue[0].Shutdown? ==> IsOrder(order, s.buckets.Keys)) then
        Processed(s.(received := s.received + [s.queue[0]], queue := s.queue[1..]), s.queue[0], now, order)
      else s
    case Timeout(now, order) =>
      if s.writer.Idle? && s.queue == [] && IsOrder(order, s.buckets.Keys) then Flushed(s, now, order, false) else s
    case Report(now) =>
      if s.writer.Reporting? then
        s.(emitted := s.emitted + if s.dropped > s.reported then [Gap(now, s.dropped - s.reported)] else [],
           reported := if s.dropped > s.reported then s.dropped else s.reported,
           writer := if s.writer.stopping then Closing else Idle)
      else s
    case Close => if s.writer.Closing? then s.(writer := Stopped) else s
  }

  ghost function After(capacity: nat, steps: seq<Step>): State {
    if steps == [] then Started(capacity) else Take(After(capacity, steps[..|steps| - 1]), steps[|steps| - 1])
  }

  // ----- What is conserved

  function MessageWeight(m: Measure, message: Message): nat {
    match message
    case Detail(_) => if m.AllRecords? then 1 else 0
    case Rolled(record) => RolledWeight(m, record)
    case Shutdown => 0
  }

  function MessagesWeight(m: Measure, messages: seq<Message>): nat {
    if messages == [] then 0
    else MessagesWeight(m, messages[..|messages| - 1]) + MessageWeight(m, messages[|messages| - 1])
  }

  function DetailsOf(messages: seq<Message>): seq<Record> {
    if messages == [] then []
    else
      var last := messages[|messages| - 1];
      DetailsOf(messages[..|messages| - 1]) + if last.Detail? then [last.record] else []
  }

  function KeptOf(lines: seq<Line>): seq<Record> {
    if lines == [] then []
    else
      var last := lines[|lines| - 1];
      KeptOf(lines[..|lines| - 1]) + if last.Kept? then [last.record] else []
  }

  function Admitted(m: Measure, reported: nat): nat {
    if m.Losses? then reported else 0
  }

  /** Under one measure: what was written and what is pending is what was received, and the drops admitted. */
  ghost predicate Balanced(m: Measure, s: State) {
    LinesWeight(m, s.emitted) + Pending(m, s.buckets) == MessagesWeight(m, s.received) + Admitted(m, s.reported)
  }

  /** Under one measure: what was offered is what was accepted and what was lost. */
  ghost predicate Accounted(m: Measure, s: State) {
    MessagesWeight(m, s.offered) == MessagesWeight(m, s.accepted) + MessagesWeight(m, s.lost)
  }

  /** The details written are the details received, in order and verbatim. */
  ghost predicate Verbatim(s: State) {
    KeptOf(s.emitted) == DetailsOf(s.received)
  }

  /** Messages are taken in the order they were accepted, none lost and none twice. */
  predicate InTurn(s: State) {
    s.accepted == s.received + s.queue
  }

  ghost predicate Bounded(s: State) {
    && |s.lost| == s.dropped + s.uncounted == MessagesWeight(AllRecords, s.lost)
    && |s.offered| == MessagesWeight(AllRecords, s.offered)
    && |s.queue| <= s.capacity
    && s.reported <= s.dropped
  }

  predicate Ended(received: seq<Message>) {
    received != [] && received[|received| - 1].Shutdown? && Shutdown !in received[..|received| - 1]
  }

  /** The writer takes nothing after a shutdown, and stops with no bucket left. */
  predicate Phased(s: State) {
    match s.writer
    case Idle => Shutdown !in s.received
    case Reporting(stopping) => s.buckets == map[] && if stopping then Ended(s.received) else Shutdown !in s.received
    case _ => s.buckets == map[] && Ended(s.received)
  }

  ghost predicate Sound(s: State) {
    (forall m :: Balanced(m, s) && Accounted(m, s)) && Verbatim(s) && InTurn(s) && Bounded(s) && Phased(s)
  }

  // ----- Joining

  lemma MessagesSnoc(m: Measure, messages: seq<Message>, message: Message)
    ensures MessagesWeight(m, messages + [message]) == MessagesWeight(m, messages) + MessageWeight(m, message)
  {
  }

  lemma {:induction false} MessagesJoin(m: Measure, a: seq<Message>, b: seq<Message>)
    ensures MessagesWeight(m, a + b) == MessagesWeight(m, a) + MessagesWeight(m, b)
  {
    if b == [] {
      assert a + b == a;
    } else {
      MessagesJoin(m, a, b[..|b| - 1]);
      MessagesSnoc(m, a + b[..|b| - 1], b[|b| - 1]);
      assert a + b == a + b[..|b| - 1] + [b[|b| - 1]];
    }
  }

  lemma DetailsSnoc(messages: seq<Message>, message: Message)
    ensures DetailsOf(messages + [message]) == DetailsOf(messages) + if message.Detail? then [message.record] else []
  {
  }

  lemma KeptSnoc(lines: seq<Line>, line: Line)
    ensures KeptOf(lines + [line]) == KeptOf(lines) + if line.Kept? then [line.record] else []
  {
  }

  lemma {:induction false} KeptJoin(a: seq<Line>, b: seq<Line>)
    ensures KeptOf(a + b) == KeptOf(a) + KeptOf(b)
  {
    if b == [] {
      assert a + b == a;
    } else {
      assert (a + b)[..|a + b| - 1] == a + b[..|b| - 1];
      KeptJoin(a, b[..|b| - 1]);
    }
  }

  lemma {:induction false} TotalsKeepNone(order: seq<RollupKey>, buckets: Buckets, now: string)
    requires Elements(order) <= buckets.Keys
    ensures KeptOf(Totals(order, buckets, now)) == []
  {
    if order != [] {
      var front, last := order[..|order| - 1], order[|order| - 1];
      assert last in Elements(order) && Elements(front) <= Elements(order);
      TotalsKeepNone(front, buckets, now);
      KeptSnoc(Totals(front, buckets, now), Total(now, last, buckets[last]));
    }
  }

  /** Totals add no verbatim record. */
  lemma KeptTotals(lines: seq<Line>, order: seq<RollupKey>, buckets: Buckets, now: string)
    requires Elements(order) <= buckets.Keys
    ensures KeptOf(lines + Totals(order, buckets, now)) == KeptOf(lines)
  {
    TotalsKeepNone(order, buckets, now);
    KeptJoin(lines, Totals(order, buckets, now));
  }

  // ----- Each step

  lemma FlushBalances(m: Measure, s: State, now: string, order: seq<RollupKey>, stopping: bool)
    requires Balanced(m, s) && IsOrder(order, s.buckets.Keys)
    ensures Balanced(m, Flushed(s, now, order, stopping))
  {
    TotalsCarryPending(m, order, s.buckets, now);
    LinesJoin(m, s.emitted, Totals(order, s.buckets, now));
  }

  /** A message taken adds to what was received what it adds to what is written or pending. */
  lemma TakenBalances(m: Measure, s: State, after: State, message: Message)
    requires Balanced(m, s) && after.received == s.received + [message] && after.reported == s.reported
    requires LinesWeight(m, after.emitted) + Pending(m, after.buckets)
      == LinesWeight(m, s.emitted) + Pending(m, s.buckets) + MessageWeight(m, message)
    ensures Balanced(m, after)
  {
    MessagesSnoc(m, s.received, message);
  }

  lemma DetailBalances(m: Measure, s: State, record: Record, after: State)
    requires Balanced(m, s) && after.received == s.received + [Detail(record)] && after.reported == s.reported
    requires after.emitted == s.emitted + [Kept(record)] && after.buckets == s.buckets
    ensures Balanced(m, after)
  {
    LinesSnoc(m, s.emitted, Kept(record));
    TakenBalances(m, s, after, Detail(record));
  }

  lemma RolledBalances(m: Measure, s: State, record: Record, after: State)
    requires Balanced(m, s) && after.received == s.received + [Rolled(record)] && after.reported == s.reported
    requires after.emitted == s.emitted && after.buckets == Folded(s.buckets, record)
    ensures Balanced(m, after)
  {
    FoldAdds(m, s.buckets, record);
    TakenBalances(m, s, after, Rolled(record));
  }

  lemma ShutdownBalances(m: Measure, s: State, now: string, order: seq<RollupKey>, after: State)
    requires Balanced(m, s) && after.received == s.received + [Shutdown] && after.reported == s.reported
    requires IsOrder(order, s.buckets.Keys)
    requires after.emitted == s.emitted + Totals(order, s.buckets, now) && after.buckets == map[]
    ensures Balanced(m, after)
  {
    TotalsCarryPending(m, order, s.buckets, now);
    LinesJoin(m, s.emitted, Totals(order, s.buckets, now));
    TakenBalances(m, s, after, Shutdown);
  }

  lemma ReceiveBalances(m: Measure, s: State, now: string, order: seq<RollupKey>)
    requires Balanced(m, s) && CanReceive(s) && (s.queue[0].Shutdown? ==> IsOrder(order, s.buckets.Keys))
    ensures Balanced(m, Take(s, Receive(now, order)))
  {
    var after := Take(s, Receive(now, order));
    match s.queue[0]
    case Detail(record) => DetailBalances(m, s, record, after);
    case Rolled(record) => RolledBalances(m, s, record, after);
    case Shutdown => ShutdownBalances(m, s, now, order, after);
  }

  lemma ReportBalances(m: Measure, s: State, now: string)
    requires Balanced(m, s) && s.writer.Reporting? && s.reported <= s.dropped
    ensures Balanced(m, Take(s, Report(now)))
  {
    if s.dropped > s.reported {
      LinesSnoc(m, s.emitted, Gap(now, s.dropped - s.reported));
    } else {
      assert s.emitted + [] == s.emitted;
    }
  }

  lemma StepBalances(m: Measure, s: State, step: Step)
    requires Balanced(m, s) && s.reported <= s.dropped
    ensures Balanced(m, Take(s, step))
  {
    match step
    case Offer(_, _) =>
    case CountDrop =>
    case AskShutdown =>
    case Receive(now, order) =>
      if CanReceive(s) && (s.queue[0].Shutdown? ==> IsOrder(order, s.buckets.Keys)) {
        ReceiveBalances(m, s, now, order);
      }
    case Timeout(now, order) =>
      if s.writer.Idle? && s.queue == [] && IsOrder(order, s.buckets.Keys) { FlushBalances(m, s, now, order, false); }
    case Report(now) => if s.writer.Reporting? { ReportBalances(m, s, now); }
    case Close =>
  }

  lemma OfferAccounts(m: Measure, s: State, record: Record, rolled: bool)
    requires Accounted(m, s)
    ensures Accounted(m, Take(s, Offer(record, rolled)))
  {
    var message := Wrap(record, rolled);
    MessagesSnoc(m, s.offered, message);
    if HasRoom(s) {
      MessagesSnoc(m, s.accepted, message);
    } else {
      MessagesSnoc(m, s.lost, message);
    }
  }

  lemma AskAccounts(m: Measure, s: State)
    requires Accounted(m, s)
    ensures Accounted(m, Take(s, AskShutdown))
  {
    MessagesSnoc(m, s.accepted, Shutdown);
  }

  lemma StepAccounts(m: Measure, s: State, step: Step)
    requires Accounted(m, s)
    ensures Accounted(m, Take(s, step))
  {
    match step
    case Offer(record, rolled) => OfferAccounts(m, s, record, rolled);
    case AskShutdown => AskAccounts(m, s);
    case _ =>
  }

  lemma DetailVerbatim(emitted: seq<Line>, received: seq<Message>, record: Record)
    requires KeptOf(emitted) == DetailsOf(received)
    ensures KeptOf(emitted + [Kept(record)]) == DetailsOf(received + [Detail(record)])
  {
    DetailsSnoc(received, Detail(record));
    KeptSnoc(emitted, Kept(record));
  }

  lemma TotalsVerbatim(emitted: seq<Line>, order: seq<RollupKey>, buckets: Buckets, now: string, details: seq<Record>)
    requires Elements(order) <= buckets.Keys && KeptOf(emitted) == details
    ensures KeptOf(emitted + Totals(order, buckets, now)) == details
  {
    KeptTotals(emitted, order, buckets, now);
  }

  lemma GapVerbatim(emitted: seq<Line>, now: string, lost: nat)
    ensures KeptOf(emitted + [Gap(now, lost)]) == KeptOf(emitted)
  {
    KeptSnoc(emitted, Gap(now, lost));
    assert KeptOf(emitted) + [] == KeptOf(emitted);
  }

  lemma OthersVerbatim(received: seq<Message>, message: Message)
    requires !message.Detail?
    ensures DetailsOf(received + [message]) == DetailsOf(received)
  {
    DetailsSnoc(received, message);
    assert DetailsOf(received) + [] == DetailsOf(received);
  }

  lemma ReceiveVerbatim(s: State, now: string, order: seq<RollupKey>)
    requires Verbatim(s) && CanReceive(s) && (s.queue[0].Shutdown? ==> IsOrder(order, s.buckets.Keys))
    ensures Verbatim(Take(s, Receive(now, order)))
  {
    match s.queue[0]
    case Detail(record) => DetailVerbatim(s.emitted, s.received, record);
    case Rolled(record) => OthersVerbatim(s.received, Rolled(record));
    case Shutdown =>
      OthersVerbatim(s.received, Shutdown);
      TotalsVerbatim(s.emitted, order, s.buckets, now, DetailsOf(s.received));
  }

  lemma TimeoutVerbatim(s: State, now: string, order: seq<RollupKey>)
    requires Verbatim(s)
    ensures Verbatim(Take(s, Timeout(now, order)))
  {
    if s.writer.Idle? && s.queue == [] && IsOrder(order, s.buckets.Keys) {
      TotalsVerbatim(s.emitted, order, s.buckets, now, DetailsOf(s.received));
    }
  }

  lemma ReportVerbatim(s: State, now: string)
    requires Verbatim(s)
    ensures Verbatim(Take(s, Report(now)))
  {
    if s.dropped > s.reported {
      GapVerbatim(s.emitted, now, s.dropped - s.reported);
    } else {
      assert s.emitted + [] == s.emitted;
    }
  }

  lemma StepVerbatim(s: State, step: Step)
    requires Verbatim(s)
    ensures Verbatim(Take(s, step))
  {
    match step
    case Receive(now, order) =>
      if CanReceive(s) && (s.queue[0].Shutdown? ==> IsOrder(order, s.buckets.Keys)) {
        ReceiveVerbatim(s, now, order);
      }
    case Timeout(now, order) => TimeoutVerbatim(s, now, order);
    case Report(now) => ReportVerbatim(s, now);
    case _ =>
  }

  lemma StepBounded(s: State, step: Step)
    requires Bounded(s)
    ensures Bounded(Take(s, step))
  {
    if step.Offer? {
      MessagesSnoc(AllRecords, s.offered, Wrap(step.record, step.rolled));
      MessagesSnoc(AllRecords, s.lost, Wrap(step.record, step.rolled));
    }
  }

  lemma StepInTurn(s: State, step: Step)
    requires InTurn(s)
    ensures InTurn(Take(s, step))
  {
  }

  lemma StepPhased(s: State, step: Step)
    requires Phased(s)
    ensures Phased(Take(s, step))
  {
  }

  /** Over every interleaving of senders and writer. */
  lemma {:induction false} RunsAreSound(capacity: nat, steps: seq<Step>)
    ensures Sound(After(capacity, steps))
  {
    if steps == [] {
      forall m
        ensures Balanced(m, Started(capacity)) && Accounted(m, Started(capacity))
      {
      }
    } else {
      RunsAreSound(capacity, steps[..|steps| - 1]);
      var s, step := After(capacity, steps[..|steps| - 1]), steps[|steps| - 1];
      forall m
        ensures Balanced(m, Take(s, step)) && Accounted(m, Take(s, step))
      {
        StepBalances(m, s, step);
        StepAccounts(m, s, step);
      }
      StepVerbatim(s, step);
      StepInTurn(s, step);
      StepBounded(s, step);
      StepPhased(s, step);
    }
  }

  lemma MeasureAccounted(m: Measure, s: State)
    requires Sound(s) && !m.Losses?
    ensures MessagesWeight(m, s.offered)
      == MessagesWeight(m, s.queue) + MessagesWeight(m, s.lost) + LinesWeight(m, s.emitted) + Pending(m, s.buckets)
  {
    assert Balanced(m, s) && Accounted(m, s);
    MessagesJoin(m, s.received, s.queue);
  }

  /** The records among the messages that are to be counted in totals. */
  function RolledOf(messages: seq<Message>): seq<Record> {
    if messages == [] then []
    else
      var last := messages[|messages| - 1];
      RolledOf(messages[..|messages| - 1]) + if last.Rolled? then [last.record] else []
  }

  lemma OpsSnoc(records: seq<Record>, record: Record, key: RollupKey)
    ensures OpsWith(records + [record], key) == OpsWith(records, key) + RolledWeight(OpsOf(key), record)
    ensures ErrorsWith(records + [record], key) == ErrorsWith(records, key) + RolledWeight(ErrorsOf(key), record)
  {
    assert (records + [record])[..|records|] == records;
  }

  lemma {:induction false} RolledAreWeighed(messages: seq<Message>, key: RollupKey)
    ensures MessagesWeight(OpsOf(key), messages) == OpsWith(RolledOf(messages), key)
    ensures MessagesWeight(ErrorsOf(key), messages) == ErrorsWith(RolledOf(messages), key)
  {
    if messages != [] {
      var front, last := messages[..|messages| - 1], messages[|messages| - 1];
      RolledAreWeighed(front, key);
      if last.Rolled? {
        OpsSnoc(RolledOf(front), last.record, key);
      } else {
        assert RolledOf(messages) == RolledOf(front);
      }
    }
  }

  /** The operations and the failures that the totals written give for these four fields. */
  function OpsWritten(lines: seq<Line>, key: RollupKey): nat {
    if lines == [] then 0
    else
      var last := lines[|lines| - 1];
      OpsWritten(lines[..|lines| - 1], key) + if last.Total? && last.key == key then last.rollup.ops else 0
  }

  function ErrorsWritten(lines: seq<Line>, key: RollupKey): nat {
    if lines == [] then 0
    else
      var last := lines[|lines| - 1];
      ErrorsWritten(lines[..|lines| - 1], key) + if last.Total? && last.key == key then last.rollup.errors else 0
  }

  lemma {:induction false} WrittenAreWeighed(lines: seq<Line>, key: RollupKey)
    ensures LinesWeight(OpsOf(key), lines) == OpsWritten(lines, key)
    ensures LinesWeight(ErrorsOf(key), lines) == ErrorsWritten(lines, key)
  {
    if lines != [] {
      WrittenAreWeighed(lines[..|lines| - 1], key);
    }
  }

  /** For these four fields: all the operations offered are queued, lost, written in totals or pending. */
  ghost predicate OpsAccounted(s: State, key: RollupKey) {
    OpsWith(RolledOf(s.offered), key)
    == OpsWith(RolledOf(s.queue), key) + OpsWith(RolledOf(s.lost), key) + OpsWritten(s.emitted, key)
       + if key in s.buckets then s.buckets[key].ops else 0
  }

  ghost predicate ErrorsAccounted(s: State, key: RollupKey) {
    ErrorsWith(RolledOf(s.offered), key)
    == ErrorsWith(RolledOf(s.queue), key) + ErrorsWith(RolledOf(s.lost), key) + ErrorsWritten(s.emitted, key)
       + if key in s.buckets then s.buckets[key].errors else 0
  }

  lemma FieldsAccounted(s: State, key: RollupKey)
    requires Sound(s)
    ensures OpsAccounted(s, key) && ErrorsAccounted(s, key)
  {
    MeasureAccounted(OpsOf(key), s);
    MeasureAccounted(ErrorsOf(key), s);
    PendingOfKey(s.buckets, key);
    RolledAreWeighed(s.offered, key);
    RolledAreWeighed(s.queue, key);
    RolledAreWeighed(s.lost, key);
    WrittenAreWeighed(s.emitted, key);
  }

  /**
    In every reachable state: offered = queued + dropped + refused and not yet counted + details written +
    operations in the totals written + operations pending; for each event, key id, index and outcome so are
    the operations and the failures of the records that have them; and the gaps written add up to the drops
    admitted, never more than there were.
   */
  lemma NothingUncounted(capacity: nat, steps: seq<Step>, key: RollupKey)
    ensures var s := After(capacity, steps);
      && |s.offered| == MessagesWeight(AllRecords, s.queue) + s.dropped + s.uncounted
                        + LinesWeight(AllRecords, s.emitted) + Pending(AllRecords, s.buckets)
      && OpsAccounted(s, key) && ErrorsAccounted(s, key)
      && LinesWeight(Losses, s.emitted) == s.reported <= s.dropped && s.dropped + s.uncounted == |s.lost|
  {
    RunsAreSound(capacity, steps);
    var s := After(capacity, steps);
    MeasureAccounted(AllRecords, s);
    FieldsAccounted(s, key);
    assert Balanced(Losses, s);
    NoLosses(s);
  }

  lemma {:induction false} NoLossPending(buckets: Buckets)
    ensures Pending(Losses, buckets) == 0
    decreases |buckets.Keys|
  {
    if buckets.Keys != {} {
      var key :| key in buckets.Keys;
      assert (buckets - {key}).Keys == buckets.Keys - {key};
      NoLossPending(buckets - {key});
      PendingTake(Losses, buckets, key);
    }
  }

  lemma {:induction false} NoLossReceived(messages: seq<Message>)
    ensures MessagesWeight(Losses, messages) == 0
  {
    if messages != [] {
      NoLossReceived(messages[..|messages| - 1]);
    }
  }

  lemma NoLosses(s: State)
    ensures Pending(Losses, s.buckets) == 0 && MessagesWeight(Losses, s.received) == 0
  {
    NoLossPending(s.buckets);
    NoLossReceived(s.received);
  }

  // ----- The window

  /** The records taken for counting since the last flush. */
  ghost function Window(capacity: nat, steps: seq<Step>): seq<Record> {
    if steps == [] then []
    else
      var front, last := steps[..|steps| - 1], steps[|steps| - 1];
      WindowAfter(After(capacity, front), Window(capacity, front), last)
  }

  ghost function WindowAfter(s: State, window: seq<Record>, step: Step): seq<Record> {
    match step
    case Receive(_, order) =>
      if !CanReceive(s) then window
      else
        (match s.queue[0]
         case Detail(_) => window
         case Rolled(record) => window + [record]
         case Shutdown => if IsOrder(order, s.buckets.Keys) then [] else window)
    case Timeout(_, order) =>
      if s.writer.Idle? && s.queue == [] && IsOrder(order, s.buckets.Keys) then [] else window
    case _ => window
  }

  lemma FoldedSnoc(records: seq<Record>, record: Record)
    ensures FoldedAll(records + [record]) == Folded(FoldedAll(records), record)
  {
    assert (records + [record])[..|records|] == records;
  }

  lemma StepKeepsWindow(s: State, window: seq<Record>, step: Step)
    requires s.buckets == FoldedAll(window)
    ensures Take(s, step).buckets == FoldedAll(WindowAfter(s, window, step))
  {
    if step.Receive? && CanReceive(s) && s.queue[0].Rolled? {
      FoldedSnoc(window, s.queue[0].record);
    }
  }

  /** In every reachable state the buckets are those of the window, so each total tells of its window's records. */
  lemma {:induction false} BucketsAreWindow(capacity: nat, steps: seq<Step>)
    ensures After(capacity, steps).buckets == FoldedAll(Window(capacity, steps))
  {
    if steps != [] {
      var front, last := steps[..|steps| - 1], steps[|steps| - 1];
      BucketsAreWindow(capacity, front);
      StepKeepsWindow(After(capacity, front), Window(capacity, front), last);
    }
  }

  // ----- Shutdown

  /** Once stopped, every message accepted up to the first shutdown is in the trail, and nothing is pending. */
  lemma StoppedHoldsNothing(capacity: nat, steps: seq<Step>, m: Measure)
    requires After(capacity, steps).writer.Stopped?
    ensures var s := After(capacity, steps);
      && s.buckets == map[]
      && Ended(s.received) && s.received <= s.accepted
      && LinesWeight(m, s.emitted) == MessagesWeight(m, s.received) + Admitted(m, s.reported)
      && KeptOf(s.emitted) == DetailsOf(s.received)
  {
    RunsAreSound(capacity, steps);
    assert Balanced(m, After(capacity, steps));
  }

  /** The trail tells of every record offered: written, counted in a total, or counted in a gap. */
  ghost predicate AllTold(s: State) {
    |s.offered| == LinesWeight(AllRecords, s.emitted) + LinesWeight(Losses, s.emitted)
  }

  /**
    A step whose record the trail will not tell of: an offer accepted behind a shutdown, or a drop counted
    after the counter was read for the last time.
   */
  predicate Late(s: State, step: Step) {
    || (step.Offer? && HasRoom(s) && (Shutdown in s.received || Shutdown in s.queue))
    || (step.CountDrop? && s.uncounted > 0 && (s.writer.Closing? || s.writer.Stopped?))
  }

  ghost function LateSteps(capacity: nat, steps: seq<Step>): nat {
    if steps == [] then 0
    else
      LateSteps(capacity, steps[..|steps| - 1])
      + if Late(After(capacity, steps[..|steps| - 1]), steps[|steps| - 1]) then 1 else 0
  }

  /** What follows the first shutdown. */
  function Rest(messages: seq<Message>): seq<Message> {
    if messages == [] then [] else if messages[0].Shutdown? then messages[1..] else Rest(messages[1..])
  }

  lemma {:induction false} RestSnoc(messages: seq<Message>, message: Message)
    ensures Rest(messages + [message]) == if Shutdown in messages then Rest(messages) + [message] else []
  {
    if messages == [] {
      assert messages + [message] == [message];
    } else {
      assert (messages + [message])[1..] == messages[1..] + [message];
      assert messages == [messages[0]] + messages[1..];
      if !messages[0].Shutdown? {
        RestSnoc(messages[1..], message);
      }
    }
  }

  lemma {:induction false} RestOfNone(messages: seq<Message>)
    requires Shutdown !in messages
    ensures Rest(messages) == []
  {
    if messages != [] {
      RestOfNone(messages[1..]);
    }
  }

  predicate Leaving(s: State) {
    s.writer.Stopped? || s.writer.Closing? || s.writer == Reporting(true)
  }

  /** The messages the writer will never take. */
  function Stranded(s: State): seq<Message> {
    if Leaving(s) then s.queue else Rest(s.queue)
  }

  /** What is owed an account: the records stranded, and at the end the drops nobody will report. */
  function Owed(s: State): int {
    MessagesWeight(AllRecords, Stranded(s))
    + if s.writer.Closing? || s.writer.Stopped? then s.dropped - s.reported else 0
  }

  lemma ShutdownTaken(s: State)
    requires Phased(s)
    ensures Shutdown in s.received <==> Leaving(s)
  {
  }

  /** A message joins what is stranded when a shutdown is ahead of it. */
  lemma RestWeight(m: Measure, messages: seq<Message>, message: Message)
    ensures MessagesWeight(m, Rest(messages + [message]))
      == MessagesWeight(m, Rest(messages)) + if Shutdown in messages then MessageWeight(m, message) else 0
  {
    RestSnoc(messages, message);
    if Shutdown in messages {
      MessagesSnoc(m, Rest(messages), message);
    } else {
      RestOfNone(messages);
    }
  }

  lemma EnqueueOwes(s: State, message: Message)
    ensures Owed(Enqueued(s, message))
      == Owed(s) + if Leaving(s) || Shutdown in s.queue then MessageWeight(AllRecords, message) else 0
  {
    if Leaving(s) {
      MessagesSnoc(AllRecords, s.queue, message);
    } else {
      RestWeight(AllRecords, s.queue, message);
    }
  }

  lemma OfferOwes(s: State, step: Step)
    requires Phased(s) && step.Offer?
    ensures Owed(Take(s, step)) == Owed(s) + if Late(s, step) then 1 else 0
  {
    ShutdownTaken(s);
    if HasRoom(s) {
      var message := Wrap(step.record, step.rolled);
      EnqueueOwes(s, message);
      assert Owed(Take(s, step)) == Owed(Enqueued(s, message));
    }
  }

  lemma AskOwes(s: State)
    ensures Owed(Take(s, AskShutdown)) == Owed(s)
  {
    if HasRoom(s) {
      EnqueueOwes(s, Shutdown);
    }
  }

  lemma StepOwes(s: State, step: Step)
    requires Phased(s) && s.reported <= s.dropped
    ensures Owed(Take(s, step)) == Owed(s) + if Late(s, step) then 1 else 0
  {
    match step
    case Offer(_, _) => OfferOwes(s, step);
    case CountDrop =>
    case AskShutdown => AskOwes(s);
    case Receive(_, _) =>
    case Timeout(_, _) =>
    case Report(_) =>
    case Close =>
  }

  lemma {:induction false} LateAreOwed(capacity: nat, steps: seq<Step>)
    ensures Owed(After(capacity, steps)) == LateSteps(capacity, steps)
  {
    if steps != [] {
      LateAreOwed(capacity, steps[..|steps| - 1]);
      RunsAreSound(capacity, steps[..|steps| - 1]);
      StepOwes(After(capacity, steps[..|steps| - 1]), steps[|steps| - 1]);
    }
  }

  /**
    Loss is admitted, but not always: a stopped trail tells of all the records offered but the late ones and
    those still to be counted, so of every one if and only if there are neither.
   */
  lemma LossIsTold(capacity: nat, steps: seq<Step>)
    requires After(capacity, steps).writer.Stopped?
    ensures var s := After(capacity, steps);
      |s.offered| == LinesWeight(AllRecords, s.emitted) + LinesWeight(Losses, s.emitted)
                     + LateSteps(capacity, steps) + s.uncounted
    ensures AllTold(After(capacity, steps)) <==> LateSteps(capacity, steps) == After(capacity, steps).uncounted == 0
  {
    NothingUncounted(capacity, steps, RollupKey("", None, None, None));
    StoppedHoldsNothing(capacity, steps, AllRecords);
    LateAreOwed(capacity, steps);
  }

  /** One record offered just behind the shutdown: the writer stops with an empty trail and no gap. */
  lemma SilentLoss(record: Record) returns (steps: seq<Step>)
    ensures steps == [AskShutdown] + [Offer(record, false)] + [Receive("", [])] + [Report("")] + [Close]
    ensures var s := After(2, steps);
      s.writer.Stopped? && s.offered == [Detail(record)] && s.dropped == 0 && s.emitted == []
  {
    steps := [AskShutdown] + [Offer(record, false)];
    AskThenOffer(2, record);
    RunSnoc(2, steps, Receive("", []));
    LastFlush(After(2, steps), "");
    steps := steps + [Receive("", [])];
    RunSnoc(2, steps, Report(""));
    steps := steps + [Report("")];
    RunSnoc(2, steps, Close);
    steps := steps + [Close];
  }

  lemma Asked(capacity: nat)
    requires capacity >= 1
    ensures After(capacity, [AskShutdown]) == Started(capacity).(accepted := [Shutdown], queue := [Shutdown])
  {
    RunSnoc(capacity, [], AskShutdown);
    assert [] + [AskShutdown] == [AskShutdown];
  }

  lemma OfferedBehind(s: State, record: Record)
    requires HasRoom(s) && s.offered == [] && s.accepted == s.queue == [Shutdown]
    ensures var queued := [Shutdown, Detail(record)];
      Take(s, Offer(record, false)) == s.(offered := [Detail(record)], accepted := queued, queue := queued)
  {
  }

  lemma AskThenOffer(capacity: nat, record: Record)
    requires capacity >= 2
    ensures var queued := [Shutdown, Detail(record)];
      After(capacity, [AskShutdown] + [Offer(record, false)])
      == Started(capacity).(offered := [Detail(record)], accepted := queued, queue := queued)
  {
    Asked(capacity);
    RunSnoc(capacity, [AskShutdown], Offer(record, false));
    OfferedBehind(After(capacity, [AskShutdown]), record);
  }

  // A record refused early and counted late.

  /** Where the run below stands after each of its steps, for what matters. */
  ghost predicate Stands(s: State, offered: nat, queue: seq<Message>, uncounted: nat, emitted: seq<Line>,
                         writer: Writer)
  {
    && s.capacity == 1 && |s.offered| == offered && s.queue == queue && s.uncounted == uncounted && s.emitted == emitted
    && s.writer == writer && s.dropped == s.reported == 0 && s.buckets == map[]
    && (writer.Idle? ==> Shutdown !in s.received)
  }

  lemma FirstTwoOffers(one: Record, two: Record)
    ensures var steps := [Offer(one, false)] + [Offer(two, false)];
      Stands(After(1, steps), 2, [Detail(one)], 1, [], Idle) && LateSteps(1, steps) == 0
  {
    RunSnoc(1, [], Offer(one, false));
    assert [] + [Offer(one, false)] == [Offer(one, false)];
    assert Stands(After(1, [Offer(one, false)]), 1, [Detail(one)], 0, [], Idle);
    LateSnoc(1, [], Offer(one, false));
    RunSnoc(1, [Offer(one, false)], Offer(two, false));
    LateSnoc(1, [Offer(one, false)], Offer(two, false));
  }

  lemma LateSnoc(capacity: nat, steps: seq<Step>, step: Step)
    ensures LateSteps(capacity, steps + [step])
      == LateSteps(capacity, steps) + if Late(After(capacity, steps), step) then 1 else 0
  {
    assert (steps + [step])[..|steps|] == steps;
  }

  /** One more step of a run that has had no late one. */
  lemma OnTime(steps: seq<Step>, step: Step)
    requires LateSteps(1, steps) == 0 && !Late(After(1, steps), step)
    ensures LateSteps(1, steps + [step]) == 0 && After(1, steps + [step]) == Take(After(1, steps), step)
  {
    RunSnoc(1, steps, step);
    LateSnoc(1, steps, step);
  }

  lemma TakesDetail(s: State, record: Record)
    requires Stands(s, 2, [Detail(record)], 1, [], Idle)
    ensures Stands(Take(s, Receive("", [])), 2, [], 1, [Kept(record)], Idle)
  {
    assert [] + [Kept(record)] == [Kept(record)];
  }

  lemma TakesShutdown(s: State, lines: seq<Line>)
    requires Stands(s, 2, [Shutdown], 1, lines, Idle)
    ensures Stands(Take(s, Receive("", [])), 2, [], 1, lines, Reporting(true))
  {
    LastFlush(s, "");
  }

  /**
    A queue of one. The second record is refused and its sender pauses; the writer takes the first and the
    shutdown, reads the counter and stops; only then is the drop counted. No offer was accepted behind the
    shutdown, and the second record is in no line and no gap.
   */
  lemma CountedTooLate(one: Record, two: Record) returns (steps: seq<Step>)
    ensures steps == [Offer(one, false)] + [Offer(two, false)] + [Receive("", [])] + [AskShutdown] + [Receive("", [])]
                     + [Report("")] + [Close]
    ensures var s := After(1, steps);
      s.writer.Stopped? && |s.offered| == 2 && s.emitted == [Kept(one)] && LateSteps(1, steps) == 0 && s.uncounted == 1
    ensures var s := After(1, steps + [CountDrop]);
      s.emitted == [Kept(one)] && s.uncounted == 0 && s.dropped == 1 && s.reported == 0
  {
    steps := [Offer(one, false)] + [Offer(two, false)];
    FirstTwoOffers(one, two);
    TakesDetail(After(1, steps), one);
    OnTime(steps, Receive("", []));
    steps := steps + [Receive("", [])];
    OnTime(steps, AskShutdown);
    steps := steps + [AskShutdown];
    assert Stands(After(1, steps), 2, [Shutdown], 1, [Kept(one)], Idle);
    TakesShutdown(After(1, steps), [Kept(one)]);
    OnTime(steps, Receive("", []));
    steps := steps + [Receive("", [])];
    OnTime(steps, Report(""));
    steps := steps + [Report("")];
    OnTime(steps, Close);
    steps := steps + [Close];
    RunSnoc(1, steps, CountDrop);
  }

  /** With nothing pending, the last flush adds nothing. */
  lemma LastFlush(s: State, now: string)
    requires CanReceive(s) && s.queue[0].Shutdown? && s.buckets == map[]
    ensures var after := Take(s, Receive(now, []));
      && after.writer == Reporting(true) && after.emitted == s.emitted && after.buckets == map[]
      && after.offered == s.offered && after.dropped == s.dropped && after.reported == s.reported
      && after.uncounted == s.uncounted && after.queue == s.queue[1..] && after.capacity == s.capacity
  {
  }

  lemma RunSnoc(capacity: nat, steps: seq<Step>, step: Step)
    ensures After(capacity, steps + [step]) == Take(After(capacity, steps), step)
  {
  }

  // ----- The ring

  /** The newest `n`. */
  function Newest<T>(s: seq<T>, n: nat): seq<T> {
    if |s| <= n then s else s[|s| - n..]
  }

  class Ring {
    const capacity: nat
    var records: seq<Line>
    ghost var pushed: seq<Line>

    ghost predicate Valid()
      reads this
    {
      capacity >= 1 && records == Newest(pushed, capacity)
    }

    constructor (capacity: nat)
      ensures Valid() && pushed == [] && this.capacity == if capacity == 0 then 1 else capacity
    {
      this.capacity := if capacity == 0 then 1 else capacity;
      records, pushed := [], [];
    }

    method Push(line: Line)
      requires Valid()
      modifies this
      ensures Valid() && pushed == old(pushed) + [line]
    {
      if |records| == capacity {
        records := records[1..];
      }
      records := records + [line];
      pushed := pushed + [line];
    }

    /** Newest first, as many as asked for and held. */
    method Recent(limit: nat) returns (lines: seq<Line>)
      requires Valid()
      ensures |lines| == |Newest(Newest(pushed, capacity), limit)|
      ensures forall i :: 0 <= i < |lines| ==> lines[i] == pushed[|pushed| - 1 - i]
    {
      lines := [];
      while |lines| < limit && |lines| < |records|
        invariant |lines| <= limit && |lines| <= |records|
        invariant forall i :: 0 <= i < |lines| ==> lines[i] == pushed[|pushed| - 1 - i]
      {
        lines := lines + [records[|records| - 1 - |lines|]];
      }
    }
  }

  // ----- The sink as it is written

  /** The lines as the file has them. */
  function Texts(render: Line -> F.Text, lines: seq<Line>): seq<F.Text> {
    seq(|lines|, i requires 0 <= i < |lines| => render(lines[i]))
  }

  lemma TextsSnoc(render: Line -> F.Text, lines: seq<Line>, line: Line)
    ensures Texts(render, lines + [line]) == Texts(render, lines) + [render(line)]
  {
  }

  class Sink {
    const capacity: nat
    const render: Line -> F.Text
    const rollups: Rollups
    const ring: Ring
    const file: F.FileSink?
    var queue: seq<Message>
    var dropped: nat
    var reported: nat
    var writer: Writer
    ghost var offered: seq<Message>
    ghost var lost: seq<Message>
    ghost var uncounted: nat
    ghost var accepted: seq<Message>
    ghost var received: seq<Message>
    ghost var before: seq<F.Text>

    /** The file, where there is one, has after what it held before exactly the lines the ring was given. */
    ghost predicate Valid()
      reads this, ring, file
    {
      && ring.Valid()
      && (file != null ==> file.Valid() && file.log == before + Texts(render, ring.pushed))
    }

    ghost function View(): State
      reads this, rollups, ring
    {
      State(capacity, offered, lost, uncounted, accepted, received, queue, dropped, rollups.buckets, ring.pushed,
            reported, writer)
    }

    constructor (capacity: nat, buffer: nat, render: Line -> F.Text, file: F.FileSink?)
      requires file != null ==> file.Valid()
      ensures Valid() && View() == Started(capacity)
      ensures this.file == file && fresh(rollups) && fresh(ring)
    {
      this.capacity, this.render, this.file := capacity, render, file;
      rollups := new Rollups();
      ring := new Ring(buffer);
      queue, dropped, reported, writer := [], 0, 0, Idle;
      offered, lost, accepted, received, uncounted := [], [], [], [], 0;
      before := if file == null then [] else file.log;
      new;
      assert Texts(render, []) == [];
    }

    /** Never blocks: `refused` by a full queue, or by a writer that is gone. */
    method TrySend(record: Record, rolled: bool) returns (refused: bool)
      modifies this
      ensures View() == Take(old(View()), Offer(record, rolled)) && (old(Valid()) ==> Valid())
      ensures refused <==> writer.Stopped? || |old(queue)| >= capacity
      ensures queue == old(queue) + if refused then [] else [if rolled then Rolled(record) else Detail(record)]
      ensures dropped == old(dropped)
    {
      var message := if rolled then Rolled(record) else Detail(record);
      refused := writer.Stopped? || |queue| >= capacity;
      if refused {
        lost, uncounted := lost + [message], uncounted + 1;
      } else {
        queue, accepted := queue + [message], accepted + [message];
      }
      offered := offered + [message];
    }

    /** A sender whose record was refused adds it to the counter, whatever has happened since. */
    method AddDrop()
      requires uncounted > 0
      modifies this
      ensures View() == Take(old(View()), CountDrop) && (old(Valid()) ==> Valid())
      ensures dropped == old(dropped) + 1 && queue == old(queue)
    {
      dropped, uncounted := dropped + 1, uncounted - 1;
    }

    /** Both, where nothing comes between. */
    method Send(record: Record, rolled: bool)
      modifies this
      ensures var after := Take(old(View()), Offer(record, rolled));
              View() == if HasRoom(old(View())) then after else Take(after, CountDrop)
      ensures old(Valid()) ==> Valid()
      ensures dropped == old(dropped) + if writer.Stopped? || |old(queue)| >= capacity then 1 else 0
    {
      var refused := TrySend(record, rolled);
      if refused {
        AddDrop();
      }
    }

    /** The blocking send: `sent` is false while there is no room for it. */
    method TryShutdown() returns (sent: bool)
      modifies this
      ensures View() == Take(old(View()), AskShutdown) && (old(Valid()) ==> Valid())
      ensures sent <==> !writer.Stopped? && |old(queue)| < capacity
      ensures queue == old(queue) + if sent then [Shutdown] else []
    {
      sent := !writer.Stopped? && |queue| < capacity;
      if sent {
        queue, accepted := queue + [Shutdown], accepted + [Shutdown];
      }
    }

    /** One line into the file, if there is one, and into the ring. */
    method Emit(line: Line)
      requires Valid()
      modifies ring, file
      ensures Valid() && ring.pushed == old(ring.pushed) + [line]
      ensures file != null ==> file.View() == F.Take(old(file.View()), F.Write(render(line)))
    {
      if file != null {
        file.WriteLine(render(line));
      }
      ring.Push(line);
      TextsSnoc(render, old(ring.pushed), line);
    }

    method EmitAll(lines: seq<Line>)
      requires Valid()
      modifies ring, file
      ensures Valid() && ring.pushed == old(ring.pushed) + lines
    {
      var i := 0;
      while i < |lines|
        invariant 0 <= i <= |lines| && Valid() && ring.pushed == old(ring.pushed) + lines[..i]
      {
        Emit(lines[i]);
        i := i + 1;
      }
    }

    method FlushTotals(now: string, stopping: bool) returns (order: seq<RollupKey>)
      requires Valid()
      modifies this`writer, rollups, ring, file
      ensures Valid() && IsOrder(order, old(rollups.buckets).Keys)
      ensures View() == Flushed(old(View()), now, order, stopping)
      ensures rollups.buckets == map[] && ring.pushed == old(ring.pushed) + Totals(order, old(rollups.buckets), now)
    {
      var totals;
      order, totals := rollups.Drain(now);
      EmitAll(totals);
      writer := Reporting(stopping);
    }

    /** The writer takes one message: writes it, folds it, or starts its last flush. */
    method ReceiveOne(now: string) returns (order: seq<RollupKey>)
      requires Valid() && CanReceive(View())
      modifies this, rollups, ring, file
      ensures Valid() && View() == Take(old(View()), Receive(now, order))
      ensures queue == old(queue)[1..]
      ensures match old(queue)[0]
              case Detail(record) =>
                ring.pushed == old(ring.pushed) + [Kept(record)] && rollups.buckets == old(rollups.buckets)
              case Rolled(record) =>
                ring.pushed == old(ring.pushed) && rollups.buckets == Folded(old(rollups.buckets), record)
              case Shutdown => writer == Reporting(true) && rollups.buckets == map[]
    {
      var message := queue[0];
      queue, received := queue[1..], received + [message];
      order := [];
      match message
      case Detail(record) => EmitAll([Kept(record)]);
      case Rolled(record) => rollups.Fold(record);
      case Shutdown => order := FlushTotals(now, true);
    }

    method FlushOnTimeout(now: string) returns (order: seq<RollupKey>)
      requires Valid() && writer.Idle? && queue == []
      modifies this, rollups, ring, file
      ensures Valid() && View() == Take(old(View()), Timeout(now, order))
      ensures writer == Reporting(false) && rollups.buckets == map[]
    {
      order := FlushTotals(now, false);
    }

    /** The end of a flush: drops not yet admitted become one gap. A stopping writer still has its receiver. */
    method ReportGap(now: string)
      requires Valid() && writer.Reporting?
      modifies this, ring, file
      ensures Valid() && View() == Take(old(View()), Report(now))
      ensures old(dropped) > old(reported) ==>
                reported == dropped && ring.pushed == old(ring.pushed) + [Gap(now, dropped - old(reported))]
      ensures old(dropped) <= old(reported) ==> reported == old(reported) && ring.pushed == old(ring.pushed)
      ensures writer == if old(writer).stopping then Closing else Idle
    {
      if dropped > reported {
        var lines := [Gap(now, dropped - reported)];
        reported := dropped;
        EmitAll(lines);
      }
      writer := if writer.stopping then Closing else Idle;
    }

    /** The writer returns and its receiver goes with it. */
    method CloseReceiver()
      requires Valid() && writer.Closing?
      modifies this`writer
      ensures Valid() && View() == Take(old(View()), Close) && writer == Stopped
    {
      writer := Stopped;
    }
  }
}
