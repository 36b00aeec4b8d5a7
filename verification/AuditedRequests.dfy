/** The audit record the gate makes of each request, and why the totals it leads to come in one order. */
module AuditedRequests {
  import opened Wrappers
  import opened AuditRollups
  import opened AuditTrail
  import K = KeyLoader
  import R = RouteTable

  /** A request when the gate is done with it. `allowed`: it was let through, whatever its handler answered. */
  datatype Request = Request(
    access: Option<R.Access>,
    allowed: bool,
    keyId: Option<string>,
    keyLabel: Option<string>,
    role: Option<string>,
    index: Option<string>,
    status: nat,
    detail: string)

  const DENIED := "auth_denied_stats"
  const PUBLIC := "public_stats"
  const WRITES := "write_stats"

  /** Under which name requests are counted rather than listed, if they are. */
  function RollupName(access: Option<R.Access>, allowed: bool, identified: bool): Option<string> {
    if !allowed then (if identified then None else Some(DENIED))
    else if access == Some(R.Public) then Some(PUBLIC)
    else if access == Some(R.Needs(K.Write)) then Some(WRITES)
    else None
  }

  function NameOf(request: Request): Option<string> {
    RollupName(if request.allowed then request.access else None, request.allowed, request.keyId.Some?)
  }

  /** The record, stamped when it is handed over. */
  function RecordOf(request: Request, ts: string): Record {
    Record(ts, if NameOf(request).Some? then NameOf(request).value else "http",
           Some(if request.allowed then Allowed else Denied), request.keyId, request.keyLabel, request.role,
           request.index, Some(request.status), request.detail)
  }

  /** The message a request becomes. */
  function Handed(request: Request, ts: string): Message {
    Wrap(RecordOf(request, ts), NameOf(request).Some?)
  }

  /**
    What is let through and neither writes nor is public, and every refusal of a known key, is listed on a line of its
    own; the rest is counted, each kind under its own name. Either way the record says what happened.
   */
  lemma ListedOrCounted(request: Request, ts: string)
    ensures var record := RecordOf(request, ts);
            && record.outcome == Some(if request.allowed then Allowed else Denied)
            && record.keyId == request.keyId && record.index == request.index && record.status == Some(request.status)
            && (Handed(request, ts).Detail? <==>
                  if request.allowed then request.access !in {Some(R.Public), Some(R.Needs(K.Write))}
                  else request.keyId.Some?)
            && (Handed(request, ts).Rolled? ==>
                  (record.event == WRITES <==> request.allowed && request.access == Some(R.Needs(K.Write)))
                  && (record.event == PUBLIC <==> request.allowed && request.access == Some(R.Public)))
            && (Handed(request, ts).Detail? ==> record.event == "http")
  {
    assert WRITES[0] == 'w' && PUBLIC[0] == 'p' && DENIED[0] == 'a';
  }

  /** What the gate hands to the sink to be counted. */
  ghost predicate RolledByGate(record: Record) {
    exists request, ts :: NameOf(request).Some? && RecordOf(request, ts) == record
  }

  /** The name a request is counted under tells whether it was let through. */
  predicate NameTells(key: RollupKey) {
    key.outcome == Some(if key.event == DENIED then Denied else Allowed)
  }

  lemma GateNameTells(record: Record)
    requires RolledByGate(record)
    ensures NameTells(KeyOf(record))
  {
    assert DENIED[0] != PUBLIC[0] && DENIED[0] != WRITES[0];
  }

  lemma TellingKeysNeverTie(keys: set<RollupKey>)
    requires forall key :: key in keys ==> NameTells(key)
    ensures NoTies(keys) && forall a, b :: IsOrder(a, keys) && IsOrder(b, keys) ==> a == b
  {
    assert NoTies(keys);
    OrderDetermined(keys);
  }

  lemma {:induction false} WindowTells(records: seq<Record>)
    requires forall record :: record in records ==> RolledByGate(record)
    ensures forall key :: key in FoldedAll(records) ==> NameTells(key)
  {
    if records != [] {
      var front, last := records[..|records| - 1], records[|records| - 1];
      assert last in records && forall record :: record in front ==> record in records;
      WindowTells(front);
      GateNameTells(last);
    }
  }

  /** Of any window of requests the gate counted, the totals come in one order, whatever order the buckets are in. */
  lemma WindowOrderDetermined(records: seq<Record>)
    requires forall record :: record in records ==> RolledByGate(record)
    ensures var keys := FoldedAll(records).Keys;
            NoTies(keys) && forall a, b :: IsOrder(a, keys) && IsOrder(b, keys) ==> a == b
  {
    WindowTells(records);
    TellingKeysNeverTie(FoldedAll(records).Keys);
  }

  // ----- Every flush of every run

  ghost predicate FromGate(step: Step) {
    step.Offer? && step.rolled ==> RolledByGate(step.record)
  }

  /** Every bucket, and every message that will be counted, has a name that tells. */
  ghost predicate Telling(s: State) {
    && (forall key :: key in s.buckets ==> NameTells(key))
    && (forall message :: message in s.queue && message.Rolled? ==> NameTells(KeyOf(message.record)))
  }

  lemma OfferKeepsTelling(s: State, step: Step)
    requires Telling(s) && FromGate(step) && step.Offer?
    ensures Telling(Take(s, step))
  {
    if step.rolled {
      GateNameTells(step.record);
    }
  }

  lemma StepKeepsTelling(s: State, step: Step)
    requires Telling(s) && FromGate(step)
    ensures Telling(Take(s, step))
  {
    match step
    case Offer(_, _) => OfferKeepsTelling(s, step);
    case Receive(_, _) => if CanReceive(s) { assert s.queue == [s.queue[0]] + s.queue[1..]; }
    case _ =>
  }

  lemma {:induction false} RunsTell(capacity: nat, steps: seq<Step>)
    requires forall step :: step in steps ==> FromGate(step)
    ensures Telling(After(capacity, steps))
  {
    if steps != [] {
      var front, last := steps[..|steps| - 1], steps[|steps| - 1];
      assert last in steps && forall step :: step in front ==> step in steps;
      RunsTell(capacity, front);
      StepKeepsTelling(After(capacity, front), last);
    }
  }

  /** In every run whose counted records come from the gate, every flush has one order to write its totals in. */
  lemma FlushOrderDetermined(capacity: nat, steps: seq<Step>, a: seq<RollupKey>, b: seq<RollupKey>)
    requires forall step :: step in steps ==> FromGate(step)
    requires IsOrder(a, After(capacity, steps).buckets.Keys) && IsOrder(b, After(capacity, steps).buckets.Keys)
    ensures a == b
  {
    RunsTell(capacity, steps);
    TellingKeysNeverTie(After(capacity, steps).buckets.Keys);
  }
}
