/**
 The outbox and delivery tables, and the steps of one OutboxWorker on them. A worker session
 loads a batch of events into memory, flushes "processing" for one event at a time, routes it,
 and commits; on an exception it rolls back and books the failure in a second session. The
 worker may die between any two steps. Publishing (by a committed send) and the administrator's
 retry are the environment. An event is identified by its position in the outbox table.
 */
module Outbox {
  import opened Wrappers
  import Backoff

  // ---------------------------------------------------------------- rows

  datatype Status = Pending | Processing | Delivered | Retrying | Failed

  datatype Event = Event(messageId: string, sequence: int, origin: string, status: Status,
                         retryCount: nat, maxRetries: int, nextAttemptAt: real, createdAt: real,
                         lockedAt: Option<real>, completedAt: Option<real>)
  {
    /** Still to be attempted. */
    predicate Live() { status == Pending || status == Retrying }

    /** Failed rounds after which the event is dead: at least one, whatever the setting. */
    function Cap(): (c: nat)
      ensures c >= 1
    {
      if maxRetries < 1 then 1 else maxRetries
    }

    /** Failed rounds it can still afford. */
    function Remaining(): nat {
      if Live() && retryCount < Cap() then Cap() - retryCount else 0
    }

    predicate Due(now: real) { Live() && nextAttemptAt <= now }
  }

  datatype RowStatus = Queued | Sent | NotSent

  /** A message_deliveries row; no unique constraint stands behind (messageId, integration). */
  datatype Delivery = Delivery(messageId: string, integration: string, status: RowStatus, attempts: nat,
                               externalId: Option<string>, failureReason: Option<string>)
  {
    predicate Is(m: string, i: string) { messageId == m && integration == i }
  }

  // ---------------------------------------------------------------- routing

  /** One entry of route_event's results. */
  datatype Result = Result(integration: string, success: bool, externalId: Option<string>, error: Option<string>)

  /** `filters` is None when the stored JSON does not parse. */
  datatype Endpoint = Endpoint(name: string, enabled: bool, filters: Option<seq<string>>)

  datatype Settings = Settings(discordEnabled: bool, signalEnabled: bool)

  const DISCORD := "discord"
  const WEBHOOK := "webhook"
  const SIGNAL := "signal"
  const MESSAGE_CREATED := "message.created"

  predicate Wants(ep: Endpoint) {
    ep.enabled && (ep.filters.None? || MESSAGE_CREATED in ep.filters.value || "*" in ep.filters.value)
  }

  function WebhookTargets(endpoints: seq<Endpoint>): seq<string> {
    if endpoints == [] then []
    else (if Wants(endpoints[0]) then [WEBHOOK + ":" + endpoints[0].name] else []) + WebhookTargets(endpoints[1..])
  }

  /** The integrations an event is sent to, in order. */
  function Targets(settings: Settings, endpoints: seq<Endpoint>, origin: string): seq<string> {
    (if settings.discordEnabled && origin != DISCORD then [DISCORD] else [])
    + WebhookTargets(endpoints)
    + (if settings.signalEnabled then [SIGNAL] else [])
  }

  function Names(results: seq<Result>): seq<string> {
    seq(|results|, i requires 0 <= i < |results| => results[i].integration)
  }

  predicate AllOk(results: seq<Result>) {
    forall r :: r in results ==> r.success
  }

  // ---------------------------------------------------------------- delivery rows

  /** The first row for the pair, or |rows|. */
  function RowIndex(rows: seq<Delivery>, m: string, i: string): (k: nat)
    ensures k <= |rows|
    ensures k < |rows| ==> rows[k].Is(m, i)
    ensures forall j :: 0 <= j < k ==> !rows[j].Is(m, i)
  {
    if rows == [] then 0 else if rows[0].Is(m, i) then 0
    else
      var k := RowIndex(rows[1..], m, i);
      assert forall j :: 0 < j < |rows| ==> rows[j] == rows[1..][j - 1];
      k + 1
  }

  predicate HasRow(rows: seq<Delivery>, m: string, i: string) {
    exists k :: 0 <= k < |rows| && rows[k].Is(m, i)
  }

  /** scalar_one_or_none would raise MultipleResultsFound. */
  predicate Ambiguous(rows: seq<Delivery>, m: string, i: string) {
    HasRow(rows, m, i) && HasRow(rows[RowIndex(rows, m, i) + 1..], m, i)
  }

  function Attempted(row: Delivery, r: Result): Delivery {
    var n := row.attempts + 1;
    if r.success then row.(attempts := n, status := Sent, externalId := r.externalId, failureReason := None)
    else row.(attempts := n, status := NotSent, failureReason := r.error)
  }

  /** _update_delivery: None when it raises. */
  function UpdateDelivery(rows: seq<Delivery>, m: string, r: Result): Option<seq<Delivery>> {
    var k := RowIndex(rows, m, r.integration);
    if Ambiguous(rows, m, r.integration) then None
    else if k < |rows| then Some(rows[k := Attempted(rows[k], r)])
    else Some(rows + [Attempted(Delivery(m, r.integration, Queued, 0, None, None), r)])
  }

  /** The delivery updates of one route_event call, in order. */
  function UpdateAll(rows: seq<Delivery>, m: string, results: seq<Result>): Option<seq<Delivery>> {
    if results == [] then Some(rows)
    else
      match UpdateAll(rows, m, results[..|results| - 1])
      case None => None
      case Some(rows') => UpdateDelivery(rows', m, results[|results| - 1])
  }

  // ---------------------------------------------------------------- rounds

  /** The event as flushed, uncommitted, at the start of its round. */
  function Claimed(e: Event, now: real): Event {
    e.(status := Processing, lockedAt := Some(now))
  }

  /** A round that ran to its commit. */
  function Concluded(e: Event, ok: bool, now: real, jitter: real): Event {
    if ok then e.(status := Delivered, completedAt := Some(now))
    else
      var n := e.retryCount + 1;
      if n >= e.maxRetries then e.(retryCount := n, status := Failed)
      else e.(retryCount := n, status := Retrying, nextAttemptAt := now + Backoff.Wait(n, jitter))
  }

  /** A round that ended in an exception, booked on the re-read row. */
  function Errored(e: Event, now: real): Event {
    var n := e.retryCount + 1;
    e.(retryCount := n, status := if n < e.maxRetries then Retrying else Failed, nextAttemptAt := now + 10.0)
  }

  /** The administrator's bulk update of failed events. */
  function Reset(e: Event, now: real): Event {
    if e.status == Failed then e.(status := Pending, nextAttemptAt := now, retryCount := 0) else e
  }

  /** The delivery row the administrator picked. */
  function Requeued(row: Delivery): Delivery {
    row.(status := Queued, failureReason := Some("Manual retry requested by admin"))
  }

  /** The columns that identify an event and fix its limits. */
  predicate SameEvent(e: Event, f: Event) {
    && f.messageId == e.messageId && f.sequence == e.sequence && f.origin == e.origin
    && f.createdAt == e.createdAt && f.maxRetries == e.maxRetries
  }

  // ---------------------------------------------------------------- state

  /** An event object of the worker's session: its row number and its in-memory columns. */
  datatype Copy = Copy(index: nat, event: Event)

  datatype Worker =
    | Idle
    | Between(now: real, todo: seq<Copy>)
    | Busy(now: real, cur: Copy, todo: seq<Copy>)     // flushed "processing", uncommitted
    | Failing(now: real, index: nat, todo: seq<Copy>) // rolled back, error not yet booked

  /** A send to an integration whose round was committed. */
  datatype Attempt = Attempt(messageId: string, integration: string)

  /** Committed tables and the worker; `attempts`, `rounds` and `resets` are history. */
  datatype State = State(outbox: seq<Event>, rows: seq<Delivery>, worker: Worker,
                         attempts: seq<Attempt>, rounds: seq<nat>, resets: seq<nat>)

  const EMPTY := State([], [], Idle, [], [], [])

  /** The answer of the ordered, limited select: any order among equal creation times. */
  predicate IsBatch(outbox: seq<Event>, now: real, size: nat, batch: seq<nat>) {
    && |batch| <= size
    && (forall i :: 0 <= i < |batch| ==> batch[i] < |outbox| && outbox[batch[i]].Due(now))
    && (forall i, j :: 0 <= i < j < |batch| ==>
         batch[i] != batch[j] && outbox[batch[i]].createdAt <= outbox[batch[j]].createdAt)
    && (forall e :: 0 <= e < |outbox| && outbox[e].Due(now) && e !in batch ==>
         |batch| == size && forall i :: 0 <= i < |batch| ==> outbox[batch[i]].createdAt <= outbox[e].createdAt)
  }

  function Load(outbox: seq<Event>, batch: seq<nat>): (r: seq<Copy>)
    requires forall i :: 0 <= i < |batch| ==> batch[i] < |outbox|
    ensures |r| == |batch|
    ensures forall i :: 0 <= i < |batch| ==> r[i] == Copy(batch[i], outbox[batch[i]])
  {
    seq(|batch|, i requires 0 <= i < |batch| => Copy(batch[i], outbox[batch[i]]))
  }

  datatype Step =
    | Select(now: real, size: nat, batch: seq<nat>)
    | Claim
    | Conclude(settings: Settings, endpoints: seq<Endpoint>, results: seq<Result>, now: real, jitter: real)
    | Throw
    | Book(now: real, stop: bool)
    | Finish
    | Die
    | AdminRetry(row: nat, now: real)

  predicate Enabled(s: State, step: Step) {
    match step
    case Select(now, size, batch) => s.worker.Idle? && IsBatch(s.outbox, now, size, batch)
    case Claim => s.worker.Between? && s.worker.todo != []
    case Conclude(settings, endpoints, results, now, jitter) =>
      && s.worker.Busy? && s.worker.cur.index < |s.outbox| && s.worker.cur.index < |s.rounds|
      && Backoff.IsJitter(jitter)
      && Names(results) == Targets(settings, endpoints, s.worker.cur.event.origin)
      && UpdateAll(s.rows, s.worker.cur.event.messageId, results).Some?
    case Throw => s.worker.Busy?
    case Book(_, _) => s.worker.Failing? && s.worker.index < |s.outbox| && s.worker.index < |s.rounds|
    case Finish => s.worker.Between? && s.worker.todo == []
    case Die => true
    case AdminRetry(row, _) => row < |s.rows| && |s.resets| == |s.outbox|
  }

  function Do(s: State, step: Step): State
    requires Enabled(s, step)
  {
    match step
    case Select(now, size, batch) => s.(worker := Between(now, Load(s.outbox, batch)))
    case Claim =>
      var c := s.worker.todo[0];
      s.(worker := Busy(s.worker.now, Copy(c.index, Claimed(c.event, s.worker.now)), s.worker.todo[1..]))
    case Conclude(_, _, results, now, jitter) =>
      var c := s.worker.cur;
      s.(outbox := s.outbox[c.index := Concluded(c.event, AllOk(results), now, jitter)],
         rows := UpdateAll(s.rows, c.event.messageId, results).value,
         attempts := s.attempts + Attempts(c.event.messageId, results),
         rounds := s.rounds[c.index := s.rounds[c.index] + 1],
         worker := Between(s.worker.now, s.worker.todo))
    case Throw => s.(worker := Failing(s.worker.now, s.worker.cur.index, s.worker.todo))
    case Book(now, stop) =>
      var i := s.worker.index;
      s.(outbox := s.outbox[i := Errored(s.outbox[i], now)],
         rounds := s.rounds[i := s.rounds[i] + 1],
         worker := if stop then Idle else Between(s.worker.now, s.worker.todo))
    case Finish => s.(worker := Idle)
    case Die => s.(worker := Idle)
    case AdminRetry(row, now) =>
      s.(rows := s.rows[row := Requeued(s.rows[row])],
         outbox := ResetAll(s.outbox, now),
         resets := CountResets(s.outbox, s.resets))
  }

  function Attempts(m: string, results: seq<Result>): (r: seq<Attempt>)
    ensures |r| == |results|
  {
    seq(|results|, i requires 0 <= i < |results| => Attempt(m, results[i].integration))
  }

  function ResetAll(outbox: seq<Event>, now: real): (r: seq<Event>)
    ensures |r| == |outbox|
    ensures forall i :: 0 <= i < |outbox| ==> r[i] == Reset(outbox[i], now)
  {
    seq(|outbox|, i requires 0 <= i < |outbox| => Reset(outbox[i], now))
  }

  function CountResets(outbox: seq<Event>, resets: seq<nat>): (r: seq<nat>)
    requires |resets| == |outbox|
    ensures |r| == |outbox|
    ensures forall i :: 0 <= i < |outbox| ==> r[i] == resets[i] + if outbox[i].status == Failed then 1 else 0
  {
    seq(|outbox|, i requires 0 <= i < |outbox| => resets[i] + if outbox[i].status == Failed then 1 else 0)
  }

  /** The two delivery rows a send creates. */
  function FirstRows(m: string): seq<Delivery> {
    [Delivery(m, DISCORD, Queued, 0, None, None), Delivery(m, WEBHOOK, Queued, 0, None, None)]
  }

  /** What a committed send adds: its event and the two delivery rows created with it. */
  function Publish(s: State, m: string, sequence: int, origin: string, maxRetries: int,
                   nextAttemptAt: real, createdAt: real): State {
    s.(outbox := s.outbox + [Event(m, sequence, origin, Pending, 0, maxRetries, nextAttemptAt, createdAt, None, None)],
       rows := s.rows + FirstRows(m),
       rounds := s.rounds + [0],
       resets := s.resets + [0])
  }
}
