/** What every step of the worker, of an administrator and of a publishing send keeps. */
module OutboxInvariant {
  import opened Wrappers
  import opened Outbox

  // ---------------------------------------------------------------- delivery rows

  ghost predicate UniqueRows(rows: seq<Delivery>) {
    forall i, j :: 0 <= i < j < |rows| ==> !rows[j].Is(rows[i].messageId, rows[i].integration)
  }

  /** attempt_count is the number of committed sends to the integration. */
  ghost predicate Counted(rows: seq<Delivery>, attempts: seq<Attempt>) {
    && (forall k :: 0 <= k < |rows| ==>
         rows[k].attempts == multiset(attempts)[Attempt(rows[k].messageId, rows[k].integration)])
    && (forall a :: a in attempts ==> HasRow(rows, a.messageId, a.integration))
  }

  /** The "webhook" row created by a send is never contacted. */
  ghost predicate WebhookRowsIdle(rows: seq<Delivery>) {
    forall k :: 0 <= k < |rows| && rows[k].integration == WEBHOOK ==> rows[k].status == Queued && rows[k].attempts == 0
  }

  /** rows' extends rows and touches no other pair than (m, one of names). */
  ghost predicate TouchesOnly(rows: seq<Delivery>, rows': seq<Delivery>, m: string, names: seq<string>) {
    && |rows| <= |rows'|
    && (forall k :: 0 <= k < |rows| ==> rows'[k].Is(rows[k].messageId, rows[k].integration))
    && (forall k :: 0 <= k < |rows| && (rows[k].messageId != m || rows[k].integration !in names)
          ==> rows'[k] == rows[k])
    && (forall k :: |rows| <= k < |rows'| ==> rows'[k].messageId == m && rows'[k].integration in names)
  }

  /** The row of a pair exists and shows how a send went. */
  ghost predicate Shows(rows: seq<Delivery>, m: string, i: string, success: bool) {
    exists k :: 0 <= k < |rows| && rows[k].Is(m, i) && rows[k].status == if success then Sent else NotSent
  }

  /** The row of a result's integration says all that the result does: how it went, under which id, or why not. */
  ghost predicate Tells(rows: seq<Delivery>, m: string, r: Result) {
    exists k :: 0 <= k < |rows| && rows[k].Is(m, r.integration) &&
      if r.success then rows[k].status == Sent && rows[k].externalId == r.externalId && rows[k].failureReason.None?
      else rows[k].status == NotSent && rows[k].failureReason == r.error
  }

  lemma NeverAmbiguous(rows: seq<Delivery>, m: string, i: string)
    requires UniqueRows(rows)
    ensures !Ambiguous(rows, m, i)
  {
    var k := RowIndex(rows, m, i);
    if k < |rows| {
      assert forall j :: k < j < |rows| ==> !rows[j].Is(m, i);
    }
  }

  lemma UpdateKeeps(rows: seq<Delivery>, attempts: seq<Attempt>, m: string, r: Result)
    requires UniqueRows(rows) && Counted(rows, attempts)
    ensures UpdateDelivery(rows, m, r).Some?
    ensures var rows' := UpdateDelivery(rows, m, r).value;
            && UniqueRows(rows') && Counted(rows', attempts + [Attempt(m, r.integration)])
            && TouchesOnly(rows, rows', m, [r.integration])
            && Tells(rows', m, r)
  {
    NeverAmbiguous(rows, m, r.integration);
    UpdateKeepsKeys(rows, m, r);
    UpdateCounts(rows, attempts, m, r);
  }

  lemma UpdateKeepsKeys(rows: seq<Delivery>, m: string, r: Result)
    requires UniqueRows(rows) && UpdateDelivery(rows, m, r).Some?
    ensures var rows' := UpdateDelivery(rows, m, r).value;
            && UniqueRows(rows') && TouchesOnly(rows, rows', m, [r.integration])
            && Tells(rows', m, r)
  {
    var rows' := UpdateDelivery(rows, m, r).value;
    assert rows'[RowIndex(rows, m, r.integration)].Is(m, r.integration);
  }

  lemma UpdateCounts(rows: seq<Delivery>, attempts: seq<Attempt>, m: string, r: Result)
    requires UniqueRows(rows) && Counted(rows, attempts) && UpdateDelivery(rows, m, r).Some?
    ensures Counted(UpdateDelivery(rows, m, r).value, attempts + [Attempt(m, r.integration)])
  {
    var rows' := UpdateDelivery(rows, m, r).value;
    var k := RowIndex(rows, m, r.integration);
    var a := Attempt(m, r.integration);
    var attempts' := attempts + [a];
    assert multiset(attempts') == multiset(attempts) + multiset{a};
    if k == |rows| {
      assert a !in attempts;
      assert multiset(attempts)[a] == 0;
    }
    forall j | 0 <= j < |rows'|
      ensures rows'[j].attempts == multiset(attempts')[Attempt(rows'[j].messageId, rows'[j].integration)]
    {
    }
    forall b | b in attempts' ensures HasRow(rows', b.messageId, b.integration) {
      if b == a { assert rows'[k].Is(m, r.integration); }
      else {
        var j := RowIndex(rows, b.messageId, b.integration);
        assert rows'[j].Is(b.messageId, b.integration);
      }
    }
  }

  lemma TouchesChain(rows: seq<Delivery>, mid: seq<Delivery>, rows': seq<Delivery>, m: string,
                     names: seq<string>, n: string)
    requires TouchesOnly(rows, mid, m, names) && TouchesOnly(mid, rows', m, [n])
    ensures TouchesOnly(rows, rows', m, names + [n])
  {
    forall k | 0 <= k < |rows'|
      ensures k < |rows| ==> rows'[k].Is(rows[k].messageId, rows[k].integration)
      ensures k < |rows| && (rows[k].messageId != m || rows[k].integration !in names + [n]) ==> rows'[k] == rows[k]
      ensures k >= |rows| ==> rows'[k].messageId == m && rows'[k].integration in names + [n]
    {
      assert k < |mid| ==> rows'[k].Is(mid[k].messageId, mid[k].integration);
    }
  }

  lemma ResultsSnoc(m: string, init: seq<Result>, r: Result)
    ensures Names(init + [r]) == Names(init) + [r.integration]
    ensures Attempts(m, init + [r]) == Attempts(m, init) + [Attempt(m, r.integration)]
  {
  }

  lemma UpdateAllSnoc(rows: seq<Delivery>, m: string, init: seq<Result>, r: Result)
    ensures UpdateAll(rows, m, init).Some? ==>
              UpdateAll(rows, m, init + [r]) == UpdateDelivery(UpdateAll(rows, m, init).value, m, r)
  {
    assert (init + [r])[..|init|] == init;
  }

  /** The state of the rows after routing, given the rows before. */
  ghost predicate Routed(rows: seq<Delivery>, attempts: seq<Attempt>, m: string, rows': seq<Delivery>,
                         attempts': seq<Attempt>, names: seq<string>) {
    UniqueRows(rows') && Counted(rows', attempts') && TouchesOnly(rows, rows', m, names)
  }

  lemma RoutedSnoc(rows: seq<Delivery>, attempts: seq<Attempt>, m: string, mid: seq<Delivery>,
                   attempts': seq<Attempt>, names: seq<string>, r: Result)
    requires Routed(rows, attempts, m, mid, attempts', names)
    ensures UpdateDelivery(mid, m, r).Some?
    ensures Routed(rows, attempts, m, UpdateDelivery(mid, m, r).value,
                   attempts' + [Attempt(m, r.integration)], names + [r.integration])
  {
    UpdateKeeps(mid, attempts', m, r);
    TouchesChain(rows, mid, UpdateDelivery(mid, m, r).value, m, names, r.integration);
  }

  /** Routing never raises on unique rows, and leaves exactly the right counts and rows. */
  lemma {:induction false} UpdateAllKeeps(rows: seq<Delivery>, attempts: seq<Attempt>, m: string, results: seq<Result>)
    requires UniqueRows(rows) && Counted(rows, attempts)
    ensures UpdateAll(rows, m, results).Some?
    ensures Routed(rows, attempts, m, UpdateAll(rows, m, results).value,
                   attempts + Attempts(m, results), Names(results))
  {
    if results == [] {
      assert attempts + Attempts(m, results) == attempts;
    } else {
      var init, r := results[..|results| - 1], results[|results| - 1];
      assert results == init + [r];
      UpdateAllKeeps(rows, attempts, m, init);
      UpdateAllSnoc(rows, m, init, r);
      ResultsSnoc(m, init, r);
      RoutedSnoc(rows, attempts, m, UpdateAll(rows, m, init).value, attempts + Attempts(m, init), Names(init), r);
      assert attempts + Attempts(m, init) + [Attempt(m, r.integration)] == attempts + Attempts(m, results);
    }
  }

  /** The row of a pair after routing tells how the last send to it went. */
  lemma {:induction false} LastResultStands(rows: seq<Delivery>, attempts: seq<Attempt>, m: string,
                                            results: seq<Result>, i: nat)
    requires UniqueRows(rows) && Counted(rows, attempts)
    requires i < |results| && forall j :: i < j < |results| ==> results[j].integration != results[i].integration
    ensures UpdateAll(rows, m, results).Some?
    ensures Tells(UpdateAll(rows, m, results).value, m, results[i])
  {
    var init, r := results[..|results| - 1], results[|results| - 1];
    assert results == init + [r];
    UpdateAllKeeps(rows, attempts, m, init);
    UpdateAllSnoc(rows, m, init, r);
    var mid := UpdateAll(rows, m, init).value;
    if i < |init| {
      LastResultStands(rows, attempts, m, init, i);
    }
    ShowsAfterUpdate(mid, attempts + Attempts(m, init), m, r, results[i]);
  }

  lemma ShowsAfterUpdate(mid: seq<Delivery>, attempts: seq<Attempt>, m: string, r: Result, q: Result)
    requires UniqueRows(mid) && Counted(mid, attempts)
    requires q == r || (q.integration != r.integration && Tells(mid, m, q))
    ensures UpdateDelivery(mid, m, r).Some?
    ensures Tells(UpdateDelivery(mid, m, r).value, m, q)
  {
    UpdateKeeps(mid, attempts, m, r);
    var rows' := UpdateDelivery(mid, m, r).value;
    if q != r {
      var k :| 0 <= k < |mid| && mid[k].Is(m, q.integration) &&
        if q.success then mid[k].status == Sent && mid[k].externalId == q.externalId && mid[k].failureReason.None?
        else mid[k].status == NotSent && mid[k].failureReason == q.error;
      assert rows'[k] == mid[k];
    }
  }

  // ---------------------------------------------------------------- invariant

  ghost predicate EventOk(e: Event) {
    && e.status != Processing
    && (e.status == Failed ==> e.retryCount == e.Cap())
    && (e.status != Failed ==> e.retryCount < e.Cap())
  }

  /** Every completed round is accounted for by the retry counter, the resets, or the delivery. */
  ghost predicate HistoryOk(s: State) {
    && |s.rounds| == |s.outbox| && |s.resets| == |s.outbox|
    && forall i :: 0 <= i < |s.outbox| ==> s.rounds[i] == RoundsDue(s.outbox[i], s.resets[i])
  }

  function RoundsDue(e: Event, resets: nat): nat {
    e.Cap() * resets + e.retryCount + if e.status == Delivered then 1 else 0
  }

  ghost predicate Fresh(outbox: seq<Event>, c: Copy) {
    c.index < |outbox| && outbox[c.index] == c.event && c.event.Live()
  }

  /** The unprocessed in-memory copies equal the committed rows and are still live. */
  ghost predicate TodoOk(outbox: seq<Event>, todo: seq<Copy>) {
    && (forall i :: 0 <= i < |todo| ==> Fresh(outbox, todo[i]))
    && (forall i, j :: 0 <= i < j < |todo| ==> todo[i].index != todo[j].index)
  }

  ghost predicate Current(outbox: seq<Event>, index: nat, todo: seq<Copy>) {
    && index < |outbox| && outbox[index].Live()
    && TodoOk(outbox, todo)
    && forall i :: 0 <= i < |todo| ==> todo[i].index != index
  }

  ghost predicate WorkerOk(s: State) {
    match s.worker
    case Idle => true
    case Between(_, todo) => TodoOk(s.outbox, todo)
    case Busy(now, cur, todo) => Current(s.outbox, cur.index, todo) && cur.event == Claimed(s.outbox[cur.index], now)
    case Failing(_, index, todo) => Current(s.outbox, index, todo)
  }

  ghost predicate Published(outbox: seq<Event>, m: string) {
    exists i :: 0 <= i < |outbox| && outbox[i].messageId == m
  }

  /** Rows exist only for published messages, and every published message has its two first rows. */
  ghost predicate Linked(outbox: seq<Event>, rows: seq<Delivery>) {
    && (forall k :: 0 <= k < |rows| ==> Published(outbox, rows[k].messageId))
    && (forall i :: 0 <= i < |outbox| ==>
         HasRow(rows, outbox[i].messageId, DISCORD) && HasRow(rows, outbox[i].messageId, WEBHOOK))
  }

  ghost predicate RowsOk(s: State) {
    UniqueRows(s.rows) && Counted(s.rows, s.attempts) && WebhookRowsIdle(s.rows) && Linked(s.outbox, s.rows)
  }

  ghost predicate Inv(s: State) {
    && (forall i :: 0 <= i < |s.outbox| ==> EventOk(s.outbox[i]))
    && HistoryOk(s) && WorkerOk(s) && RowsOk(s)
  }

  // ---------------------------------------------------------------- rounds

  lemma RoundKeepsEvent(e: Event, e': Event, resets: nat)
    requires EventOk(e) && e.Live()
    requires (exists ok, now, jitter, t :: e' == Concluded(Claimed(e, t), ok, now, jitter))
             || (exists now :: e' == Errored(e, now))
    ensures EventOk(e') && RoundsDue(e', resets) == RoundsDue(e, resets) + 1
    ensures SameEvent(e, e') && e'.Remaining() < e.Remaining()
  {
  }

  lemma ResetKeepsEvent(e: Event, now: real, resets: nat)
    requires EventOk(e)
    ensures EventOk(Reset(e, now))
    ensures RoundsDue(Reset(e, now), resets + if e.status == Failed then 1 else 0) == RoundsDue(e, resets)
  {
    assert e.Cap() * (resets + 1) == e.Cap() * resets + e.Cap();
  }

  /** One event completed a round; everything else in the two tables' event columns stands. */
  lemma RoundKeeps(s: State, s': State, index: nat, e': Event)
    requires Inv(s) && index < |s.outbox| && s.outbox[index].Live()
    requires s'.outbox == s.outbox[index := e'] && s'.resets == s.resets
    requires s'.rounds == s.rounds[index := s.rounds[index] + 1]
    requires EventOk(e') && RoundsDue(e', s.resets[index]) == RoundsDue(s.outbox[index], s.resets[index]) + 1
    ensures HistoryOk(s') && forall i :: 0 <= i < |s'.outbox| ==> EventOk(s'.outbox[i])
  {
  }

  lemma TodoKept(outbox: seq<Event>, outbox': seq<Event>, index: nat, todo: seq<Copy>)
    requires Current(outbox, index, todo) && |outbox'| == |outbox|
    requires forall i :: 0 <= i < |outbox| && i != index ==> outbox'[i] == outbox[i]
    ensures TodoOk(outbox', todo)
  {
  }

  lemma SelectKeeps(s: State, step: Step)
    requires Inv(s) && Enabled(s, step) && step.Select?
    ensures Inv(Do(s, step))
  {
  }

  lemma ClaimKeeps(s: State, step: Step)
    requires Inv(s) && Enabled(s, step) && step.Claim?
    ensures Inv(Do(s, step))
  {
    assert Fresh(s.outbox, s.worker.todo[0]);
  }

  lemma QuietStepKeeps(s: State, step: Step)
    requires Inv(s) && Enabled(s, step) && (step.Throw? || step.Finish? || step.Die?)
    ensures Inv(Do(s, step))
  {
  }

  lemma BookKeeps(s: State, step: Step)
    requires Inv(s) && Enabled(s, step) && step.Book?
    ensures Inv(Do(s, step))
  {
    hide RoundsDue;
    var i := s.worker.index;
    var e' := Errored(s.outbox[i], step.now);
    RoundKeepsEvent(s.outbox[i], e', s.resets[i]);
    RoundKeeps(s, Do(s, step), i, e');
    LinkedKept(s.outbox, Do(s, step).outbox, s.rows, s.rows);
    TodoKept(s.outbox, Do(s, step).outbox, i, s.worker.todo);
  }

  ghost predicate SameKeys(rows: seq<Delivery>, rows': seq<Delivery>) {
    |rows| <= |rows'| && forall k :: 0 <= k < |rows| ==> rows'[k].Is(rows[k].messageId, rows[k].integration)
  }

  lemma StillThere(rows: seq<Delivery>, rows': seq<Delivery>, m: string, i: string)
    requires HasRow(rows, m, i) && SameKeys(rows, rows')
    ensures HasRow(rows', m, i)
  {
    var k :| 0 <= k < |rows| && rows[k].Is(m, i);
    assert rows'[k].Is(m, i);
  }

  lemma StillPublished(outbox: seq<Event>, outbox': seq<Event>, m: string)
    requires Published(outbox, m) && |outbox| <= |outbox'|
    requires forall i :: 0 <= i < |outbox| ==> outbox'[i].messageId == outbox[i].messageId
    ensures Published(outbox', m)
  {
    var i :| 0 <= i < |outbox| && outbox[i].messageId == m;
    assert outbox'[i].messageId == m;
  }

  /** Linked survives as long as message ids and row keys stand and new rows are for known messages. */
  lemma LinkedKept(outbox: seq<Event>, outbox': seq<Event>, rows: seq<Delivery>, rows': seq<Delivery>)
    requires Linked(outbox, rows) && |outbox'| == |outbox|
    requires forall i :: 0 <= i < |outbox| ==> outbox'[i].messageId == outbox[i].messageId
    requires SameKeys(rows, rows')
    requires forall k :: |rows| <= k < |rows'| ==> Published(outbox, rows'[k].messageId)
    ensures Linked(outbox', rows')
  {
    forall k | 0 <= k < |rows'| ensures Published(outbox', rows'[k].messageId) {
      assert k < |rows| ==> rows'[k].Is(rows[k].messageId, rows[k].integration);
      StillPublished(outbox, outbox', rows'[k].messageId);
    }
    forall i | 0 <= i < |outbox'|
      ensures HasRow(rows', outbox'[i].messageId, DISCORD) && HasRow(rows', outbox'[i].messageId, WEBHOOK)
    {
      StillThere(rows, rows', outbox[i].messageId, DISCORD);
      StillThere(rows, rows', outbox[i].messageId, WEBHOOK);
    }
  }

  lemma {:induction false} TargetsNeverWebhook(endpoints: seq<Endpoint>)
    ensures forall n :: n in WebhookTargets(endpoints) ==> |n| > |WEBHOOK| && n[..|WEBHOOK|] == WEBHOOK
  {
    if endpoints != [] {
      TargetsNeverWebhook(endpoints[1..]);
      var n := WEBHOOK + ":" + endpoints[0].name;
      assert n[..|WEBHOOK|] == WEBHOOK;
    }
  }

  lemma NeverContacted(settings: Settings, endpoints: seq<Endpoint>, origin: string)
    ensures WEBHOOK !in Targets(settings, endpoints, origin)
  {
    TargetsNeverWebhook(endpoints);
    assert DISCORD[0] != WEBHOOK[0] && SIGNAL[0] != WEBHOOK[0];
  }

  lemma IdleKept(rows: seq<Delivery>, rows': seq<Delivery>, m: string, names: seq<string>)
    requires WebhookRowsIdle(rows) && TouchesOnly(rows, rows', m, names) && WEBHOOK !in names
    ensures WebhookRowsIdle(rows')
  {
    forall k | 0 <= k < |rows| && rows[k].integration == WEBHOOK ensures rows'[k] == rows[k] {
    }
  }

  lemma ConcludeKeepsRows(s: State, step: Step)
    requires Inv(s) && Enabled(s, step) && step.Conclude?
    ensures RowsOk(Do(s, step))
  {
    var s', c := Do(s, step), s.worker.cur;
    var m := c.event.messageId;
    UpdateAllKeeps(s.rows, s.attempts, m, step.results);
    NeverContacted(step.settings, step.endpoints, c.event.origin);
    IdleKept(s.rows, s'.rows, m, Names(step.results));
    assert s.outbox[c.index].messageId == m;
    assert Published(s.outbox, m);
    LinkedKept(s.outbox, s'.outbox, s.rows, s'.rows);
  }

  lemma ConcludeKeeps(s: State, step: Step)
    requires Inv(s) && Enabled(s, step) && step.Conclude?
    ensures Inv(Do(s, step))
  {
    hide RoundsDue, RowsOk;
    var c := s.worker.cur;
    var e := s.outbox[c.index];
    var e' := Concluded(c.event, AllOk(step.results), step.now, step.jitter);
    assert e' == Concluded(Claimed(e, s.worker.now), AllOk(step.results), step.now, step.jitter);
    RoundKeepsEvent(e, e', s.resets[c.index]);
    RoundKeeps(s, Do(s, step), c.index, e');
    TodoKept(s.outbox, Do(s, step).outbox, c.index, s.worker.todo);
    ConcludeKeepsRows(s, step);
  }

  lemma AdminRetryKeepsEvents(s: State, step: Step)
    requires Inv(s) && Enabled(s, step) && step.AdminRetry?
    ensures HistoryOk(Do(s, step)) && forall i :: 0 <= i < |s.outbox| ==> EventOk(Do(s, step).outbox[i])
  {
    var s' := Do(s, step);
    forall i | 0 <= i < |s'.outbox|
      ensures EventOk(s'.outbox[i]) && s'.rounds[i] == RoundsDue(s'.outbox[i], s'.resets[i])
    {
      ResetKeepsEvent(s.outbox[i], step.now, s.resets[i]);
    }
  }

  lemma AdminRetryKeeps(s: State, step: Step)
    requires Inv(s) && Enabled(s, step) && step.AdminRetry?
    ensures Inv(Do(s, step))
  {
    hide RowsOk, HistoryOk, RoundsDue;
    var s' := Do(s, step);
    AdminRetryKeepsEvents(s, step);
    AdminRetryKeepsRows(s, s', step.row);
    ResetSparesLive(s, s');
  }

  lemma AdminRetryKeepsRows(s: State, s': State, row: nat)
    requires RowsOk(s) && row < |s.rows| && |s'.outbox| == |s.outbox| && s'.attempts == s.attempts
    requires forall i :: 0 <= i < |s.outbox| ==> s'.outbox[i].messageId == s.outbox[i].messageId
    requires s'.rows == s.rows[row := Requeued(s.rows[row])]
    ensures RowsOk(s')
  {
    RequeuedKeys(s.rows, row);
    RekeyedCounts(s.rows, s'.rows, s.attempts);
    LinkedKept(s.outbox, s'.outbox, s.rows, s'.rows);
  }

  lemma RequeuedKeys(rows: seq<Delivery>, row: nat)
    requires row < |rows|
    ensures var rows' := rows[row := Requeued(rows[row])];
            && SameKeys(rows, rows') && (WebhookRowsIdle(rows) ==> WebhookRowsIdle(rows'))
            && forall k :: 0 <= k < |rows| ==> rows'[k].attempts == rows[k].attempts
  {
  }

  lemma ResetSparesLive(s: State, s': State)
    requires WorkerOk(s) && s'.worker == s.worker && |s'.outbox| == |s.outbox|
    requires forall i :: 0 <= i < |s.outbox| && s.outbox[i].Live() ==> s'.outbox[i] == s.outbox[i]
    ensures WorkerOk(s')
  {
  }

  lemma RekeyedCounts(rows: seq<Delivery>, rows': seq<Delivery>, attempts: seq<Attempt>)
    requires UniqueRows(rows) && Counted(rows, attempts) && |rows'| == |rows| && SameKeys(rows, rows')
    requires forall k :: 0 <= k < |rows| ==> rows'[k].attempts == rows[k].attempts
    ensures UniqueRows(rows') && Counted(rows', attempts)
  {
    forall i, j | 0 <= i < j < |rows'| ensures !rows'[j].Is(rows'[i].messageId, rows'[i].integration) {
      assert !rows[j].Is(rows[i].messageId, rows[i].integration);
    }
    forall a | a in attempts ensures HasRow(rows', a.messageId, a.integration) {
      StillThere(rows, rows', a.messageId, a.integration);
    }
  }

  lemma StepKeepsInv(s: State, step: Step)
    requires Inv(s) && Enabled(s, step)
    ensures Inv(Do(s, step))
  {
    match step
    case Select(_, _, _) => SelectKeeps(s, step);
    case Claim => ClaimKeeps(s, step);
    case Conclude(_, _, _, _, _) => ConcludeKeeps(s, step);
    case Throw => QuietStepKeeps(s, step);
    case Book(_, _) => BookKeeps(s, step);
    case Finish => QuietStepKeeps(s, step);
    case Die => QuietStepKeeps(s, step);
    case AdminRetry(_, _) => AdminRetryKeeps(s, step);
  }

  lemma PublishKeeps(s: State, m: string, sequence: int, origin: string, maxRetries: int, next: real, created: real)
    requires Inv(s) && !Published(s.outbox, m)
    ensures Inv(Publish(s, m, sequence, origin, maxRetries, next, created))
  {
    var s' := Publish(s, m, sequence, origin, maxRetries, next, created);
    var e := s'.outbox[|s.outbox|];
    PublishKeepsEvents(s, s', e);
    PublishKeepsRows(s, s', m);
  }

  lemma PublishKeepsEvents(s: State, s': State, e: Event)
    requires Inv(s) && s'.outbox == s.outbox + [e] && s'.worker == s.worker
    requires s'.rounds == s.rounds + [0] && s'.resets == s.resets + [0] && EventOk(e) && RoundsDue(e, 0) == 0
    ensures HistoryOk(s') && (forall i :: 0 <= i < |s'.outbox| ==> EventOk(s'.outbox[i])) && WorkerOk(s')
  {
    hide RoundsDue, RowsOk;
    AppendSparesWorker(s, s', e);
  }

  lemma AppendSparesWorker(s: State, s': State, e: Event)
    requires WorkerOk(s) && s'.outbox == s.outbox + [e] && s'.worker == s.worker
    ensures WorkerOk(s')
  {
  }

  lemma PublishKeepsRows(s: State, s': State, m: string)
    requires RowsOk(s) && !Published(s.outbox, m) && s'.attempts == s.attempts
    requires |s'.outbox| == |s.outbox| + 1 && s'.outbox[|s.outbox|].messageId == m
    requires forall i :: 0 <= i < |s.outbox| ==> s'.outbox[i].messageId == s.outbox[i].messageId
    requires s'.rows == s.rows + FirstRows(m)
    ensures RowsOk(s')
  {
    forall k | 0 <= k < |s.rows| ensures s.rows[k].messageId != m {
      assert Published(s.outbox, s.rows[k].messageId);
    }
    NewMessageCounts(s.rows, s.attempts, m);
    PublishLinks(s.outbox, s'.outbox, s.rows, m);
  }

  lemma PublishLinks(outbox: seq<Event>, outbox': seq<Event>, rows: seq<Delivery>, m: string)
    requires Linked(outbox, rows) && |outbox'| == |outbox| + 1 && outbox'[|outbox|].messageId == m
    requires forall i :: 0 <= i < |outbox| ==> outbox'[i].messageId == outbox[i].messageId
    ensures Linked(outbox', rows + FirstRows(m))
  {
    var rows' := rows + FirstRows(m);
    forall k | 0 <= k < |rows'| ensures Published(outbox', rows'[k].messageId) {
      if k < |rows| { StillPublished(outbox, outbox', rows[k].messageId); }
    }
    assert rows'[|rows|].Is(m, DISCORD) && rows'[|rows| + 1].Is(m, WEBHOOK);
    forall i | 0 <= i < |outbox|
      ensures HasRow(rows', outbox'[i].messageId, DISCORD) && HasRow(rows', outbox'[i].messageId, WEBHOOK)
    {
      StillThere(rows, rows', outbox[i].messageId, DISCORD);
      StillThere(rows, rows', outbox[i].messageId, WEBHOOK);
    }
  }

  lemma NewMessageCounts(rows: seq<Delivery>, attempts: seq<Attempt>, m: string)
    requires UniqueRows(rows) && Counted(rows, attempts)
    requires forall k :: 0 <= k < |rows| ==> rows[k].messageId != m
    ensures UniqueRows(rows + FirstRows(m)) && Counted(rows + FirstRows(m), attempts)
  {
    var rows' := rows + FirstRows(m);
    forall a | a in attempts ensures a.messageId != m && HasRow(rows', a.messageId, a.integration) {
      var k :| 0 <= k < |rows| && rows[k].Is(a.messageId, a.integration);
      assert rows[k].messageId != m;
      StillThere(rows, rows', a.messageId, a.integration);
    }
    assert DISCORD != WEBHOOK by { assert DISCORD[0] != WEBHOOK[0]; }
  }

  /** Same events in the same places, and delivered ones unchanged. */
  ghost predicate Conserved(outbox: seq<Event>, outbox': seq<Event>) {
    && |outbox'| == |outbox|
    && forall i :: 0 <= i < |outbox| ==>
         SameEvent(outbox[i], outbox'[i]) && (outbox[i].status == Delivered ==> outbox'[i] == outbox[i])
  }

  lemma StepConserves(s: State, step: Step)
    requires Inv(s) && Enabled(s, step)
    ensures Conserved(s.outbox, Do(s, step).outbox)
  {
    match step
    case Conclude(_, _, results, now, jitter) =>
      assert Current(s.outbox, s.worker.cur.index, s.worker.todo);
      RoundConserves(s.outbox, s.worker.cur.index, Concluded(s.worker.cur.event, AllOk(results), now, jitter));
    case Book(now, _) =>
      assert Current(s.outbox, s.worker.index, s.worker.todo);
      RoundConserves(s.outbox, s.worker.index, Errored(s.outbox[s.worker.index], now));
    case AdminRetry(_, now) => ResetConserves(s.outbox, now);
    case _ =>
  }

  lemma RoundConserves(outbox: seq<Event>, index: nat, e': Event)
    requires index < |outbox| && outbox[index].Live() && SameEvent(outbox[index], e')
    ensures Conserved(outbox, outbox[index := e'])
  {
  }

  lemma ResetConserves(outbox: seq<Event>, now: real)
    ensures Conserved(outbox, ResetAll(outbox, now))
  {
  }
}
