/**
 The whole write path: sends, the outbox worker and administrators over one database. A commit
 of a new message publishes its outbox event and delivery rows in the same transaction.
 The theorems here hold in every state of every run.
 */
module System {
  import opened Wrappers
  import L = MessageLog
  import O = Outbox
  import I = OutboxInvariant

  datatype State = State(log: L.Log, out: O.State)

  /** The event columns a send fixes besides the message: origin, retry limit and two clock readings. */
  datatype Extras = Extras(origin: string, maxRetries: int, nextAttemptAt: real, createdAt: real)

  datatype Step = Send(send: L.SendStep, extras: Extras) | Work(work: O.Step)

  const INITIAL := State(L.EMPTY, O.EMPTY)

  predicate Adds(log: L.Log, step: L.SendStep)
    requires L.Enabled(log, step)
  {
    step.Commit? && log.calls[step.k].stage.isNew
  }

  predicate Enabled(s: State, step: Step) {
    match step
    case Send(send, _) => L.Enabled(s.log, send)
    case Work(work) => O.Enabled(s.out, work)
  }

  function Do(s: State, step: Step): State
    requires Enabled(s, step)
  {
    match step
    case Work(work) => s.(out := O.Do(s.out, work))
    case Send(send, x) =>
      State(L.Do(s.log, send),
            if Adds(s.log, send) then
              var m := s.log.calls[send.k].stage.msg;
              O.Publish(s.out, m.id, m.sequence, x.origin, x.maxRetries, x.nextAttemptAt, x.createdAt)
            else s.out)
  }

  ghost predicate Next(s: State, t: State) {
    exists step :: Enabled(s, step) && t == Do(s, step)
  }

  ghost predicate Run(tr: seq<State>) {
    && |tr| > 0 && tr[0] == INITIAL
    && forall i :: 0 < i < |tr| ==> StepAt(tr, i)
  }

  ghost predicate StepAt(tr: seq<State>, i: nat)
    requires 0 < i < |tr|
  {
    Next(tr[i - 1], tr[i])
  }

  // ---------------------------------------------------------------- invariant

  /** Outbox events correspond one to one, and in order, with messages. */
  ghost predicate DualWritten(messages: seq<L.Message>, outbox: seq<O.Event>) {
    |messages| == |outbox| && forall i :: 0 <= i < |outbox| ==> Carries(outbox[i], messages[i])
  }

  predicate Carries(e: O.Event, m: L.Message) {
    e.messageId == m.id && e.sequence == m.sequence
  }

  ghost predicate Inv(s: State) {
    L.Inv(s.log) && I.Inv(s.out) && DualWritten(s.log.messages, s.out.outbox)
  }

  /** No worker or administrator step creates, destroys or re-addresses an event, or touches a message. */
  lemma WorkConserves(s: State, work: O.Step)
    requires Inv(s) && O.Enabled(s.out, work)
    ensures Do(s, Work(work)).log == s.log && I.Conserved(s.out.outbox, Do(s, Work(work)).out.outbox)
    ensures DualWritten(s.log.messages, Do(s, Work(work)).out.outbox)
  {
    I.StepConserves(s.out, work);
    ConservedStaysWritten(s.log.messages, s.out.outbox, Do(s, Work(work)).out.outbox);
  }

  lemma ConservedStaysWritten(messages: seq<L.Message>, outbox: seq<O.Event>, outbox': seq<O.Event>)
    requires DualWritten(messages, outbox) && I.Conserved(outbox, outbox')
    ensures DualWritten(messages, outbox')
  {
    forall i | 0 <= i < |outbox'| ensures Carries(outbox'[i], messages[i]) {
      assert O.SameEvent(outbox[i], outbox'[i]) && Carries(outbox[i], messages[i]);
    }
  }

  lemma StepKeepsInv(s: State, step: Step)
    requires Inv(s) && Enabled(s, step)
    ensures Inv(Do(s, step))
  {
    hide L.Inv, I.Inv, DualWritten;
    match step
    case Work(work) =>
      I.StepKeepsInv(s.out, work);
      WorkConserves(s, work);
    case Send(send, x) =>
      L.StepKeepsInv(s.log, send);
      if Adds(s.log, send) { CommitPublishes(s, send, x); }
  }

  lemma CommitPublishes(s: State, send: L.SendStep, x: Extras)
    requires Inv(s) && L.Enabled(s.log, send) && Adds(s.log, send)
    ensures I.Inv(Do(s, Send(send, x)).out)
    ensures DualWritten(Do(s, Send(send, x)).log.messages, Do(s, Send(send, x)).out.outbox)
  {
    hide L.Inv, I.Inv;
    var m := s.log.calls[send.k].stage.msg;
    L.PendingIsNew(s.log, send.k);
    NotYetPublished(s.log.messages, s.out.outbox, m.id);
    I.PublishKeeps(s.out, m.id, m.sequence, x.origin, x.maxRetries, x.nextAttemptAt, x.createdAt);
  }

  lemma NotYetPublished(messages: seq<L.Message>, outbox: seq<O.Event>, id: string)
    requires DualWritten(messages, outbox) && !L.HasId(messages, id)
    ensures !I.Published(outbox, id)
  {
    assert forall i :: 0 <= i < |outbox| ==> messages[i].id == outbox[i].messageId;
  }

  lemma {:induction false} RunKeepsInv(tr: seq<State>, i: nat)
    requires Run(tr) && i < |tr|
    ensures Inv(tr[i])
  {
    if i > 0 {
      RunKeepsInv(tr, i - 1);
      assert StepAt(tr, i);
      var step :| Enabled(tr[i - 1], step) && tr[i] == Do(tr[i - 1], step);
      StepKeepsInv(tr[i - 1], step);
    } else {
      assert Inv(INITIAL);
    }
  }

  // ---------------------------------------------------------------- messages

  /** Call k's transaction holds an uncommitted row of the conversation. */
  predicate Inserting(log: L.Log, k: nat, conv: string) {
    k in log.calls && log.calls[k].stage.Open() && log.calls[k].conv == conv
  }

  predicate KeyAt(messages: seq<L.Message>, a: int, conv: string, clientId: string) {
    0 <= a < |messages| && messages[a].conv == conv && messages[a].clientId == clientId
  }

  /**
   Gapless order: in every reachable state the i-th committed message of a conversation carries
   sequence number i, so the numbers are exactly 1..n; and at most one uncommitted insert per
   conversation exists, which carries n + 1.
   */
  lemma GaplessOrder(tr: seq<State>, i: nat, conv: string)
    requires Run(tr) && i < |tr|
    ensures var s := tr[i].log;
            var n := |L.ConvLog(s.messages, conv)|;
            && (forall j :: 0 <= j < n ==> L.ConvLog(s.messages, conv)[j].sequence == j + 1)
            && (forall q :: L.HasSequence(s.messages, conv, q) <==> 1 <= q <= n)
            && (forall k :: Inserting(s, k, conv) ==> s.calls[k].stage.msg.sequence == n + 1)
            && (forall k, k' :: Inserting(s, k, conv) && Inserting(s, k', conv) ==> k == k')
  {
    RunKeepsInv(tr, i);
    var s := tr[i].log;
    forall q ensures L.HasSequence(s.messages, conv, q) <==> 1 <= q <= |L.ConvLog(s.messages, conv)| {
      L.TakenNumbers(s.messages, conv, q);
    }
    forall k | Inserting(s, k, conv)
      ensures s.calls[k].stage.msg.sequence == |L.ConvLog(s.messages, conv)| + 1
    {
      assert L.CallOk(s.messages, s.calls[k]);
    }
  }

  /** A committed call with this conversation and client id. */
  predicate Finished(log: L.Log, k: nat, conv: string, clientId: string) {
    k in log.calls && log.calls[k].stage.Done? && log.calls[k].conv == conv && log.calls[k].clientId == clientId
  }

  /** ... that reported the message as new. */
  predicate First(log: L.Log, k: nat, conv: string, clientId: string) {
    Finished(log, k, conv, clientId) && log.calls[k].stage.isNew
  }

  /**
   Exactly once by client id: at most one committed row has the key; every committed call with
   the key returned that row; and exactly one of them reported it as new.
   */
  lemma ExactlyOnce(tr: seq<State>, i: nat, conv: string, clientId: string)
    requires Run(tr) && i < |tr|
    ensures var log := tr[i].log;
            && (forall a, b :: KeyAt(log.messages, a, conv, clientId) && KeyAt(log.messages, b, conv, clientId)
                  ==> a == b)
            && (forall j, k :: Finished(log, j, conv, clientId) && Finished(log, k, conv, clientId)
                  ==> log.calls[j].stage.msg == log.calls[k].stage.msg && log.calls[j].stage.msg in log.messages)
            && (forall j, k :: First(log, j, conv, clientId) && First(log, k, conv, clientId) ==> j == k)
            && (L.HasClientId(log.messages, conv, clientId) <==> exists k :: First(log, k, conv, clientId))
            && ((exists k :: Finished(log, k, conv, clientId)) ==> exists k :: First(log, k, conv, clientId))
  {
    RunKeepsInv(tr, i);
    FirstExists(tr[i].log, conv, clientId);
    AnswersAgree(tr[i].log, conv, clientId);
  }

  lemma AnswersAgree(log: L.Log, conv: string, clientId: string)
    requires L.Inv(log)
    ensures forall k :: Finished(log, k, conv, clientId) ==>
              log.calls[k].stage.msg in log.messages && L.HasClientId(log.messages, conv, clientId)
    ensures forall j, k :: Finished(log, j, conv, clientId) && Finished(log, k, conv, clientId)
              ==> log.calls[j].stage.msg == log.calls[k].stage.msg
  {
    forall k | Finished(log, k, conv, clientId)
      ensures log.calls[k].stage.msg in log.messages
      ensures exists a :: KeyAt(log.messages, a, conv, clientId) && log.messages[a] == log.calls[k].stage.msg
    {
      assert L.CallOk(log.messages, log.calls[k]);
      var m := log.calls[k].stage.msg;
      var a :| 0 <= a < |log.messages| && log.messages[a] == m;
      assert KeyAt(log.messages, a, conv, clientId);
    }
  }

  lemma FirstExists(log: L.Log, conv: string, clientId: string)
    requires L.Inv(log)
    ensures L.HasClientId(log.messages, conv, clientId) <==> exists k :: First(log, k, conv, clientId)
  {
    if L.HasClientId(log.messages, conv, clientId) {
      var a :| 0 <= a < |log.messages| && log.messages[a].conv == conv && log.messages[a].clientId == clientId;
      assert log.messages[a] in log.messages;
      var k :| L.Created(log, k, log.messages[a]);
      assert L.CallOk(log.messages, log.calls[k]);
      assert First(log, k, conv, clientId);
    }
    AnswersAgree(log, conv, clientId);
  }

  /** Within one process two calls are never both between taking and releasing a conversation's lock. */
  lemma LockExcludes(tr: seq<State>, i: nat, j: nat, k: nat)
    requires Run(tr) && i < |tr|
    requires j in tr[i].log.calls && k in tr[i].log.calls
    requires tr[i].log.calls[j].LockKey() == tr[i].log.calls[k].LockKey()
    requires tr[i].log.calls[j].stage.InLock() && tr[i].log.calls[k].stage.InLock()
    ensures j == k
  {
    RunKeepsInv(tr, i);
  }

  /** Rows of s are a prefix of t's, and what s's committed calls returned still stands in t. */
  ghost predicate Extends(s: L.Log, t: L.Log) {
    && s.messages <= t.messages
    && forall k :: k in s.calls && s.calls[k].stage.Done? ==> k in t.calls && t.calls[k] == s.calls[k]
  }

  lemma NextExtends(s: State, t: State)
    requires Next(s, t)
    ensures Extends(s.log, t.log)
  {
    var step :| Enabled(s, step) && t == Do(s, step);
    if step.Send? { L.StepGrows(s.log, step.send); }
  }

  /** Nothing committed is ever taken back: rows only get appended and a committed answer stands. */
  lemma {:induction false} CommittedStands(tr: seq<State>, i: nat, j: nat)
    requires Run(tr) && i <= j < |tr|
    ensures Extends(tr[i].log, tr[j].log)
  {
    if i < j {
      CommittedStands(tr, i, j - 1);
      assert StepAt(tr, j);
      NextExtends(tr[j - 1], tr[j]);
      ExtendsTransitive(tr[i].log, tr[j - 1].log, tr[j].log);
    }
  }

  lemma ExtendsTransitive(a: L.Log, b: L.Log, c: L.Log)
    requires Extends(a, b) && Extends(b, c)
    ensures Extends(a, c)
  {
  }

  // ---------------------------------------------------------------- outbox

  /**
   Atomic dual write: messages and outbox events match one to one, message ids are unique, and
   every message has exactly one "discord" and exactly one "webhook" delivery row.
   */
  lemma DualWrite(tr: seq<State>, i: nat)
    requires Run(tr) && i < |tr|
    ensures var s := tr[i];
            && DualWritten(s.log.messages, s.out.outbox)
            && (forall a, b :: 0 <= a < b < |s.out.outbox| ==> s.out.outbox[a].messageId != s.out.outbox[b].messageId)
            && (forall a :: 0 <= a < |s.log.messages| ==>
                 var id := s.log.messages[a].id;
                 O.HasRow(s.out.rows, id, O.DISCORD) && O.HasRow(s.out.rows, id, O.WEBHOOK))
            && I.UniqueRows(s.out.rows)
            && (forall k :: 0 <= k < |s.out.rows| ==> L.HasId(s.log.messages, s.out.rows[k].messageId))
  {
    RunKeepsInv(tr, i);
    var s := tr[i];
    forall a | 0 <= a < |s.log.messages|
      ensures var id := s.log.messages[a].id;
              O.HasRow(s.out.rows, id, O.DISCORD) && O.HasRow(s.out.rows, id, O.WEBHOOK)
    {
      assert s.out.outbox[a].messageId == s.log.messages[a].id;
    }
    forall k | 0 <= k < |s.out.rows| ensures L.HasId(s.log.messages, s.out.rows[k].messageId) {
      var a :| 0 <= a < |s.out.outbox| && s.out.outbox[a].messageId == s.out.rows[k].messageId;
      assert s.log.messages[a].id == s.out.rows[k].messageId;
    }
  }

  /**
   Crash safety: "processing" is never committed, a live event can still afford a failure, a dead
   one has used up exactly its cap, and the batch's waiting copies are what the database holds.
   */
  lemma CrashSafe(tr: seq<State>, i: nat)
    requires Run(tr) && i < |tr|
    ensures var s := tr[i].out;
            && (forall e :: 0 <= e < |s.outbox| ==>
                 && s.outbox[e].status != O.Processing
                 && (s.outbox[e].Live() ==> s.outbox[e].retryCount < s.outbox[e].Cap())
                 && (s.outbox[e].status == O.Failed ==> s.outbox[e].retryCount == s.outbox[e].Cap()))
            && (!s.worker.Idle? ==> I.TodoOk(s.outbox, s.worker.todo))
  {
    RunKeepsInv(tr, i);
  }

  lemma NextKeepsDelivered(s: State, t: State, e: nat)
    requires Inv(s) && Next(s, t) && e < |s.out.outbox| && s.out.outbox[e].status == O.Delivered
    ensures e < |t.out.outbox| && t.out.outbox[e] == s.out.outbox[e]
  {
    var step :| Enabled(s, step) && t == Do(s, step);
    if step.Work? { WorkConserves(s, step.work); }
  }

  lemma DeliveredStays(tr: seq<State>, j: nat, e: nat)
    requires Run(tr) && 0 < j < |tr|
    requires e < |tr[j - 1].out.outbox| && tr[j - 1].out.outbox[e].status == O.Delivered
    ensures e < |tr[j].out.outbox| && tr[j].out.outbox[e] == tr[j - 1].out.outbox[e]
  {
    RunKeepsInv(tr, j - 1);
    assert StepAt(tr, j);
    NextKeepsDelivered(tr[j - 1], tr[j], e);
  }

  /** A delivered event never changes again. */
  lemma {:induction false} DeliveredIsTerminal(tr: seq<State>, i: nat, j: nat, e: nat)
    requires Run(tr) && i <= j < |tr|
    requires e < |tr[i].out.outbox| && tr[i].out.outbox[e].status == O.Delivered
    ensures e < |tr[j].out.outbox| && tr[j].out.outbox[e] == tr[i].out.outbox[e]
  {
    if i < j {
      DeliveredIsTerminal(tr, i, j - 1, e);
      DeliveredStays(tr, j, e);
    }
  }

  /**
   The completed rounds of an event are exactly its cap times the resets applied to it, plus its
   failures since, plus one if delivered; hence at most cap * (1 + resets).
   */
  lemma BoundedRounds(tr: seq<State>, i: nat, e: nat)
    requires Run(tr) && i < |tr| && e < |tr[i].out.outbox|
    ensures var s := tr[i].out;
            && |s.rounds| == |s.resets| == |s.outbox|
            && s.rounds[e] == s.outbox[e].Cap() * s.resets[e] + s.outbox[e].retryCount
                              + (if s.outbox[e].status == O.Delivered then 1 else 0)
            && s.rounds[e] <= s.outbox[e].Cap() * (1 + s.resets[e])
  {
    RunKeepsInv(tr, i);
  }

  /** The columns a send fixes are the ones it was given, and its limit is the one its rounds are counted by. */
  ghost predicate Given(e: O.Event, m: L.Message, x: Extras) {
    && e.messageId == m.id && e.sequence == m.sequence && e.origin == x.origin
    && e.maxRetries == x.maxRetries && e.createdAt == x.createdAt
    && e.Cap() == if x.maxRetries < 1 then 1 else x.maxRetries
  }

  lemma CommitGives(s: State, send: L.SendStep, x: Extras)
    requires L.Enabled(s.log, send) && Adds(s.log, send)
    ensures var t := Do(s, Send(send, x)).out;
            && |t.outbox| == |s.out.outbox| + 1 && t.outbox[..|s.out.outbox|] == s.out.outbox
            && Given(t.outbox[|s.out.outbox|], s.log.calls[send.k].stage.msg, x)
  {
  }

  lemma GivenStands(s: State, step: Step, e: nat, m: L.Message, x: Extras)
    requires Inv(s) && Enabled(s, step) && e < |s.out.outbox| && Given(s.out.outbox[e], m, x)
    ensures e < |Do(s, step).out.outbox| && Given(Do(s, step).out.outbox[e], m, x)
  {
    hide Inv, L.Do, L.Enabled, O.Do, O.Enabled;
    match step
    case Work(work) => WorkConserves(s, work);
    case Send(send, y) =>
      if Adds(s.log, send) { CommitGives(s, send, y); }
  }

  /**
   Every event was published by the commit of a send, and in every later state it carries the
   message, number, origin, age and retry limit of that send, which so bounds its rounds.
   */
  lemma {:induction false} PublishedByItsSend(tr: seq<State>, i: nat, e: nat) returns (j: nat, k: nat, x: Extras)
    requires Run(tr) && i < |tr| && e < |tr[i].out.outbox|
    ensures j < i && L.Enabled(tr[j].log, L.Commit(k)) && Adds(tr[j].log, L.Commit(k)) && |tr[j].out.outbox| == e
    ensures tr[j + 1] == Do(tr[j], Send(L.Commit(k), x))
    ensures Given(tr[i].out.outbox[e], tr[j].log.calls[k].stage.msg, x)
    ensures |tr[i].out.rounds| == |tr[i].out.resets| == |tr[i].out.outbox|
    ensures tr[i].out.rounds[e] <= (if x.maxRetries < 1 then 1 else x.maxRetries) * (1 + tr[i].out.resets[e])
  {
    hide Inv, L.Do, O.Do, O.Enabled, Given;
    assert i > 0;
    RunKeepsInv(tr, i - 1);
    assert StepAt(tr, i);
    var step :| Enabled(tr[i - 1], step) && tr[i] == Do(tr[i - 1], step);
    if e < |tr[i - 1].out.outbox| {
      j, k, x := PublishedByItsSend(tr, i - 1, e);
      GivenStands(tr[i - 1], step, e, tr[j].log.calls[k].stage.msg, x);
    } else {
      NewEventIsPublished(tr[i - 1], step, e);
      j, k, x := i - 1, step.send.k, step.extras;
      CommitGives(tr[i - 1], step.send, x);
    }
    BoundedRounds(tr, i, e);
    assert Given(tr[i].out.outbox[e], tr[j].log.calls[k].stage.msg, x);
    GivenCap(tr[i].out.outbox[e], tr[j].log.calls[k].stage.msg, x);
  }

  lemma GivenCap(e: O.Event, m: L.Message, x: Extras)
    requires Given(e, m, x)
    ensures e.Cap() == if x.maxRetries < 1 then 1 else x.maxRetries
  {
  }

  lemma NewEventIsPublished(s: State, step: Step, e: nat)
    requires Inv(s) && Enabled(s, step) && |s.out.outbox| <= e < |Do(s, step).out.outbox|
    ensures step.Send? && Adds(s.log, step.send) && e == |s.out.outbox| && step.send == L.Commit(step.send.k)
  {
    hide Inv, L.Do, O.Do;
    if step.Work? {
      WorkConserves(s, step.work);
    } else if Adds(s.log, step.send) {
      CommitGives(s, step.send, step.extras);
    }
  }

  /** attempt_count counts committed sends, and a send's own "webhook" row is never contacted. */
  lemma AttemptsCounted(tr: seq<State>, i: nat, k: nat)
    requires Run(tr) && i < |tr| && k < |tr[i].out.rows|
    ensures var row := tr[i].out.rows[k];
            && row.attempts == multiset(tr[i].out.attempts)[O.Attempt(row.messageId, row.integration)]
            && (row.integration == O.WEBHOOK ==> row.attempts == 0 && row.status == O.Queued)
  {
    RunKeepsInv(tr, i);
  }

  function TotalRemaining(outbox: seq<O.Event>): nat {
    if outbox == [] then 0 else outbox[0].Remaining() + TotalRemaining(outbox[1..])
  }

  lemma {:induction false} TotalAfterUpdate(outbox: seq<O.Event>, i: nat, e: O.Event)
    requires i < |outbox|
    ensures TotalRemaining(outbox[i := e]) == TotalRemaining(outbox) - outbox[i].Remaining() + e.Remaining()
  {
    var outbox' := outbox[i := e];
    if i == 0 {
      assert outbox'[1..] == outbox[1..];
    } else {
      assert outbox'[1..] == outbox[1..][i - 1 := e];
      TotalAfterUpdate(outbox[1..], i - 1, e);
    }
  }

  /** Each completed round, by commit or by booked error, uses up remaining attempts. */
  lemma RoundsUseUpAttempts(s: State, work: O.Step)
    requires Inv(s) && O.Enabled(s.out, work) && (work.Conclude? || work.Book?)
    ensures TotalRemaining(Do(s, Work(work)).out.outbox) < TotalRemaining(s.out.outbox)
  {
    var w, outbox' := s.out.worker, Do(s, Work(work)).out.outbox;
    var i := if work.Conclude? then w.cur.index else w.index;
    assert I.Current(s.out.outbox, i, w.todo);
    assert work.Conclude? ==>
        outbox'[i] == O.Concluded(O.Claimed(s.out.outbox[i], w.now), O.AllOk(work.results), work.now, work.jitter);
    I.RoundKeepsEvent(s.out.outbox[i], outbox'[i], 0);
    TotalAfterUpdate(s.out.outbox, i, outbox'[i]);
  }

  /** A round is never blocked by ambiguous delivery rows: route_event cannot raise on them. */
  lemma RoutingNeverRaises(s: State, results: seq<O.Result>)
    requires Inv(s) && s.out.worker.Busy?
    ensures O.UpdateAll(s.out.rows, s.out.worker.cur.event.messageId, results).Some?
  {
    I.UpdateAllKeeps(s.out.rows, s.out.attempts, s.out.worker.cur.event.messageId, results);
  }
}
