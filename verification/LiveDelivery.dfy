/**
 The write path and the live protocol of one conversation together. The log the protocol counts
 is the committed table; its guards are not assumptions but facts of the database: while a REST
 send has broadcast and not committed, no other send of the conversation can commit.
 */
module LiveDelivery {
  import opened Wrappers
  import H = History
  import L = MessageLog
  import P = ReplayInvariant
  import R = Replay
  import S = System
  import Theorems = ReplayTheorems
  import V = ClientView

  /** What a frame showed the client: a row, or the message of REST call k, broadcast before its commit. */
  datatype Item = Row(number: nat) | Early(k: nat, number: nat)

  /**
   `rest` is the REST call that has broadcast its message and not committed it. History: `origins`
   gives for each frame on its way the REST call that broadcast it early, `shown` is everything the
   client was ever shown, and `failed` the REST calls that failed after their broadcast, each with
   the number it gave its message.
   */
  datatype State = State(sys: S.State, live: R.State, rest: Option<nat>,
                         origins: seq<Option<nat>>, shown: set<Item>, failed: map<nat, nat>)

  const INITIAL := State(S.INITIAL, R.INITIAL, None, [], {}, map[])

  datatype Step =
    | Database(work: S.Step)                                  // any other step of the write path
    | CommitFirst(k: nat, extras: S.Extras, id: nat)          // WebSocket, webhook: broadcast to follow
    | BroadcastFirst(k: nat, id: nat)                         // REST, its transaction still open
    | RestCommits(extras: S.Extras)
    | RestFails(work: S.Step)                                 // its rollback or crash
    | BroadcastAgain(k: nat, id: nat)                         // WebSocket, a known client id
    | Socket(step: R.Step)

  /** Commits a new message of the conversation. */
  predicate Adds(sys: S.State, work: S.Step, conv: string)
    requires S.Enabled(sys, work)
  {
    work.Send? && S.Adds(sys.log, work.send) && sys.log.calls[work.send.k].conv == conv
  }

  /** Rolls back the broadcasting REST call, or kills its process. */
  predicate Fails(s: State, work: S.Step) {
    && s.rest.Some? && s.rest.value in s.sys.log.calls && work.Send?
    && match work.send
       case Abort(k) => k == s.rest.value
       case Crash(process) => process == s.sys.log.calls[s.rest.value].process
       case _ => false
  }

  predicate OfSocket(step: R.Step) {
    || step.Snapshot? || step.Deliver? || step.SenderDies?
    || step.Connect? || step.Register? || step.Query? || step.SendReplay? || step.Receive? || step.Drop?
  }

  /** What the calls, the database and the socket allow. */
  predicate Enabled(s: State, step: Step, conv: string) {
    match step
    case Database(work) => S.Enabled(s.sys, work) && !Adds(s.sys, work, conv) && !Fails(s, work)
    case CommitFirst(k, x, id) =>
      && S.Enabled(s.sys, S.Send(L.Commit(k), x)) && Adds(s.sys, S.Send(L.Commit(k), x), conv)
      && s.rest != Some(k) && id !in s.live.senders
    case BroadcastFirst(k, id) =>
      && S.Inserting(s.sys.log, k, conv) && s.sys.log.calls[k].stage.Returned?
      && s.rest != Some(k) && id !in s.live.senders
    case RestCommits(x) =>
      && s.rest.Some? && S.Enabled(s.sys, S.Send(L.Commit(s.rest.value), x))
      && forall id :: id in s.live.senders ==> s.live.senders[id].number <= s.live.size
    case RestFails(work) => S.Enabled(s.sys, work) && Fails(s, work)
    case BroadcastAgain(k, id) =>
      && k in s.sys.log.calls && s.sys.log.calls[k].stage.Done? && s.sys.log.calls[k].conv == conv
      && s.sys.log.calls[k].stage.msg.sequence >= 0 && id !in s.live.senders
    case Socket(step) => OfSocket(step) && R.Enabled(s.live, step)
  }

  /** The protocol's share of a step. */
  function Share(s: State, step: Step): Option<R.Step>
    requires step.BroadcastAgain? ==>
      && step.k in s.sys.log.calls && s.sys.log.calls[step.k].stage.Done?
      && s.sys.log.calls[step.k].stage.msg.sequence >= 0
  {
    match step
    case Database(_) => None
    case CommitFirst(_, _, id) => Some(R.Commit(id))
    case BroadcastFirst(_, id) => Some(R.RestBroadcast(id))
    case RestCommits(_) => Some(R.RestCommit)
    case RestFails(_) => Some(R.RestRollback)
    case BroadcastAgain(k, id) => Some(R.Repeat(id, s.sys.log.calls[k].stage.msg.sequence))
    case Socket(step) => Some(step)
  }

  function SysAfter(s: State, step: Step, conv: string): S.State
    requires Enabled(s, step, conv)
  {
    match step
    case Database(work) => S.Do(s.sys, work)
    case CommitFirst(k, x, _) => S.Do(s.sys, S.Send(L.Commit(k), x))
    case RestCommits(x) => S.Do(s.sys, S.Send(L.Commit(s.rest.value), x))
    case RestFails(work) => S.Do(s.sys, work)
    case _ => s.sys
  }

  /** An event numbered beyond the log is the open REST send's. */
  function OriginsAfter(s: State, step: R.Step): seq<Option<nat>>
    requires R.Enabled(s.live, step)
  {
    match step
    case Deliver(id) =>
      var sender := s.live.senders[id];
      if s.live.phase.InRoom() && sender.conn == s.live.conn then
        s.origins + [if sender.number > s.live.size then s.rest else None]
      else s.origins
    case SendReplay => s.origins + [None]
    case Receive => if s.origins == [] then [] else s.origins[1..]
    case Connect => []
    case Drop => []
    case _ => s.origins
  }

  function ItemsOn(f: R.Frame, origin: Option<nat>): set<Item> {
    match origin
    case Some(k) => set q | q in V.NumbersOn(f) :: Early(k, q)
    case None => set q | q in V.NumbersOn(f) :: Row(q)
  }

  function ShownAfter(s: State, step: R.Step): set<Item>
    requires R.Enabled(s.live, step)
  {
    if step.Receive? && s.origins != [] then s.shown + ItemsOn(s.live.channel[0], s.origins[0]) else s.shown
  }

  /** The protocol moves where its guard holds; GuardsHold says that it always does. */
  function Do(s: State, step: Step, conv: string): State
    requires Enabled(s, step, conv)
  {
    State(SysAfter(s, step, conv),
          match Share(s, step)
          case Some(share) => if R.Enabled(s.live, share) then R.Do(s.live, share) else s.live
          case None => s.live,
          match step
          case BroadcastFirst(k, _) => Some(k)
          case RestCommits(_) => None
          case RestFails(_) => None
          case _ => s.rest,
          if step.Socket? then OriginsAfter(s, step.step) else s.origins,
          if step.Socket? then ShownAfter(s, step.step) else s.shown,
          if step.RestFails? then s.failed[s.rest.value := s.live.size + 1] else s.failed)
  }

  ghost predicate Takes(s: State, step: Step, t: State, conv: string) {
    Enabled(s, step, conv) && t == Do(s, step, conv)
  }

  ghost predicate Next(s: State, t: State, conv: string) {
    exists step :: Takes(s, step, t, conv)
  }

  ghost predicate StepAt(tr: seq<State>, i: nat, conv: string)
    requires 0 < i < |tr|
  {
    Next(tr[i - 1], tr[i], conv)
  }

  ghost predicate Run(tr: seq<State>, conv: string) {
    |tr| > 0 && tr[0] == INITIAL && forall i :: 0 < i < |tr| ==> StepAt(tr, i, conv)
  }

  /** The protocol counts the committed table, and `early` is an open insert that has been broadcast. */
  ghost predicate Inv(s: State, conv: string) {
    && S.Inv(s.sys) && P.Inv(s.live)
    && s.live.size == |L.ConvLog(s.sys.log.messages, conv)|
    && (s.live.early <==> s.rest.Some?)
    && (s.rest.Some? ==> S.Inserting(s.sys.log, s.rest.value, conv))
  }

  // ---------------------------------------------------------------- the guards are facts

  /** An insert of the conversation that is open next to the broadcasting one is the broadcasting one. */
  lemma OnlyInsert(s: State, k: nat, conv: string)
    requires Inv(s, conv) && S.Inserting(s.sys.log, k, conv) && s.live.early
    ensures s.rest == Some(k)
  {
    assert L.OneOpenInsert(s.sys.log);
  }

  lemma AnsweredNumber(s: State, k: nat, conv: string)
    requires Inv(s, conv) && k in s.sys.log.calls && s.sys.log.calls[k].stage.Done? && s.sys.log.calls[k].conv == conv
    ensures 1 <= s.sys.log.calls[k].stage.msg.sequence <= s.live.size
  {
    var m := s.sys.log.calls[k].stage.msg;
    assert L.CallOk(s.sys.log.messages, s.sys.log.calls[k]);
    assert L.HasSequence(s.sys.log.messages, conv, m.sequence);
    L.TakenNumbers(s.sys.log.messages, conv, m.sequence);
  }

  /** Whatever the calls, the database and the socket allow, the protocol's own guard holds. */
  lemma GuardsHold(s: State, step: Step, conv: string)
    requires Inv(s, conv) && Enabled(s, step, conv) && Share(s, step).Some?
    ensures R.Enabled(s.live, Share(s, step).value)
  {
    hide S.Inv, P.Inv;
    match step
    case CommitFirst(k, _, _) => if s.live.early { OnlyInsert(s, k, conv); }
    case BroadcastFirst(k, _) => if s.live.early { OnlyInsert(s, k, conv); }
    case BroadcastAgain(k, _) => AnsweredNumber(s, k, conv);
    case _ =>
  }

  // ---------------------------------------------------------------- preservation

  /** Other steps of the write path leave the conversation's committed log alone. */
  lemma OthersKeepLog(sys: S.State, work: S.Step, conv: string)
    requires S.Inv(sys) && S.Enabled(sys, work)
    ensures L.ConvLog(S.Do(sys, work).log.messages, conv) ==
            if Adds(sys, work, conv) then L.ConvLog(sys.log.messages, conv) + [sys.log.calls[work.send.k].stage.msg]
            else L.ConvLog(sys.log.messages, conv)
  {
    if work.Send? && S.Adds(sys.log, work.send) {
      L.PendingIsNew(sys.log, work.send.k);
      L.ConvLogAppend(sys.log.messages, sys.log.calls[work.send.k].stage.msg, conv);
    }
  }

  predicate StaysOpen(s: State, work: S.Step) {
    s.rest.Some? && !Fails(s, work) && !(work.Send? && work.send == L.Commit(s.rest.value))
  }

  /** The broadcasting call's insert stays open until it commits or fails. */
  lemma InsertStaysOpen(s: State, work: S.Step, conv: string)
    requires S.Enabled(s.sys, work) && StaysOpen(s, work) && S.Inserting(s.sys.log, s.rest.value, conv)
    ensures S.Inserting(S.Do(s.sys, work).log, s.rest.value, conv)
  {
  }

  /** The protocol's share keeps its own invariant and moves its size and `early` with the database. */
  lemma ShareKeeps(s: State, step: Step, conv: string)
    requires Inv(s, conv) && Enabled(s, step, conv)
    ensures var live' := Do(s, step, conv).live;
            && P.Inv(live')
            && live'.size == s.live.size + (if step.CommitFirst? || step.RestCommits? then 1 else 0)
            && (live'.early <==> Do(s, step, conv).rest.Some?)
  {
    hide S.Inv, P.Inv;
    if Share(s, step).Some? {
      GuardsHold(s, step, conv);
      P.StepKeepsInv(s.live, Share(s, step).value);
    }
  }

  lemma StepKeepsInv(s: State, step: Step, conv: string)
    requires Inv(s, conv) && Enabled(s, step, conv)
    ensures Inv(Do(s, step, conv), conv)
  {
    hide S.Inv, P.Inv, R.Do, R.Enabled;
    ShareKeeps(s, step, conv);
    match step
    case Database(work) => WriteKeeps(s, work, conv);
    case CommitFirst(k, x, _) => WriteKeeps(s, S.Send(L.Commit(k), x), conv);
    case RestCommits(x) => WriteKeeps(s, S.Send(L.Commit(s.rest.value), x), conv);
    case RestFails(work) => WriteKeeps(s, work, conv);
    case _ =>
  }

  lemma WriteKeeps(s: State, work: S.Step, conv: string)
    requires Inv(s, conv) && S.Enabled(s.sys, work)
    ensures var sys' := S.Do(s.sys, work);
            && S.Inv(sys')
            && |L.ConvLog(sys'.log.messages, conv)| == s.live.size + (if Adds(s.sys, work, conv) then 1 else 0)
            && (StaysOpen(s, work) ==> S.Inserting(sys'.log, s.rest.value, conv))
  {
    S.StepKeepsInv(s.sys, work);
    OthersKeepLog(s.sys, work, conv);
    if StaysOpen(s, work) { InsertStaysOpen(s, work, conv); }
  }

  lemma {:induction false} RunKeepsInv(tr: seq<State>, i: nat, conv: string)
    requires Run(tr, conv) && i < |tr|
    ensures Inv(tr[i], conv)
  {
    hide Enabled, Do;
    if i == 0 {
      assert Inv(INITIAL, conv);
    } else {
      RunKeepsInv(tr, i - 1, conv);
      assert StepAt(tr, i, conv);
      var step :| Takes(tr[i - 1], step, tr[i], conv);
      StepKeepsInv(tr[i - 1], step, conv);
    }
  }

  // ---------------------------------------------------------------- end to end

  lemma GaplessTable(sys: S.State)
    requires S.Inv(sys)
    ensures L.Gapless(sys.log.messages)
  {
  }

  /**
   From the committed row to the client: in every interleaving of any number of sends, the
   worker, administrators and the socket, every committed row of the conversation after the
   client's position is received, on its way or owed, unless the socket was passed over for it.
   What it has received and no send has taken back is a committed row or the open REST send's
   message; what it was shown in all, taken back or not, is in LiveShown.
   */
  lemma RowsReachTheClient(tr: seq<State>, i: nat, conv: string)
    requires Run(tr, conv) && i < |tr|
    ensures var s := tr[i].live;
            && (s.phase.InRoom() ==>
                 forall m :: m in tr[i].sys.log.messages && m.conv == conv && m.sequence > s.phase.last ==>
                   R.Accounted(s, m.sequence) || R.Skipped(s, m.sequence))
            && (forall q :: q in s.received ==>
                 L.HasSequence(tr[i].sys.log.messages, conv, q) || (tr[i].rest.Some? && q == s.size + 1))
  {
    RunKeepsInv(tr, i, conv);
    var s, messages := tr[i].live, tr[i].sys.log.messages;
    if s.phase.InRoom() {
      forall m | m in messages && m.conv == conv && m.sequence > s.phase.last
        ensures R.Accounted(s, m.sequence) || R.Skipped(s, m.sequence)
      {
        assert L.HasSequence(messages, conv, m.sequence);
        L.TakenNumbers(messages, conv, m.sequence);
      }
    }
    forall q | q in s.received ensures L.HasSequence(messages, conv, q) || (tr[i].rest.Some? && q == s.size + 1) {
      L.TakenNumbers(messages, conv, q);
    }
  }

  /** The frame get_history builds at the query carries the numbers the protocol's replay will. */
  lemma QueryReadsTheTable(tr: seq<State>, i: nat, conv: string, q: nat)
    requires Run(tr, conv) && i < |tr| && tr[i].live.phase.Registered?
    ensures H.Carries(H.Replay(tr[i].sys.log.messages, conv, tr[i].live.phase.last).messages, q)
        <==> R.Replaying(R.Do(tr[i].live, R.Query), q)
  {
    hide S.Inv, P.Inv, L.ConvLog, H.Replay;
    RunKeepsInv(tr, i, conv);
    GaplessTable(tr[i].sys);
    Theorems.FrameOfTheLog(tr[i].sys.log.messages, conv, tr[i].live.phase.last, q);
  }
}
