/**
 What the client of a conversation is shown, frame by frame, and what became of it: a REST send
 broadcasts before it commits, and if it then fails nothing recalls its event.
 */
module LiveShown {
  import opened LiveDelivery
  import opened Wrappers
  import L = MessageLog
  import O = Outbox
  import P = ReplayInvariant
  import R = Replay
  import S = System
  import V = ClientView

  // ---------------------------------------------------------------- what became of a message shown early

  /** Call k's message numbered q is committed, open after its broadcast, or was given up after it. */
  ghost predicate Fate(s: State, k: nat, q: nat, conv: string) {
    && k in s.sys.log.calls && s.sys.log.calls[k].conv == conv
    && (Stored(s, k, q) || (s.rest == Some(k) && q == s.live.size + 1) || (k in s.failed && s.failed[k] == q))
  }

  /** The row call k committed is in the table, numbered q. */
  predicate Stored(s: State, k: nat, q: nat) {
    && k in s.sys.log.calls && s.sys.log.calls[k].stage.Done? && s.sys.log.calls[k].stage.isNew
    && s.sys.log.calls[k].stage.msg in s.sys.log.messages && s.sys.log.calls[k].stage.msg.sequence == q
  }

  ghost predicate FrameOk(s: State, f: R.Frame, origin: Option<nat>, conv: string) {
    match origin
    case Some(k) => !f.Batch? && Fate(s, k, f.number, conv) && (f.Phantom? <==> k in s.failed)
    case None => !f.Phantom? && forall q :: q in V.NumbersOn(f) ==> 1 <= q <= s.live.size
  }

  ghost predicate ItemOk(s: State, item: Item, conv: string) {
    match item
    case Row(q) => 1 <= q <= s.live.size
    case Early(k, q) => Fate(s, k, q, conv)
  }

  predicate Recorded(shown: set<Item>, q: nat) {
    exists item :: item in shown && item.number == q
  }

  ghost predicate ShownOk(s: State, conv: string) {
    && |s.origins| == |s.live.channel|
    && (forall i :: 0 <= i < |s.origins| ==> FrameOk(s, s.live.channel[i], s.origins[i], conv))
    && (forall item :: item in s.shown ==> ItemOk(s, item, conv))
    && (forall k :: k in s.failed ==> k in s.sys.log.calls && s.sys.log.calls[k].stage.Aborted?)
    && (forall q :: q in s.live.received ==> Recorded(s.shown, q))
  }

  /** A call keeps its conversation, and one that has ended stays as it ended. */
  lemma LogKeepsCall(log: L.Log, step: L.SendStep, k: nat)
    requires L.Enabled(log, step) && k in log.calls
    ensures k in L.Do(log, step).calls && L.Do(log, step).calls[k].conv == log.calls[k].conv
    ensures log.calls[k].stage.Final() ==> L.Do(log, step).calls[k] == log.calls[k]
    ensures log.messages <= L.Do(log, step).messages
  {
  }

  lemma CallKept(sys: S.State, work: S.Step, k: nat)
    requires S.Enabled(sys, work) && k in sys.log.calls
    ensures var log := S.Do(sys, work).log;
            && k in log.calls && log.calls[k].conv == sys.log.calls[k].conv
            && (sys.log.calls[k].stage.Final() ==> log.calls[k] == sys.log.calls[k])
            && sys.log.messages <= log.messages
  {
    hide L.Do, L.Enabled, O.Do, O.Enabled, O.Publish;
    if work.Send? { LogKeepsCall(sys.log, work.send, k); }
  }

  lemma SysFinalStands(s: State, step: Step, k: nat, conv: string)
    requires Enabled(s, step, conv) && k in s.sys.log.calls && s.sys.log.calls[k].stage.Final()
    ensures var log := SysAfter(s, step, conv).log; k in log.calls && log.calls[k] == s.sys.log.calls[k]
    ensures s.sys.log.messages <= SysAfter(s, step, conv).log.messages
  {
    hide S.Enabled, S.Do;
    match step
    case Database(work) => CallKept(s.sys, work, k);
    case CommitFirst(j, x, _) => CallKept(s.sys, S.Send(L.Commit(j), x), k);
    case RestCommits(x) => CallKept(s.sys, S.Send(L.Commit(s.rest.value), x), k);
    case RestFails(work) => CallKept(s.sys, work, k);
    case _ =>
  }

  /** The call that has broadcast early is still open, so it has not failed before. */
  lemma RestIsOpen(s: State, conv: string)
    requires Inv(s, conv) && ShownOk(s, conv) && s.rest.Some?
    ensures s.rest.value in s.sys.log.calls && s.sys.log.calls[s.rest.value].stage.Open()
    ensures s.rest.value !in s.failed
  {
  }

  lemma CommitStores(log: L.Log, k: nat)
    requires L.Inv(log) && L.Enabled(log, L.Commit(k)) && log.calls[k].stage.isNew
    ensures var after, m := L.Do(log, L.Commit(k)), log.calls[k].stage.msg;
            && k in after.calls && after.calls[k].stage == L.Done(m, true) && after.calls[k].conv == log.calls[k].conv
            && m in after.messages && m.sequence == |L.ConvLog(log.messages, log.calls[k].conv)| + 1
  {
    L.PendingIsNew(log, k);
  }

  lemma RestIsStored(s: State, x: S.Extras, conv: string)
    requires Inv(s, conv) && Enabled(s, RestCommits(x), conv)
    ensures Stored(Do(s, RestCommits(x), conv), s.rest.value, s.live.size + 1)
    ensures Do(s, RestCommits(x), conv).sys.log.calls[s.rest.value].conv == conv
  {
    hide O.Do, O.Enabled, O.Publish, L.ConvLog, P.Inv, R.Do, R.Enabled, L.Inv, L.Do;
    CommitStores(s.sys.log, s.rest.value);
  }

  /** A message shown early keeps its fate, except that an open one may commit or fail. */
  lemma FateStands(s: State, step: Step, k: nat, q: nat, conv: string)
    requires Inv(s, conv) && ShownOk(s, conv) && Enabled(s, step, conv) && Fate(s, k, q, conv)
    ensures Fate(Do(s, step, conv), k, q, conv)
  {
    hide S.Inv, P.Inv, ShownOk, S.Do, S.Enabled, R.Do;
    ShareKeeps(s, step, conv);
    if Stored(s, k, q) {
      SysFinalStands(s, step, k, conv);
    } else if k in s.failed && s.failed[k] == q {
      FailedStands(s, step, k, conv);
    } else {
      OpenStands(s, step, conv);
    }
  }

  lemma FailedStands(s: State, step: Step, k: nat, conv: string)
    requires Inv(s, conv) && ShownOk(s, conv) && Enabled(s, step, conv) && k in s.failed
    ensures var t := Do(s, step, conv);
            && k in t.failed && t.failed[k] == s.failed[k] && t.rest != Some(k)
            && k in t.sys.log.calls && t.sys.log.calls[k] == s.sys.log.calls[k]
  {
    hide S.Inv, P.Inv, S.Do, S.Enabled, R.Do;
    SysFinalStands(s, step, k, conv);
    if s.rest.Some? { RestIsOpen(s, conv); }
  }

  lemma OpenStands(s: State, step: Step, conv: string)
    requires Inv(s, conv) && Enabled(s, step, conv) && s.rest.Some?
    ensures Fate(Do(s, step, conv), s.rest.value, s.live.size + 1, conv)
  {
    hide S.Inv, P.Inv, S.Do, S.Enabled, R.Do;
    ShareKeeps(s, step, conv);
    StepKeepsInv(s, step, conv);
    match step
    case CommitFirst(_, _, _) => GuardsHold(s, step, conv);
    case BroadcastFirst(_, _) => GuardsHold(s, step, conv);
    case RestCommits(x) => RestIsStored(s, x, conv);
    case RestFails(work) => CallKept(s.sys, work, s.rest.value);
    case _ =>
  }

  // ---------------------------------------------------------------- preservation of what was shown

  lemma FailedIsAborted(s: State, work: S.Step)
    requires s.rest.Some? && s.rest.value in s.sys.log.calls && s.sys.log.calls[s.rest.value].stage.Open()
    requires S.Enabled(s.sys, work) && Fails(s, work)
    ensures var log := S.Do(s.sys, work).log;
            s.rest.value in log.calls && log.calls[s.rest.value].stage.Aborted?
  {
    hide O.Do, O.Enabled, O.Publish;
  }

  lemma FailedKept(s: State, step: Step, conv: string)
    requires Inv(s, conv) && ShownOk(s, conv) && Enabled(s, step, conv)
    ensures var t := Do(s, step, conv);
            forall k :: k in t.failed ==> k in t.sys.log.calls && t.sys.log.calls[k].stage.Aborted?
  {
    hide S.Inv, P.Inv, S.Do, S.Enabled, R.Do, R.Enabled;
    var t := Do(s, step, conv);
    forall k | k in t.failed ensures k in t.sys.log.calls && t.sys.log.calls[k].stage.Aborted? {
      if k in s.failed { FailedStands(s, step, k, conv); } else {
        RestIsOpen(s, conv);
        FailedIsAborted(s, step.work);
      }
    }
  }

  /** A frame on its way keeps its meaning; only a failure makes phantoms. */
  lemma FrameStands(s: State, step: Step, f: R.Frame, origin: Option<nat>, conv: string)
    requires Inv(s, conv) && ShownOk(s, conv) && Enabled(s, step, conv) && !step.RestFails?
    requires FrameOk(s, f, origin, conv)
    ensures FrameOk(Do(s, step, conv), f, origin, conv)
  {
    hide S.Inv, P.Inv, S.Do, S.Enabled, R.Do, R.Enabled, Fate, ShownOk;
    ShareKeeps(s, step, conv);
    if origin.Some? { FateStands(s, step, origin.value, f.number, conv); }
  }

  lemma FateNumber(s: State, k: nat, q: nat, conv: string)
    requires Inv(s, conv) && Stored(s, k, q) && s.sys.log.calls[k].conv == conv
    ensures 1 <= q <= s.live.size
  {
    AnsweredNumber(s, k, conv);
  }

  /** A failure turns its own event into a phantom and no other frame. */
  lemma FrameAfterFailure(s: State, step: Step, i: nat, conv: string)
    requires Inv(s, conv) && ShownOk(s, conv) && Enabled(s, step, conv) && step.RestFails?
    requires i < |s.live.channel|
    ensures var n, f := s.live.size + 1, s.live.channel[i];
            FrameOk(Do(s, step, conv), if f == R.Event(n) then R.Phantom(n) else f, s.origins[i], conv)
  {
    hide S.Inv, S.Do, S.Enabled, R.Do, R.Enabled, Fate;
    var n, f, origin := s.live.size + 1, s.live.channel[i], s.origins[i];
    assert FrameOk(s, f, origin, conv);
    assert f == R.Event(n) ==> n in V.NumbersOn(f);
    ShareKeeps(s, step, conv);
    RestIsOpen(s, conv);
    if origin.Some? {
      FateStands(s, step, origin.value, f.number, conv);
      OnlyRestIsBeyond(s, origin.value, f, conv);
    }
  }

  /** An event numbered beyond the log is the open call's, and only that is. */
  lemma OnlyRestIsBeyond(s: State, k: nat, f: R.Frame, conv: string)
    requires Inv(s, conv) && ShownOk(s, conv) && s.rest.Some? && FrameOk(s, f, Some(k), conv)
    ensures s.rest == Some(k) <==> f == R.Event(s.live.size + 1)
  {
    hide S.Inv, P.Inv;
    RestIsOpen(s, conv);
    if Stored(s, k, f.number) { FateNumber(s, k, f.number, conv); }
  }

  lemma SocketMoves(s: State, r: R.Step)
    requires OfSocket(r) && R.Enabled(s.live, r) && |s.origins| == |s.live.channel|
    ensures var channel, origins := R.Do(s.live, r).channel, OriginsAfter(s, r);
            && |origins| == |channel| <= |s.origins| + 1
            && (if r.Receive? then
                  s.live.channel != [] && channel == s.live.channel[1..] && origins == s.origins[1..]
                else
                  origins == [] || (s.live.channel <= channel && s.origins <= origins))
  {
  }

  lemma OthersMove(live: R.State, r: R.Step)
    requires !OfSocket(r) && R.Enabled(live, r)
    ensures R.Do(live, r).channel == if r.RestRollback? then R.Revoked(live.channel, live.size + 1) else live.channel
  {
  }

  /** How the frames on their way move: revoked, taken from the front, dropped, or at most one more behind. */
  lemma ChannelMoves(s: State, step: Step, conv: string)
    requires Inv(s, conv) && Enabled(s, step, conv) && |s.origins| == |s.live.channel|
    ensures var t := Do(s, step, conv);
            && |t.origins| == |t.live.channel|
            && (if step.RestFails? then
                  t.live.channel == R.Revoked(s.live.channel, s.live.size + 1) && t.origins == s.origins
                else if step.Socket? && step.step.Receive? then
                  s.live.channel != [] && t.live.channel == s.live.channel[1..] && t.origins == s.origins[1..]
                else
                  t.origins == [] || (s.live.channel <= t.live.channel && s.origins <= t.origins))
            && |t.origins| <= |s.origins| + 1
  {
    hide Inv, S.Do, S.Enabled, R.Do, R.Enabled, OriginsAfter;
    if Share(s, step).Some? {
      GuardsHold(s, step, conv);
      if step.Socket? { SocketMoves(s, step.step); } else { OthersMove(s.live, Share(s, step).value); }
    }
  }

  lemma OriginsKept(s: State, step: Step, conv: string)
    requires Inv(s, conv) && ShownOk(s, conv) && Enabled(s, step, conv)
    ensures var t := Do(s, step, conv);
            && |t.origins| == |t.live.channel|
            && forall i :: 0 <= i < |t.origins| ==> FrameOk(t, t.live.channel[i], t.origins[i], conv)
  {
    hide Inv, Enabled, FrameOk, Do;
    var t := Do(s, step, conv);
    ChannelMoves(s, step, conv);
    forall i | 0 <= i < |t.origins| ensures FrameOk(t, t.live.channel[i], t.origins[i], conv) {
      if step.RestFails? {
        FrameAfterFailure(s, step, i, conv);
      } else if step.Socket? && step.step.Receive? {
        FrameStands(s, step, s.live.channel[i + 1], s.origins[i + 1], conv);
      } else if i < |s.origins| {
        assert t.live.channel[i] == s.live.channel[i] && t.origins[i] == s.origins[i];
        FrameStands(s, step, s.live.channel[i], s.origins[i], conv);
      } else {
        NewFrame(s, step, conv);
      }
    }
  }

  /** A frame put on its way is the replay, a row's event, or the open call's. */
  lemma NewFrame(s: State, step: Step, conv: string)
    requires Inv(s, conv) && ShownOk(s, conv) && Enabled(s, step, conv)
    requires |s.origins| < |Do(s, step, conv).origins|
    ensures var t, i := Do(s, step, conv), |s.origins|;
            i < |t.live.channel| && FrameOk(t, t.live.channel[i], t.origins[i], conv)
  {
    hide S.Inv, S.Do, S.Enabled;
    assert step.Socket?;
    if step.step.Deliver? {
      assert P.SenderOk(s.live, s.live.senders[step.step.id]);
      if s.rest.Some? { RestIsOpen(s, conv); }
    }
  }

  lemma ItemsKept(s: State, step: Step, conv: string)
    requires Inv(s, conv) && ShownOk(s, conv) && Enabled(s, step, conv)
    ensures var t := Do(s, step, conv); forall item :: item in t.shown ==> ItemOk(t, item, conv)
  {
    hide Inv, Enabled, S.Do, R.Do, Fate;
    ShareKeeps(s, step, conv);
    var t := Do(s, step, conv);
    forall item | item in t.shown ensures ItemOk(t, item, conv) {
      if item !in s.shown { NewItem(s, step, item, conv); }
      if item.Early? { FateStands(s, step, item.k, item.number, conv); }
    }
  }

  lemma NewItem(s: State, step: Step, item: Item, conv: string)
    requires ShownOk(s, conv) && Enabled(s, step, conv) && item in Do(s, step, conv).shown && item !in s.shown
    ensures ItemOk(s, item, conv)
  {
    hide S.Do, S.Enabled, Fate;
    assert FrameOk(s, s.live.channel[0], s.origins[0], conv);
  }

  lemma RecordedStays(a: set<Item>, b: set<Item>, q: nat)
    requires Recorded(a, q) && a <= b
    ensures Recorded(b, q)
  {
  }

  lemma ItemRecorded(f: R.Frame, origin: Option<nat>, q: nat)
    requires q in V.NumbersOn(f)
    ensures Recorded(ItemsOn(f, origin), q)
  {
    var item := match origin case Some(k) => Early(k, q) case None => Row(q);
    assert item in ItemsOn(f, origin);
  }

  lemma ReceivedKept(s: State, step: Step, conv: string)
    requires ShownOk(s, conv) && Enabled(s, step, conv)
    ensures var t := Do(s, step, conv); forall q :: q in t.live.received ==> Recorded(t.shown, q)
  {
    hide S.Do, S.Enabled, FrameOk, ItemOk, Recorded, ItemsOn;
    var t := Do(s, step, conv);
    forall q | q in t.live.received ensures Recorded(t.shown, q) {
      if q in s.live.received {
        RecordedStays(s.shown, t.shown, q);
      } else {
        var f, origin := s.live.channel[0], s.origins[0];
        ItemRecorded(f, origin, q);
        RecordedStays(ItemsOn(f, origin), t.shown, q);
      }
    }
  }

  lemma StepKeepsShown(s: State, step: Step, conv: string)
    requires Inv(s, conv) && ShownOk(s, conv) && Enabled(s, step, conv)
    ensures ShownOk(Do(s, step, conv), conv)
  {
    hide Inv, Enabled, Do, FrameOk, ItemOk, Recorded;
    OriginsKept(s, step, conv);
    ItemsKept(s, step, conv);
    FailedKept(s, step, conv);
    ReceivedKept(s, step, conv);
  }

  lemma {:induction false} RunKeepsShown(tr: seq<State>, i: nat, conv: string)
    requires Run(tr, conv) && i < |tr|
    ensures Inv(tr[i], conv) && ShownOk(tr[i], conv)
  {
    hide Inv, Enabled, Do, ShownOk;
    RunKeepsInv(tr, i, conv);
    if i == 0 {
      NothingShown(conv);
    } else {
      RunKeepsInv(tr, i - 1, conv);
      RunKeepsShown(tr, i - 1, conv);
      assert StepAt(tr, i, conv);
      var step :| Takes(tr[i - 1], step, tr[i], conv);
      StepKeepsShown(tr[i - 1], step, conv);
    }
  }

  lemma NothingShown(conv: string)
    ensures ShownOk(INITIAL, conv)
  {
  }

  // ---------------------------------------------------------------- theorems

  /** Call k has a committed row. */
  predicate HasRow(log: L.Log, k: nat) {
    exists m :: m in log.messages && L.Created(log, k, m)
  }

  /** Call k's message has no row exactly if its REST send is still open or failed; its number is q in each case. */
  ghost predicate RowIff(s: State, k: nat, q: nat) {
    && (HasRow(s.sys.log, k) <==> !(s.rest == Some(k) || k in s.failed))
    && (HasRow(s.sys.log, k) ==> Stored(s, k, q))
    && (s.rest == Some(k) ==> q == s.live.size + 1)
    && (k in s.failed ==> s.failed[k] == q)
  }

  /**
   Whatever a client is shown is a committed row, or the message of a call that broadcast before
   its commit. The latter has no row exactly if that REST send is still open, or failed after its
   broadcast; it was then shown although it never came to be, for nothing recalls it. What the
   protocol counts as received was shown.
   */
  lemma ShownToTheClient(tr: seq<State>, i: nat, conv: string)
    requires Run(tr, conv) && i < |tr|
    ensures var s := tr[i];
            && (forall item :: item in s.shown ==>
                 match item
                 case Row(q) => L.HasSequence(s.sys.log.messages, conv, q)
                 case Early(k, q) => RowIff(s, k, q))
            && (forall q :: q in s.live.received ==> Recorded(s.shown, q))
  {
    RunKeepsShown(tr, i, conv);
    var s := tr[i];
    forall item | item in s.shown
      ensures match item
              case Row(q) => L.HasSequence(s.sys.log.messages, conv, q)
              case Early(k, q) => RowIff(s, k, q)
    {
      assert ItemOk(s, item, conv);
      match item
      case Row(q) => RowOfNumber(s, q, conv);
      case Early(k, q) => FateDecides(s, k, q, conv);
    }
  }

  lemma RowOfNumber(s: State, q: nat, conv: string)
    requires Inv(s, conv) && 1 <= q <= s.live.size
    ensures L.HasSequence(s.sys.log.messages, conv, q)
  {
    L.TakenNumbers(s.sys.log.messages, conv, q);
  }

  lemma FateDecides(s: State, k: nat, q: nat, conv: string)
    requires Inv(s, conv) && ShownOk(s, conv) && Fate(s, k, q, conv)
    ensures RowIff(s, k, q)
  {
    hide S.Inv, P.Inv;
    if s.rest.Some? { RestIsOpen(s, conv); }
    if Stored(s, k, q) { assert L.Created(s.sys.log, k, s.sys.log.calls[k].stage.msg); }
  }

  /** Call k has failed, its event was not shown, and it is not on its way. */
  ghost predicate Recalled(s: State, k: nat) {
    k in s.failed && Some(k) !in s.origins && forall q :: Early(k, q) !in s.shown
  }

  lemma RecalledStays(s: State, step: Step, k: nat, conv: string)
    requires Inv(s, conv) && ShownOk(s, conv) && Enabled(s, step, conv) && Recalled(s, k)
    ensures Recalled(Do(s, step, conv), k)
  {
    hide Inv, S.Do, S.Enabled, R.Do;
    FailedStands(s, step, k, conv);
    if s.rest.Some? { RestIsOpen(s, conv); }
    var t := Do(s, step, conv);
    forall q ensures Early(k, q) !in t.shown {
      if t.shown != s.shown { assert s.origins[0] != Some(k); }
    }
  }

  /** The event of a failed send still arrives only if it was on its way, or had arrived, when it failed. */
  lemma {:induction false} FailedArrivesOnlyIfSent(tr: seq<State>, i: nat, j: nat, k: nat, conv: string)
    requires Run(tr, conv) && i <= j < |tr| && Recalled(tr[i], k)
    ensures Recalled(tr[j], k)
  {
    hide Inv, Enabled, Do, ShownOk, Recalled;
    if i < j {
      FailedArrivesOnlyIfSent(tr, i, j - 1, k, conv);
      RunKeepsShown(tr, j - 1, conv);
      assert StepAt(tr, j, conv);
      var step :| Takes(tr[j - 1], step, tr[j], conv);
      RecalledStays(tr[j - 1], step, k, conv);
    }
  }
}
