/** What every step of senders, socket and client keeps, in any order and with any send. */
module ReplayInvariant {
  import H = History
  import opened Replay

  /** The largest number that has been broadcast. */
  function Top(s: State): nat {
    if s.early then s.size + 1 else s.size
  }

  ghost predicate SenderOk(s: State, sender: Sender) {
    && 1 <= sender.number <= Top(s)
    && (sender.Waiting? ==> sender.number <= s.size)
    && (sender.Targeted? ==> sender.conn <= s.conn)
  }

  ghost predicate FrameOk(s: State, f: Frame) {
    match f
    case Event(number) => 1 <= number <= Top(s)
    case Batch(last, upTo) => last <= s.lastKnown && upTo <= s.size
    case Phantom(_) => true
  }

  ghost predicate PhaseOk(s: State) {
    && (s.phase.InRoom() ==> s.phase.at <= s.size)
    && (s.phase.Queried? || s.phase.Live? ==>
         var cap := s.phase.last + H.REPLAY_LIMIT;
         H.Min(s.phase.at, cap) <= s.phase.upTo <= H.Min(s.size, cap))
    && (!s.phase.Closed? ==>
         s.phase.last <= s.lastKnown && forall q :: q in s.received ==> q <= s.phase.last || q in s.got)
  }

  ghost predicate Bounded(s: State) {
    && (forall id :: id in s.senders ==> SenderOk(s, s.senders[id]))
    && (forall i :: 0 <= i < |s.channel| ==> FrameOk(s, s.channel[i]))
    && (forall q :: q in s.received ==> 1 <= q <= s.lastKnown && q <= Top(s))
    && s.got <= s.received
    && PhaseOk(s)
  }

  /** A socket in the room during an early broadcast's life was in its snapshot, or registered later. */
  ghost predicate EarlyOk(s: State) {
    && (s.blind ==> s.phase.InRoom() && s.phase.at < Top(s))
    && (s.early && s.phase.InRoom() && !(s.blind && s.phase.at == s.size) ==> s.size + 1 in s.offered)
  }

  ghost predicate Covered(s: State) {
    s.phase.InRoom() ==> forall q :: s.phase.last < q <= s.size ==> Accounted(s, q) || Skipped(s, q)
  }

  /** Everything on its way to the connection, or arrived on it. */
  predicate Bound(s: State, q: nat) {
    q in s.got || InChannel(s, q) || Aimed(s, q)
  }

  /** Offered to the connection by a broadcast, or sent to it in the replay. */
  predicate Sent(s: State, q: nat) {
    q in s.offered || (s.phase.Live? && s.phase.last < q <= s.phase.upTo)
  }

  /** Bound and sent agree on q, up to a dead broadcast. */
  ghost predicate Agrees(s: State, q: nat) {
    (Bound(s, q) ==> Sent(s, q)) && (Sent(s, q) ==> Bound(s, q) || q in s.died)
  }

  /** What arrived on this connection or is under way to it is what was sent to it, but for dead broadcasts. */
  ghost predicate Exact(s: State) {
    && (s.phase.Syncing? ==> s.channel == [] && s.got == {} && s.offered == {})
    && (!s.phase.Closed? ==> forall q: nat :: Agrees(s, q))
  }

  /** After a clear registration, exactly the later messages are or will be offered. */
  ghost predicate Clear(s: State) {
    s.phase.InRoom() && s.clear ==>
      && !s.blind
      && (forall id :: id in s.senders ==> s.senders[id].number > s.phase.at)
      && (forall q :: q in s.offered ==> q > s.phase.at)
  }

  ghost predicate Inv(s: State) {
    Bounded(s) && EarlyOk(s) && Covered(s) && Exact(s) && Clear(s)
  }

  /** The steps of one sender that commits first. */
  predicate OfSender(step: Step) {
    step.Commit? || step.Repeat? || step.Snapshot? || step.Deliver? || step.SenderDies?
  }

  // ---------------------------------------------------------------- channel and senders

  lemma ChannelAfterReceive(s: State, q: nat)
    requires s.channel != []
    ensures InChannel(s, q) <==> s.channel[0].Carries(q) || InChannel(s.(channel := s.channel[1..]), q)
  {
    if InChannel(s, q) {
      var i :| 0 <= i < |s.channel| && s.channel[i].Carries(q);
      if i > 0 { assert s.channel[1..][i - 1].Carries(q); }
    }
    if InChannel(s.(channel := s.channel[1..]), q) {
      var i :| 0 <= i < |s.channel[1..]| && s.channel[1..][i].Carries(q);
      assert s.channel[i + 1].Carries(q);
    }
  }

  lemma ChannelAfterSend(s: State, f: Frame, q: nat)
    ensures InChannel(s.(channel := s.channel + [f]), q) <==> f.Carries(q) || InChannel(s, q)
  {
    var s' := s.(channel := s.channel + [f]);
    if InChannel(s, q) {
      var i :| 0 <= i < |s.channel| && s.channel[i].Carries(q);
      assert s'.channel[i].Carries(q);
    }
    if f.Carries(q) { assert s'.channel[|s.channel|].Carries(q); }
    if InChannel(s', q) {
      var i :| 0 <= i < |s'.channel| && s'.channel[i].Carries(q);
      if i < |s.channel| { assert s.channel[i].Carries(q); }
    }
  }

  lemma ChannelAfterRollback(s: State, q: nat)
    requires Bounded(s)
    ensures var n := s.size + 1;
            InChannel(s.(channel := Revoked(s.channel, n)), q) <==> q != n && InChannel(s, q)
  {
    var n := s.size + 1;
    var s' := s.(channel := Revoked(s.channel, n));
    if InChannel(s, q) && q != n {
      var i :| 0 <= i < |s.channel| && s.channel[i].Carries(q);
      assert s'.channel[i].Carries(q);
    }
    if InChannel(s', q) {
      var i :| 0 <= i < |s'.channel| && s'.channel[i].Carries(q);
      assert FrameOk(s, s.channel[i]) && s.channel[i].Carries(q);
    }
  }

  /** Only sender id changes; others still await or aim as before. */
  lemma SendersKept(s: State, s': State, id: nat, q: nat)
    requires s'.conn == s.conn && forall j :: j != id ==> (j in s.senders <==> j in s'.senders)
    requires forall j :: j in s.senders && j != id ==> s'.senders[j] == s.senders[j]
    ensures Awaiting(s, q) ==> Awaiting(s', q) || (id in s.senders && s.senders[id] == Waiting(q))
    ensures Aimed(s, q) ==> Aimed(s', q) || (id in s.senders && s.senders[id] == Targeted(q, s.conn))
    ensures Aimed(s', q) ==> Aimed(s, q) || (id in s'.senders && s'.senders[id] == Targeted(q, s.conn))
  {
    if Awaiting(s, q) {
      var j :| j in s.senders && s.senders[j] == Waiting(q);
      assert j != id ==> s'.senders[j] == Waiting(q);
    }
    if Aimed(s, q) {
      var j :| j in s.senders && s.senders[j] == Targeted(q, s.conn);
      assert j != id ==> s'.senders[j] == Targeted(q, s.conn);
    }
    if Aimed(s', q) {
      var j :| j in s'.senders && s'.senders[j] == Targeted(q, s.conn);
      assert j != id ==> s.senders[j] == Targeted(q, s.conn);
    }
  }

  /** The senders stand. */
  lemma SameSenders(s: State, s': State, q: nat)
    requires s'.senders == s.senders && s'.conn == s.conn
    ensures (Aimed(s', q) <==> Aimed(s, q)) && (Awaiting(s', q) <==> Awaiting(s, q))
  {
    SendersKept(s, s', 0, q);
    SendersKept(s', s, 0, q);
  }

  /** A rollback stops its own broadcast and no other. */
  lemma RollbackKeepsSenders(s: State, q: nat)
    requires Bounded(s) && s.early
    ensures var s' := Do(s, RestRollback);
            && (Awaiting(s', q) <==> q != s.size + 1 && Awaiting(s, q))
            && (Aimed(s', q) <==> q != s.size + 1 && Aimed(s, q))
  {
    var s' := Do(s, RestRollback);
    if Awaiting(s, q) {
      var j :| j in s.senders && s.senders[j] == Waiting(q);
      assert SenderOk(s, s.senders[j]);
      assert s'.senders[j] == Waiting(q);
    }
    if Aimed(s, q) && q != s.size + 1 {
      var j :| j in s.senders && s.senders[j] == Targeted(q, s.conn);
      assert s'.senders[j] == Targeted(q, s.conn);
    }
  }

  // ---------------------------------------------------------------- coverage

  lemma SenderStepAccounts(s: State, step: Step, q: nat)
    requires Enabled(s, step) && OfSender(step) && s.phase.InRoom()
    requires Accounted(s, q) || (step.Commit? && q == s.size + 1)
    ensures Accounted(Do(s, step), q) || q in Do(s, step).died
  {
    var s' := Do(s, step);
    SendersKept(s, s', step.id, q);
    match step
    case Commit(id) => if q == s.size + 1 { assert s'.senders[id] == Waiting(q); }
    case Snapshot(id) => if s.senders[id] == Waiting(q) { assert s'.senders[id] == Targeted(q, s.conn); }
    case Deliver(id) => ChannelAfterSend(s, Event(s.senders[id].number), q);
    case _ =>
  }

  lemma SocketStepAccounts(s: State, step: Step, q: nat)
    requires Inv(s) && Enabled(s, step) && (step.Query? || step.SendReplay? || step.Receive?)
    requires s.phase.InRoom() && Accounted(s, q)
    ensures Accounted(Do(s, step), q)
  {
    var s' := Do(s, step);
    SameSenders(s, s', q);
    match step
    case SendReplay => ChannelAfterSend(s, Batch(s.phase.last, s.phase.upTo), q);
    case Receive => ChannelAfterReceive(s, q);
    case Query =>
  }

  lemma RestStepAccounts(s: State, step: Step, q: nat)
    requires Inv(s) && Enabled(s, step) && (step.RestBroadcast? || step.RestCommit? || step.RestRollback?)
    requires s.phase.InRoom() && q <= s.size && Accounted(s, q)
    ensures Accounted(Do(s, step), q)
  {
    var s' := Do(s, step);
    match step
    case RestBroadcast(id) => SendersKept(s, s', id, q);
    case RestCommit => SameSenders(s, s', q);
    case RestRollback =>
      ChannelAfterRollback(s, q);
      RollbackKeepsSenders(s, q);
  }

  /** The message a REST send commits was offered to the socket, or is in its replay's reach, or is skipped. */
  lemma RestCommitAccounts(s: State)
    requires Inv(s) && Enabled(s, RestCommit) && s.phase.InRoom() && s.phase.last <= s.size
    ensures var s', q := Do(s, RestCommit), s.size + 1; Accounted(s', q) || Skipped(s', q)
  {
    var s', q := Do(s, RestCommit), s.size + 1;
    SameSenders(s, s', q);
    if !(s.blind && s.phase.at == s.size) { assert Sent(s, q) && Agrees(s, q); }
  }

  lemma CoveredKept(s: State, step: Step)
    requires Inv(s) && Enabled(s, step)
    ensures Covered(Do(s, step))
  {
    var s' := Do(s, step);
    if s'.phase.InRoom() {
      forall q | s'.phase.last < q <= s'.size ensures Accounted(s', q) || Skipped(s', q) {
        match step
        case Register =>
        case Query => if Accounted(s, q) { SocketStepAccounts(s, step, q); }
        case SendReplay => if Accounted(s, q) { SocketStepAccounts(s, step, q); }
        case Receive => if Accounted(s, q) { SocketStepAccounts(s, step, q); }
        case Connect =>
        case Drop =>
        case RestCommit =>
          if q == s.size + 1 { RestCommitAccounts(s); } else if Accounted(s, q) { RestStepAccounts(s, step, q); }
        case RestBroadcast(_) => if Accounted(s, q) { RestStepAccounts(s, step, q); }
        case RestRollback => if Accounted(s, q) { RestStepAccounts(s, step, q); }
        case _ => if Accounted(s, q) || q == s.size + 1 { SenderStepAccounts(s, step, q); }
      }
    }
  }

  // ---------------------------------------------------------------- bounds and flags

  lemma BoundedBySender(s: State, step: Step)
    requires Bounded(s) && Enabled(s, step) && OfSender(step)
    ensures Bounded(Do(s, step))
  {
    SendersStayOk(s, step);
    hide SenderOk;
  }

  lemma SendersStayOk(s: State, step: Step)
    requires Bounded(s) && Enabled(s, step) && OfSender(step)
    ensures forall id :: id in Do(s, step).senders ==> SenderOk(Do(s, step), Do(s, step).senders[id])
  {
    hide FrameOk, PhaseOk;
  }

  lemma BoundedByReceive(s: State)
    requires Bounded(s) && Enabled(s, Receive)
    ensures Bounded(Do(s, Receive))
  {
    assert FrameOk(s, s.channel[0]);
  }

  lemma BoundedByRest(s: State, step: Step)
    requires Bounded(s) && Enabled(s, step) && (step.RestBroadcast? || step.RestCommit? || step.RestRollback?)
    ensures Bounded(Do(s, step))
  {
  }

  lemma BoundedKept(s: State, step: Step)
    requires Bounded(s) && Enabled(s, step)
    ensures Bounded(Do(s, step))
  {
    match step
    case Receive => BoundedByReceive(s);
    case Connect =>
    case Register =>
    case Query =>
    case SendReplay =>
    case Drop =>
    case RestBroadcast(_) => BoundedByRest(s, step);
    case RestCommit => BoundedByRest(s, step);
    case RestRollback => BoundedByRest(s, step);
    case _ => BoundedBySender(s, step);
  }

  lemma EarlyKept(s: State, step: Step)
    requires Inv(s) && Enabled(s, step)
    ensures EarlyOk(Do(s, step))
  {
  }

  lemma ClearKept(s: State, step: Step)
    requires Inv(s) && Enabled(s, step)
    ensures Clear(Do(s, step))
  {
  }

  // ---------------------------------------------------------------- what was sent arrives

  lemma SenderStepBinds(s: State, step: Step, q: nat)
    requires Inv(s) && Enabled(s, step) && !s.phase.Closed? && OfSender(step)
    ensures Agrees(Do(s, step), q)
  {
    var s' := Do(s, step);
    assert Agrees(s, q);
    SendersKept(s, s', step.id, q);
    match step
    case Snapshot(id) =>
      if s.phase.InRoom() && s.senders[id] == Waiting(q) { assert s'.senders[id] == Targeted(q, s.conn); }
    case Deliver(id) =>
      ChannelAfterSend(s, Event(s.senders[id].number), q);
      if s.senders[id] == Targeted(q, s.conn) { assert Aimed(s, q); }
    case _ =>
  }

  lemma SocketStepBinds(s: State, step: Step, q: nat)
    requires Inv(s) && Enabled(s, step) && !s.phase.Closed?
    requires step.Register? || step.Query? || step.SendReplay? || step.Receive?
    ensures Agrees(Do(s, step), q)
  {
    var s' := Do(s, step);
    assert Agrees(s, q);
    SameSenders(s, s', q);
    match step
    case SendReplay => ChannelAfterSend(s, Batch(s.phase.last, s.phase.upTo), q);
    case Receive => ChannelAfterReceive(s, q);
    case _ =>
  }

  lemma RestStepBinds(s: State, step: Step, q: nat)
    requires Inv(s) && Enabled(s, step) && !s.phase.Closed?
    requires step.RestBroadcast? || step.RestCommit? || step.RestRollback?
    ensures Agrees(Do(s, step), q)
  {
    var s' := Do(s, step);
    assert Agrees(s, q);
    match step
    case RestBroadcast(id) =>
      SendersKept(s, s', id, q);
      if s.phase.InRoom() && q == s.size + 1 { assert s'.senders[id] == Targeted(q, s.conn); }
    case RestCommit => SameSenders(s, s', q);
    case RestRollback =>
      ChannelAfterRollback(s, q);
      RollbackKeepsSenders(s, q);
  }

  lemma ExactKept(s: State, step: Step)
    requires Inv(s) && Enabled(s, step)
    ensures Exact(Do(s, step))
  {
    var s' := Do(s, step);
    if !s'.phase.Closed? {
      forall q: nat ensures Agrees(s', q) {
        match step
        case Connect => assert !Aimed(s', q) && !InChannel(s', q);
        case Register => SocketStepBinds(s, step, q);
        case Query => SocketStepBinds(s, step, q);
        case SendReplay => SocketStepBinds(s, step, q);
        case Receive => SocketStepBinds(s, step, q);
        case Drop =>
        case RestBroadcast(_) => RestStepBinds(s, step, q);
        case RestCommit => RestStepBinds(s, step, q);
        case RestRollback => RestStepBinds(s, step, q);
        case _ => SenderStepBinds(s, step, q);
      }
    }
  }

  // ---------------------------------------------------------------- runs

  lemma StepKeepsInv(s: State, step: Step)
    requires Inv(s) && Enabled(s, step)
    ensures Inv(Do(s, step))
  {
    BoundedKept(s, step);
    EarlyKept(s, step);
    CoveredKept(s, step);
    ExactKept(s, step);
    ClearKept(s, step);
  }

  lemma {:induction false} RunKeepsInv(s: State, steps: seq<Step>)
    requires Inv(s) && Legal(s, steps)
    ensures Inv(Exec(s, steps))
    decreases steps
  {
    if steps != [] {
      StepKeepsInv(s, steps[0]);
      RunKeepsInv(Do(s, steps[0]), steps[1..]);
    }
  }

  lemma ReachableInv(steps: seq<Step>)
    requires Legal(INITIAL, steps)
    ensures Inv(Exec(INITIAL, steps))
  {
    RunKeepsInv(INITIAL, steps);
  }

  /** One more step in front of a run. */
  lemma Prepend(s: State, step: Step, rest: seq<Step>) returns (steps: seq<Step>)
    requires Enabled(s, step) && Legal(Do(s, step), rest)
    ensures steps == [step] + rest && Legal(s, steps) && Exec(s, steps) == Exec(Do(s, step), rest)
  {
    steps := [step] + rest;
    assert steps[1..] == rest;
  }
}
