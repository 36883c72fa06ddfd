/** What a reconnecting client is guaranteed, and exactly when it is passed over. */
module ReplayTheorems {
  import H = History
  import L = MessageLog
  import opened Replay
  import opened ReplayInvariant

  /** On a gapless table the frame the service builds carries the numbers the protocol's frame stands for. */
  lemma FrameOfTheLog(messages: seq<L.Message>, conv: string, last: nat, q: nat)
    requires L.Gapless(messages)
    ensures H.Carries(H.Replay(messages, conv, last).messages, q)
        <==> Batch(last, H.Min(|L.ConvLog(messages, conv)|, last + H.REPLAY_LIMIT)).Carries(q)
  {
    H.ReplayIsExact(messages, conv, last);
  }

  // ---------------------------------------------------------------- lossless replay

  /**
   Lossless replay: in every interleaving of senders of every kind with a client that registers
   and then queries, while its socket is open, every committed message after its position is
   received, on its way, or still owed by a broadcast or by the replay, unless it was committed
   beyond the replay's cap before the socket registered, was broadcast by REST before and
   committed after that, or lost its broadcast.
   */
  lemma LosslessReplay(steps: seq<Step>, q: nat)
    requires Legal(INITIAL, steps)
    requires Exec(INITIAL, steps).phase.InRoom()
    requires Exec(INITIAL, steps).phase.last < q <= Exec(INITIAL, steps).size
    ensures Accounted(Exec(INITIAL, steps), q) || Skipped(Exec(INITIAL, steps), q)
  {
    ReachableInv(steps);
  }

  /** No socket registers between a REST send's broadcast and its commit. */
  predicate RegistersLate(s: State, steps: seq<Step>)
    requires Legal(s, steps)
    decreases steps
  {
    steps == [] || ((steps[0].Register? ==> !s.early) && RegistersLate(Do(s, steps[0]), steps[1..]))
  }

  lemma {:induction false} NeverBlind(s: State, steps: seq<Step>)
    requires Legal(s, steps) && RegistersLate(s, steps) && !s.blind
    ensures !Exec(s, steps).blind
    decreases steps
  {
    if steps != [] { NeverBlind(Do(s, steps[0]), steps[1..]); }
  }

  /** So REST sends are safe outside that window: with at most 100 missed and no broadcast lost, nothing is. */
  lemma LosslessOutsideWindow(steps: seq<Step>, q: nat)
    requires Legal(INITIAL, steps) && RegistersLate(INITIAL, steps)
    requires WithinReplay(Exec(INITIAL, steps)) && q !in Exec(INITIAL, steps).died
    requires Exec(INITIAL, steps).phase.last < q <= Exec(INITIAL, steps).size
    ensures Accounted(Exec(INITIAL, steps), q)
  {
    ReachableInv(steps);
    NeverBlind(INITIAL, steps);
  }

  /**
   Exactly what a connection gets: of the messages after its position those its replay reaches,
   those a broadcast snapshotted for it, and those whose broadcast is still to take its snapshot;
   nothing else, and only a broadcast that died can be missing.
   */
  lemma AccountedExactly(s: State, q: nat)
    requires Inv(s) && s.phase.InRoom() && s.phase.last < q
    ensures Accounted(s, q) ==> q <= Reach(s) || q in s.offered || Awaiting(s, q)
    ensures q <= Reach(s) || q in s.offered || Awaiting(s, q) ==> Accounted(s, q) || q in s.died
  {
    assert Agrees(s, q);
  }

  // ---------------------------------------------------------------- the window of a REST send

  /** The query runs before the REST send commits. */
  predicate QueriesFirst(steps: seq<Step>)
    decreases steps
  {
    steps != [] && (steps[0].Query? || (!steps[0].RestCommit? && QueriesFirst(steps[1..])))
  }

  /** The socket stays open, the REST send does not roll back, and nobody repeats message q. */
  predicate Undisturbed(step: Step, q: nat) {
    !step.Drop? && !step.RestRollback? && (step.Repeat? ==> step.number != q)
  }

  /** No broadcast has offered q to this connection, or is going to; a REST broadcast may go to others. */
  ghost predicate NotSent(s: State, q: nat) {
    && q !in s.offered && q !in s.died
    && forall id :: id in s.senders && s.senders[id].number == q ==> s.senders[id].Targeted? && q > s.size
  }

  /** In the room, and q is the number of a message committed or broadcast by REST, but never sent here. */
  ghost predicate InWindow(s: State, q: nat) {
    && Inv(s) && s.phase.InRoom() && NotSent(s, q) && s.phase.last < q <= Top(s)
  }

  /** Whether the replay reaches q in the end: the size of the log at the query decides. */
  predicate WillReach(s: State, steps: seq<Step>, q: nat)
    requires s.phase.InRoom()
  {
    if s.phase.Registered? then !(q > s.size && QueriesFirst(steps)) && q <= s.phase.last + H.REPLAY_LIMIT
    else q <= s.phase.upTo
  }

  lemma NotSentKept(s: State, step: Step, q: nat)
    requires Bounded(s) && s.phase.InRoom() && NotSent(s, q) && q <= Top(s)
    requires Enabled(s, step) && Undisturbed(step, q)
    ensures NotSent(Do(s, step), q)
  {
  }

  lemma WindowStep(s: State, steps: seq<Step>, q: nat)
    requires InWindow(s, q) && steps != [] && Enabled(s, steps[0]) && Undisturbed(steps[0], q)
    ensures InWindow(Do(s, steps[0]), q) && Do(s, steps[0]).phase.last == s.phase.last
    ensures WillReach(Do(s, steps[0]), steps[1..], q) <==> WillReach(s, steps, q)
  {
    hide NotSent, Covered, Exact, Clear;
    NotSentKept(s, steps[0], q);
    StepKeepsInv(s, steps[0]);
  }

  lemma {:induction false} WindowRun(s: State, steps: seq<Step>, q: nat)
    requires InWindow(s, q) && Legal(s, steps) && forall i :: 0 <= i < |steps| ==> Undisturbed(steps[i], q)
    ensures InWindow(Exec(s, steps), q)
    ensures !Exec(s, steps).phase.Registered? ==> (q <= Exec(s, steps).phase.upTo <==> WillReach(s, steps, q))
    decreases steps
  {
    if steps != [] {
      WindowStep(s, steps, q);
      WindowRun(Do(s, steps[0]), steps[1..], q);
    }
  }

  lemma EarlySendersTargeted(s: State)
    requires Bounded(s)
    ensures forall id :: id in s.senders && s.senders[id].number == s.size + 1 ==> s.senders[id].Targeted?
  {
    forall id | id in s.senders ensures SenderOk(s, s.senders[id]) {
    }
  }

  /**
   A socket that registers between a REST send's broadcast and its commit is passed over exactly
   if it also queries before the commit, or the message is beyond its replay's cap.
   */
  lemma RestSendLostIff(s: State, steps: seq<Step>)
    requires Inv(s) && s.early && Enabled(s, Register) && s.phase.last <= s.size
    requires Legal(Do(s, Register), steps) && forall i :: 0 <= i < |steps| ==> Undisturbed(steps[i], s.size + 1)
    requires var t := Exec(Do(s, Register), steps); t.size > s.size && !t.phase.Registered?
    ensures var t, q := Exec(Do(s, Register), steps), s.size + 1;
            && t.phase.InRoom()
            && (!Accounted(t, q) <==> QueriesFirst(steps) || q > s.phase.last + H.REPLAY_LIMIT)
  {
    var s', q := Do(s, Register), s.size + 1;
    StepKeepsInv(s, Register);
    assert InWindow(s', q) by { EarlySendersTargeted(s); }
    WindowRun(s', steps, q);
    AccountedExactly(Exec(s', steps), q);
  }

  const BETWEEN := INITIAL.(early := true, phase := Registered(0, 0), conn := 1, blind := true)

  lemma RegistersBetween(rest: seq<Step>)
    requires Legal(BETWEEN, rest)
    ensures var steps := [RestBroadcast(0), Connect, Register] + rest;
            Legal(INITIAL, steps) && Exec(INITIAL, steps) == Exec(BETWEEN, rest)
  {
    var s1 := Do(INITIAL, RestBroadcast(0));
    assert s1 == INITIAL.(early := true);
    var s2 := Do(s1, Connect);
    assert Do(s2, Register) == BETWEEN;
    var steps := Prepend(s2, Register, rest);
    steps := Prepend(s1, Connect, steps);
    steps := Prepend(INITIAL, RestBroadcast(0), steps);
    assert steps == [RestBroadcast(0), Connect, Register] + rest;
  }

  /**
   It happens with the socket open throughout: a client registers and queries between a REST
   send's broadcast and its commit, and never gets the message.
   */
  lemma RestSendIsLost()
    ensures var steps := [RestBroadcast(0), Connect, Register] + [Query, RestCommit, SendReplay, Receive];
            && Legal(INITIAL, steps)
            && var s := Exec(INITIAL, steps);
               Quiet(s) && WithinReplay(s) && s.phase.last < 1 <= s.size && !Accounted(s, 1)
  {
    var s1 := Do(BETWEEN, Query);
    assert s1.phase == Queried(0, 0, 0);
    var s2 := Do(s1, RestCommit);
    var s3 := Do(s2, SendReplay);
    var rest := Prepend(s3, Receive, []);
    rest := Prepend(s2, SendReplay, rest);
    rest := Prepend(s1, RestCommit, rest);
    rest := Prepend(BETWEEN, Query, rest);
    assert rest == [Query, RestCommit, SendReplay, Receive];
    RegistersBetween(rest);
    assert Exec(BETWEEN, rest) == Do(s3, Receive);
  }

  // ---------------------------------------------------------------- when nothing is under way

  /** Nothing is under way any more: no broadcast, no frame, and the replay has been sent. */
  predicate Quiet(s: State) {
    s.senders == map[] && s.channel == [] && s.phase.Live?
  }

  /** Everything committed after the client's position has reached it. */
  ghost predicate CaughtUp(s: State)
    requires s.phase.Live?
  {
    forall q :: s.phase.last < q <= s.size ==> q in s.received
  }

  /**
   Once nothing is under way, a connection has received exactly what was broadcast to it plus
   the first 100 numbers after its position, but for broadcasts that died. This speaks of messages
   that were not taken back; ClientView.ShownExactly speaks of all.
   */
  lemma ReceivedExactly(steps: seq<Step>, q: nat)
    requires Legal(INITIAL, steps) && Quiet(Exec(INITIAL, steps)) && q !in Exec(INITIAL, steps).died
    ensures var s := Exec(INITIAL, steps);
            q in s.got <==> q in s.offered || s.phase.last < q <= s.phase.upTo
  {
    ReachableInv(steps);
    assert Agrees(Exec(INITIAL, steps), q);
  }

  /**
   The cap decides: if no broadcast was under way at registration, none was repeated and none
   died, then once nothing is under way the client has caught up exactly if it had missed at
   most 100 messages.
   */
  lemma CaughtUpIffWithinReplay(steps: seq<Step>)
    requires Legal(INITIAL, steps) && Quiet(Exec(INITIAL, steps))
    requires Exec(INITIAL, steps).clear && Exec(INITIAL, steps).died == {}
    ensures CaughtUp(Exec(INITIAL, steps)) <==> WithinReplay(Exec(INITIAL, steps))
  {
    ReachableInv(steps);
    var s := Exec(INITIAL, steps);
    if WithinReplay(s) {
      forall q | s.phase.last < q <= s.size ensures q in s.received {
        assert Accounted(s, q) || Skipped(s, q);
      }
    } else {
      var q := s.phase.last + H.REPLAY_LIMIT + 1;
      ReceivedExactly(steps, q);
      assert q !in s.got;
    }
  }
}
