/**
 The position a client keeps across reconnects: it asks for what is numbered above the largest
 number it has seen, so a number it was passed over for is asked for only while it is the largest.
 */
module Positions {
  import H = History
  import opened Replay
  import opened ReplayInvariant

  /** The client has every message up to its position. */
  ghost predicate Contiguous(s: State) {
    forall q :: q in s.received <==> 1 <= q <= s.lastKnown
  }

  // ---------------------------------------------------------------- three ways to leave a gap

  /** An event is received while a smaller number is still on its way or owed. */
  ghost predicate Overtakes(s: State, step: Step)
    requires Enabled(s, step)
  {
    && step.Receive? && s.channel[0].Event?
    && exists q: nat :: 1 <= q < s.channel[0].number && q !in s.received && Owed(s, q)
  }

  /** An event is received after a smaller number was passed over: by the cap, by REST, or by a dead broadcast. */
  ghost predicate PassesOver(s: State, step: Step)
    requires Enabled(s, step)
  {
    && step.Receive? && s.channel[0].Event?
    && exists q: nat :: 1 <= q < s.channel[0].number && q !in s.received && Skipped(s, q)
  }

  /** A REST send takes back a message the client has, or the event of one taken back arrives. */
  predicate TakesBack(s: State, step: Step)
    requires Enabled(s, step)
  {
    (step.RestRollback? && s.size + 1 in s.received) || (step.Receive? && s.channel[0].Phantom?)
  }

  ghost predicate LeavesGap(s: State, step: Step)
    requires Enabled(s, step)
  {
    Overtakes(s, step) || PassesOver(s, step) || TakesBack(s, step)
  }

  // ---------------------------------------------------------------- one step

  /** Phantoms on their way are ahead of the client and of every frame that brings messages before them. */
  ghost predicate PhantomsAhead(s: State) {
    && (forall i :: 0 <= i < |s.channel| && s.channel[i].Phantom? ==> s.channel[i].number > s.lastKnown)
    && (forall i, j :: 0 <= i < j < |s.channel| && s.channel[j].Phantom? && !s.channel[i].Phantom?
          ==> Raised(0, s.channel[i]) < s.channel[j].number)
  }

  lemma ReceiveEvent(s: State)
    requires Inv(s) && Contiguous(s) && Enabled(s, Receive) && s.channel[0].Event?
    ensures Contiguous(Do(s, Receive)) <==> !LeavesGap(s, Receive)
  {
    var n, q := s.channel[0].number, s.lastKnown + 1;
    assert FrameOk(s, s.channel[0]);
    if n > q {
      assert q !in Do(s, Receive).received;
      assert s.phase.InRoom() && s.phase.last < q <= s.size;
      assert Accounted(s, q) || Skipped(s, q);
    }
  }

  lemma ReceiveOther(s: State)
    requires Inv(s) && Contiguous(s) && PhantomsAhead(s) && Enabled(s, Receive) && !s.channel[0].Event?
    ensures Contiguous(Do(s, Receive)) <==> !LeavesGap(s, Receive)
  {
    assert FrameOk(s, s.channel[0]);
    if s.channel[0].Phantom? {
      assert s.channel[0].number !in Do(s, Receive).received;
    }
  }

  lemma RollbackGap(s: State)
    requires Inv(s) && Contiguous(s) && Enabled(s, RestRollback)
    ensures Contiguous(Do(s, RestRollback)) <==> !LeavesGap(s, RestRollback)
  {
    var n := s.size + 1;
    if n in s.received { assert n !in Do(s, RestRollback).received; }
    assert forall q :: q in s.received ==> q <= n;
  }

  lemma ReceiveKeepsAhead(s: State)
    requires PhantomsAhead(s) && Enabled(s, Receive) && !s.channel[0].Phantom?
    ensures PhantomsAhead(Do(s, Receive))
  {
    assert forall i :: 0 <= i < |s.channel| - 1 ==> s.channel[1..][i] == s.channel[i + 1];
    assert Raised(s.lastKnown, s.channel[0]) == H.Max(s.lastKnown, Raised(0, s.channel[0]));
  }

  lemma RollbackKeepsAhead(s: State)
    requires Bounded(s) && PhantomsAhead(s) && Enabled(s, RestRollback) && s.lastKnown <= s.size
    ensures PhantomsAhead(Do(s, RestRollback))
  {
    assert forall i :: 0 <= i < |s.channel| ==> FrameOk(s, s.channel[i]);
  }

  lemma OthersKeepAhead(s: State, step: Step)
    requires PhantomsAhead(s) && Enabled(s, step) && !step.Receive? && !step.RestRollback?
    ensures PhantomsAhead(Do(s, step))
  {
  }

  /** A step leaves no gap below the client's position exactly if it is none of the three. */
  lemma StepLeavesGapIff(s: State, step: Step)
    requires Inv(s) && Contiguous(s) && PhantomsAhead(s) && Enabled(s, step)
    ensures Contiguous(Do(s, step)) <==> !LeavesGap(s, step)
    ensures Contiguous(Do(s, step)) ==> PhantomsAhead(Do(s, step))
  {
    if step.Receive? {
      if s.channel[0].Event? { ReceiveEvent(s); } else { ReceiveOther(s); }
      if !s.channel[0].Phantom? { ReceiveKeepsAhead(s); }
    } else if step.RestRollback? {
      RollbackGap(s);
      if s.size + 1 !in s.received { RollbackKeepsAhead(s); }
    } else {
      OthersKeepAhead(s, step);
    }
  }

  // ---------------------------------------------------------------- whole runs

  /** The client is contiguous before and after every step. */
  ghost predicate ContiguousThroughout(s: State, steps: seq<Step>)
    requires Legal(s, steps)
    decreases steps
  {
    Contiguous(s) && (steps == [] || ContiguousThroughout(Do(s, steps[0]), steps[1..]))
  }

  ghost predicate NoneLeavesGap(s: State, steps: seq<Step>)
    requires Legal(s, steps)
    decreases steps
  {
    steps == [] || (!LeavesGap(s, steps[0]) && NoneLeavesGap(Do(s, steps[0]), steps[1..]))
  }

  lemma {:induction false} GapsOnlyThere(s: State, steps: seq<Step>)
    requires Inv(s) && Contiguous(s) && PhantomsAhead(s) && Legal(s, steps)
    ensures ContiguousThroughout(s, steps) <==> NoneLeavesGap(s, steps)
    decreases steps
  {
    if steps != [] {
      var s' := Do(s, steps[0]);
      StepKeepsInv(s, steps[0]);
      StepLeavesGapIff(s, steps[0]);
      if Contiguous(s') { GapsOnlyThere(s', steps[1..]); } else { assert !ContiguousThroughout(s', steps[1..]); }
    }
  }

  /**
   Over any number of reconnects and with senders of every kind, the client has no gap at any
   time exactly if no event overtakes one still owed, none follows one the socket was passed
   over for, and no REST send takes back what it has broadcast to the client.
   */
  lemma NoGapAcrossReconnects(steps: seq<Step>)
    requires Legal(INITIAL, steps)
    ensures ContiguousThroughout(INITIAL, steps) <==> NoneLeavesGap(INITIAL, steps)
  {
    GapsOnlyThere(INITIAL, steps);
  }

  // ---------------------------------------------------------------- broadcasts in sequence order

  /**
   A discipline that is enough: register outside REST windows with at most 100 missed, lose no
   broadcast, roll none back, and send an event only when all numbers before it that the client
   lacks are on their way.
   */
  predicate Orderly(s: State, step: Step)
    requires Enabled(s, step)
  {
    match step
    case Register => !s.early && s.size <= s.phase.last + H.REPLAY_LIMIT
    case SenderDies(_) => false
    case RestRollback => false
    case Deliver(id) => Arrives(s, id) ==> InTurn(s, s.senders[id].number)
    case _ => true
  }

  /** The broadcast's next send goes to the client's socket. */
  predicate Arrives(s: State, id: nat)
    requires Enabled(s, Deliver(id))
  {
    s.phase.InRoom() && s.senders[id].conn == s.conn
  }

  predicate InTurn(s: State, n: nat) {
    forall q: nat :: s.lastKnown < q < n ==> InChannel(s, q)
  }

  /** No broadcast that may reach the client carries a smaller number. */
  predicate Next(s: State, n: nat) {
    forall id :: id in s.senders && (s.senders[id].Waiting? || s.senders[id].conn == s.conn)
      ==> s.senders[id].number >= n
  }

  predicate CarriedBefore(channel: seq<Frame>, i: nat, q: nat)
    requires i <= |channel|
  {
    exists j :: 0 <= j < i && channel[j].Carries(q)
  }

  /** Whatever lies between the client's position and an event on its way is on its way before it. */
  ghost predicate Stream(s: State) {
    && (forall i :: 0 <= i < |s.channel| ==> !s.channel[i].Phantom?)
    && (forall i: nat, q: nat :: i < |s.channel| && s.channel[i].Event? && s.lastKnown < q < s.channel[i].number
          ==> CarriedBefore(s.channel, i, q))
  }

  ghost predicate InOrder(s: State) {
    && Inv(s) && Contiguous(s) && Stream(s)
    && s.died == {} && !s.blind && (s.phase.InRoom() ==> WithinReplay(s))
  }

  lemma ReceiveInOrder(s: State)
    requires Inv(s) && Contiguous(s) && Stream(s) && Enabled(s, Receive)
    ensures Contiguous(Do(s, Receive)) && Stream(Do(s, Receive))
  {
    var s', f := Do(s, Receive), s.channel[0];
    assert FrameOk(s, f);
    assert f.Event? && s.lastKnown + 1 < f.number ==> CarriedBefore(s.channel, 0, s.lastKnown + 1);
    forall i: nat, q: nat | i < |s'.channel| && s'.channel[i].Event? && s'.lastKnown < q < s'.channel[i].number
      ensures CarriedBefore(s'.channel, i, q)
    {
      assert CarriedBefore(s.channel, i + 1, q);
      var j :| 0 <= j < i + 1 && s.channel[j].Carries(q);
      assert j > 0 && s'.channel[j - 1] == s.channel[j];
    }
  }

  /** An event sent in its turn finds everything smaller received or on its way before it. */
  lemma DeliverInOrder(s: State, id: nat)
    requires InOrder(s) && Enabled(s, Deliver(id)) && Orderly(s, Deliver(id))
    ensures Stream(Do(s, Deliver(id)))
  {
    var s' := Do(s, Deliver(id));
    var k := |s.channel|;
    forall i: nat, q: nat | i < |s'.channel| && s'.channel[i].Event? && s.lastKnown < q < s'.channel[i].number
      ensures CarriedBefore(s'.channel, i, q)
    {
      if i < k {
        assert CarriedBefore(s.channel, i, q);
        var j :| 0 <= j < i && s.channel[j].Carries(q);
        assert s'.channel[j].Carries(q);
      } else {
        assert InChannel(s, q);
        var j :| 0 <= j < k && s.channel[j].Carries(q);
        assert s'.channel[j].Carries(q);
      }
    }
  }

  /** And only then: sending an event keeps the stream in order exactly if it is its turn. */
  lemma InOrderIffInTurn(s: State, id: nat)
    requires InOrder(s) && Enabled(s, Deliver(id)) && Arrives(s, id)
    ensures Stream(Do(s, Deliver(id))) <==> InTurn(s, s.senders[id].number)
  {
    var s', k, n := Do(s, Deliver(id)), |s.channel|, s.senders[id].number;
    if InTurn(s, n) { DeliverInOrder(s, id); }
    if Stream(s') {
      forall q: nat | s.lastKnown < q < n ensures InChannel(s, q) {
        assert s'.channel[k] == Event(n);
        assert CarriedBefore(s'.channel, k, q);
        var j :| 0 <= j < k && s'.channel[j].Carries(q);
        assert s.channel[j].Carries(q);
      }
    }
  }

  /** It is an event's turn once the replay has been sent and no smaller number is still to be sent. */
  lemma NumberOrderIsInTurn(s: State, id: nat)
    requires InOrder(s) && Enabled(s, Deliver(id)) && s.phase.Live? && Next(s, s.senders[id].number)
    ensures InTurn(s, s.senders[id].number)
  {
    forall q: nat | s.lastKnown < q < s.senders[id].number ensures InChannel(s, q) {
      assert SenderOk(s, s.senders[id]);
      assert Accounted(s, q) && !Awaiting(s, q) && !Aimed(s, q);
    }
  }

  lemma SendReplayInOrder(s: State)
    requires Stream(s) && Enabled(s, SendReplay)
    ensures Stream(Do(s, SendReplay))
  {
    var s' := Do(s, SendReplay);
    forall i: nat, q: nat | i < |s'.channel| && s'.channel[i].Event? && s.lastKnown < q < s'.channel[i].number
      ensures CarriedBefore(s'.channel, i, q)
    {
      assert CarriedBefore(s.channel, i, q);
      var j :| 0 <= j < i && s.channel[j].Carries(q);
      assert s'.channel[j].Carries(q);
    }
  }

  lemma StepInOrder(s: State, step: Step)
    requires InOrder(s) && Enabled(s, step) && Orderly(s, step)
    ensures InOrder(Do(s, step))
  {
    StepKeepsInv(s, step);
    match step
    case Receive => ReceiveInOrder(s);
    case Deliver(id) => DeliverInOrder(s, id);
    case SendReplay => SendReplayInOrder(s);
    case _ =>
  }

  predicate AllOrderly(s: State, steps: seq<Step>)
    requires Legal(s, steps)
    decreases steps
  {
    steps == [] || (Orderly(s, steps[0]) && AllOrderly(Do(s, steps[0]), steps[1..]))
  }

  lemma {:induction false} OrderlyKeepsOrder(s: State, steps: seq<Step>)
    requires InOrder(s) && Legal(s, steps) && AllOrderly(s, steps)
    ensures ContiguousThroughout(s, steps) && InOrder(Exec(s, steps))
    decreases steps
  {
    if steps != [] {
      StepInOrder(s, steps[0]);
      OrderlyKeepsOrder(Do(s, steps[0]), steps[1..]);
    }
  }

  /** With broadcasts in sequence order the client has no gap at any time, over any number of reconnects. */
  lemma OrderlyLeavesNoGap(steps: seq<Step>)
    requires Legal(INITIAL, steps) && AllOrderly(INITIAL, steps)
    ensures ContiguousThroughout(INITIAL, steps)
  {
    OrderlyKeepsOrder(INITIAL, steps);
  }

  // ---------------------------------------------------------------- lost for good

  /** q is behind the client's position, was never received, and nothing under way carries it. */
  ghost predicate Lost(s: State, q: nat) {
    && q !in s.received && 1 <= q <= s.lastKnown && q <= s.size
    && (forall id :: id in s.senders ==> s.senders[id].number != q)
    && !InChannel(s, q) && (!s.phase.Closed? ==> q <= s.phase.last)
  }

  lemma LostAfterRollback(s: State, q: nat)
    requires Lost(s, q) && Enabled(s, RestRollback)
    ensures Lost(Do(s, RestRollback), q)
  {
    var s' := Do(s, RestRollback);
    forall i | 0 <= i < |s'.channel| ensures !s'.channel[i].Carries(q) {
      assert !s.channel[i].Carries(q);
    }
  }

  lemma LostAfterDeliver(s: State, id: nat, q: nat)
    requires Lost(s, q) && Enabled(s, Deliver(id))
    ensures Lost(Do(s, Deliver(id)), q)
  {
    ChannelAfterSend(s, Event(s.senders[id].number), q);
  }

  lemma LostAfterReplay(s: State, q: nat)
    requires Lost(s, q) && Enabled(s, SendReplay)
    ensures Lost(Do(s, SendReplay), q)
  {
    ChannelAfterSend(s, Batch(s.phase.last, s.phase.upTo), q);
  }

  lemma LostAfterReceive(s: State, q: nat)
    requires Lost(s, q) && Enabled(s, Receive)
    ensures Lost(Do(s, Receive), q)
  {
    ChannelAfterReceive(s, q);
  }

  lemma LostOtherwise(s: State, step: Step, q: nat)
    requires Lost(s, q) && Enabled(s, step) && (step.Repeat? ==> step.number != q)
    requires !step.Deliver? && !step.SendReplay? && !step.Receive? && !step.RestRollback?
    ensures Lost(Do(s, step), q)
  {
  }

  lemma LostStays(s: State, step: Step, q: nat)
    requires Lost(s, q) && Enabled(s, step) && (step.Repeat? ==> step.number != q)
    ensures Lost(Do(s, step), q)
  {
    hide Lost, Do, Enabled;
    match step
    case Deliver(id) => LostAfterDeliver(s, id, q);
    case SendReplay => LostAfterReplay(s, q);
    case Receive => LostAfterReceive(s, q);
    case RestRollback => LostAfterRollback(s, q);
    case _ => LostOtherwise(s, step, q);
  }

  /** Such a message stays lost however often the client reconnects, unless its sender repeats it. */
  lemma {:induction false} LostForever(s: State, steps: seq<Step>, q: nat)
    requires Lost(s, q) && Legal(s, steps)
    requires forall i :: 0 <= i < |steps| && steps[i].Repeat? ==> steps[i].number != q
    ensures Lost(Exec(s, steps), q)
    decreases steps
  {
    if steps != [] {
      LostStays(s, steps[0], q);
      forall i | 0 <= i < |steps[1..]| && steps[1..][i].Repeat? ensures steps[1..][i].number != q {
        assert steps[1..][i] == steps[i + 1];
      }
      LostForever(Do(s, steps[0]), steps[1..], q);
    }
  }

  const OVERTAKING := [Commit(1), Snapshot(1), Deliver(1), Receive, Drop]
  const REGISTERED := INITIAL.(size := 1, phase := Registered(0, 1), conn := 1, clear := true)

  /** A gap can become a loss: a broadcast overtakes the replay and the socket drops before the replay is sent. */
  lemma OvertakenReplayIsLost()
    ensures var steps := [Commit(0), Snapshot(0), Connect, Register] + OVERTAKING;
            Legal(INITIAL, steps) && Lost(Exec(INITIAL, steps), 1)
  {
    var s1 := Do(INITIAL, Commit(0));
    var s2 := Do(s1, Snapshot(0));
    assert s2 == INITIAL.(size := 1);
    var s3 := Do(s2, Connect);
    assert Do(s3, Register) == REGISTERED;
    Overtaking();
    var rest := Prepend(s3, Register, OVERTAKING);
    rest := Prepend(s2, Connect, rest);
    rest := Prepend(s1, Snapshot(0), rest);
    rest := Prepend(INITIAL, Commit(0), rest);
    assert rest == [Commit(0), Snapshot(0), Connect, Register] + OVERTAKING;
  }

  lemma Overtaking()
    ensures Legal(REGISTERED, OVERTAKING) && Lost(Exec(REGISTERED, OVERTAKING), 1)
  {
    var s1 := Do(REGISTERED, Commit(1));
    var s2 := Do(s1, Snapshot(1));
    assert s2.senders == map[1 := Targeted(2, 1)];
    var s3 := Do(s2, Deliver(1));
    assert s3.channel == [Event(2)] && s3.senders == map[];
    var s4 := Do(s3, Receive);
    var rest := Prepend(s4, Drop, []);
    rest := Prepend(s3, Receive, rest);
    rest := Prepend(s2, Deliver(1), rest);
    rest := Prepend(s1, Snapshot(1), rest);
    rest := Prepend(REGISTERED, Commit(1), rest);
    assert rest == OVERTAKING;
    assert Exec(REGISTERED, rest) == Do(s4, Drop);
  }

  const LISTENING := INITIAL.(phase := Live(0, 0, 0), conn := 1, clear := true)
  const MISLED := LISTENING.(channel := [Phantom(1)])
  const LEFT := INITIAL.(conn := 1, lastKnown := 1, clear := true)
  const LISTEN := [Connect, Register, Query, SendReplay, Receive]
  const WITHDRAW := [RestBroadcast(0), Deliver(0), RestRollback]

  const ASKED := INITIAL.(phase := Queried(0, 0, 0), conn := 1, clear := true)

  lemma GetsReplay(rest: seq<Step>)
    requires Legal(LISTENING, rest)
    ensures Legal(ASKED, [SendReplay, Receive] + rest)
    ensures Exec(ASKED, [SendReplay, Receive] + rest) == Exec(LISTENING, rest)
  {
    var s := Do(ASKED, SendReplay);
    assert s.channel == [Batch(0, 0)];
    assert Do(s, Receive) == LISTENING;
    var steps := Prepend(s, Receive, rest);
    steps := Prepend(ASKED, SendReplay, steps);
    assert steps == [SendReplay, Receive] + rest;
  }

  lemma StartsListening(rest: seq<Step>)
    requires Legal(LISTENING, rest)
    ensures Legal(INITIAL, LISTEN + rest) && Exec(INITIAL, LISTEN + rest) == Exec(LISTENING, rest)
  {
    GetsReplay(rest);
    hide Legal, Exec;
    var s1 := Do(INITIAL, Connect);
    var s2 := Do(s1, Register);
    assert Do(s2, Query) == ASKED;
    var steps := Prepend(s2, Query, [SendReplay, Receive] + rest);
    steps := Prepend(s1, Register, steps);
    steps := Prepend(INITIAL, Connect, steps);
    assert steps == LISTEN + rest;
  }

  const MISTAKEN := LISTENING.(early := true, channel := [Event(1)], offered := {1})

  lemma Announces(rest: seq<Step>)
    requires Legal(MISTAKEN, rest)
    ensures Legal(LISTENING, [RestBroadcast(0), Deliver(0)] + rest)
    ensures Exec(LISTENING, [RestBroadcast(0), Deliver(0)] + rest) == Exec(MISTAKEN, rest)
  {
    hide Legal, Exec;
    var s := Do(LISTENING, RestBroadcast(0));
    assert s.senders == map[0 := Targeted(1, 1)];
    assert Do(s, Deliver(0)) == MISTAKEN;
    var steps := Prepend(s, Deliver(0), rest);
    steps := Prepend(LISTENING, RestBroadcast(0), steps);
    assert steps == [RestBroadcast(0), Deliver(0)] + rest;
  }

  lemma Withdraws(rest: seq<Step>)
    requires Legal(MISLED, rest)
    ensures Legal(LISTENING, WITHDRAW + rest) && Exec(LISTENING, WITHDRAW + rest) == Exec(MISLED, rest)
  {
    hide Legal, Exec;
    assert Do(MISTAKEN, RestRollback) == MISLED;
    var steps := Prepend(MISTAKEN, RestRollback, rest);
    Announces(steps);
    assert [RestBroadcast(0), Deliver(0)] + steps == WITHDRAW + rest;
  }

  /**
   So can a rollback: a REST send broadcasts number 1 to a listening client and rolls back; the
   client drops, number 1 is committed by another send, and the client never asks for it.
   */
  lemma PhantomIsLost()
    ensures var steps := LISTEN + (WITHDRAW + [Receive, Drop, Commit(0), Snapshot(0)]);
            Legal(INITIAL, steps) && Lost(Exec(INITIAL, steps), 1)
  {
    var s1 := Do(MISLED, Receive);
    assert Do(s1, Drop) == LEFT;
    var s3 := Do(LEFT, Commit(0));
    assert Do(s3, Snapshot(0)).senders == map[];
    var rest := Prepend(s3, Snapshot(0), []);
    rest := Prepend(LEFT, Commit(0), rest);
    rest := Prepend(s1, Drop, rest);
    rest := Prepend(MISLED, Receive, rest);
    assert rest == [Receive, Drop, Commit(0), Snapshot(0)];
    Withdraws(rest);
    StartsListening(WITHDRAW + rest);
  }
}
