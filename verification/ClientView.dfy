/**
 What a client is shown, whether or not it stands: a REST send that rolls back does not recall
 the event it has broadcast. The protocol's `received`, `got` and `offered` speak of messages that
 have not been taken back; the memory kept here never forgets.
 */
module ClientView {
  import P = Positions
  import opened Replay
  import opened ReplayInvariant
  import opened ReplayTheorems

  /**
   `shown` holds the numbers of everything the client was ever shown, `here` those shown on this
   connection, `tried` what broadcasts snapshotted for this connection, and `withdrawn` the
   numbers of all REST sends that rolled back after their broadcast.
   */
  datatype Memory = Memory(shown: set<nat>, here: set<nat>, tried: set<nat>, withdrawn: set<nat>)

  const NOTHING := Memory({}, {}, {}, {})

  /** The numbers a client reads off a frame; a phantom looks like any other event. */
  function NumbersOn(f: Frame): set<nat> {
    if f.Phantom? then {f.number} else Numbers(f)
  }

  function Remembered(m: Memory, s: State, step: Step): Memory
    requires Enabled(s, step)
  {
    match step
    case Connect => m.(here := {}, tried := {})
    case Snapshot(id) => if s.phase.InRoom() then m.(tried := m.tried + {s.senders[id].number}) else m
    case RestBroadcast(_) => if s.phase.InRoom() then m.(tried := m.tried + {s.size + 1}) else m
    case RestRollback => m.(withdrawn := m.withdrawn + {s.size + 1})
    case Receive =>
      var numbers := NumbersOn(s.channel[0]);
      m.(shown := m.shown + numbers, here := m.here + numbers)
    case _ => m
  }

  /** The memory after a run. */
  function Memories(m: Memory, s: State, steps: seq<Step>): Memory
    requires Legal(s, steps)
    decreases steps
  {
    if steps == [] then m else Memories(Remembered(m, s, steps[0]), Do(s, steps[0]), steps[1..])
  }

  function After(steps: seq<Step>): Memory
    requires Legal(INITIAL, steps)
  {
    Memories(NOTHING, INITIAL, steps)
  }

  // ---------------------------------------------------------------- what the protocol keeps of it

  /** The protocol's sets are the memory's, but for what was withdrawn. */
  ghost predicate Kept(m: Memory, s: State) {
    && s.received <= m.shown && (forall q :: q in m.shown ==> q in s.received || q in m.withdrawn)
    && s.got <= m.here && (forall q :: q in m.here ==> q in s.got || q in m.withdrawn)
    && s.offered <= m.tried && (forall q :: q in m.tried ==> q in s.offered || q in m.withdrawn)
    && (forall i :: 0 <= i < |s.channel| && s.channel[i].Phantom? ==> s.channel[i].number in m.withdrawn)
    && (!s.phase.Closed? ==> TriedFirst(m, s))
  }

  /** Only what was snapshotted for the connection can be taken back from it. */
  ghost predicate TriedFirst(m: Memory, s: State) {
    && (forall q :: q in m.here ==> q in s.got || q in m.tried)
    && (forall i :: 0 <= i < |s.channel| && s.channel[i].Phantom? ==> s.channel[i].number in m.tried)
  }

  /** The position is the largest number shown. */
  ghost predicate Highest(m: Memory, s: State) {
    (forall q :: q in m.shown ==> q <= s.lastKnown) && (s.lastKnown == 0 || s.lastKnown in m.shown)
  }

  lemma ReceiveKeepsMemory(m: Memory, s: State)
    requires Inv(s) && Kept(m, s) && Highest(m, s) && Enabled(s, Receive)
    ensures Kept(Remembered(m, s, Receive), Do(s, Receive)) && Highest(Remembered(m, s, Receive), Do(s, Receive))
  {
    var f := s.channel[0];
    assert FrameOk(s, f);
    if f.Batch? && f.last < f.upTo { assert f.upTo in Numbers(f); }
  }

  /** What a rollback takes back was snapshotted for the connection if it was shown on it or is under way. */
  lemma RollbackKeepsMemory(m: Memory, s: State)
    requires Inv(s) && Kept(m, s) && Highest(m, s) && Enabled(s, RestRollback)
    ensures Kept(Remembered(m, s, RestRollback), Do(s, RestRollback))
    ensures Highest(Remembered(m, s, RestRollback), Do(s, RestRollback))
  {
    var n := s.size + 1;
    if !s.phase.Closed? {
      assert Agrees(s, n);
      if n in s.got { assert Bound(s, n); }
      forall i | 0 <= i < |s.channel| && s.channel[i] == Event(n) ensures n in m.tried {
        assert s.channel[i].Carries(n);
        assert InChannel(s, n);
      }
    }
  }

  lemma StepKeepsMemory(m: Memory, s: State, step: Step)
    requires Inv(s) && Kept(m, s) && Highest(m, s) && Enabled(s, step)
    ensures Kept(Remembered(m, s, step), Do(s, step)) && Highest(Remembered(m, s, step), Do(s, step))
  {
    hide Inv;
    match step
    case Receive => ReceiveKeepsMemory(m, s);
    case RestRollback => RollbackKeepsMemory(m, s);
    case Snapshot(_) => OfferKeepsMemory(m, s, step);
    case RestBroadcast(_) => OfferKeepsMemory(m, s, step);
    case _ => OthersKeepMemory(m, s, step);
  }

  lemma OfferKeepsMemory(m: Memory, s: State, step: Step)
    requires Kept(m, s) && Highest(m, s) && Enabled(s, step) && (step.Snapshot? || step.RestBroadcast?)
    ensures Kept(Remembered(m, s, step), Do(s, step)) && Highest(Remembered(m, s, step), Do(s, step))
  {
    assert Do(s, step).channel == s.channel;
  }

  /** The protocol's sets stand, and no phantom joins those on their way. */
  lemma MemoryStands(m: Memory, s: State, s': State)
    requires Kept(m, s) && Highest(m, s)
    requires s'.received == s.received && s'.got == s.got && s'.offered == s.offered && s'.lastKnown == s.lastKnown
    requires forall f :: f in s'.channel && f.Phantom? ==> f in s.channel
    requires !s'.phase.Closed? ==> !s.phase.Closed?
    ensures Kept(m, s') && Highest(m, s')
  {
    forall i | 0 <= i < |s'.channel| && s'.channel[i].Phantom? ensures s'.channel[i] in s.channel {
    }
  }

  lemma OthersKeepMemory(m: Memory, s: State, step: Step)
    requires Kept(m, s) && Highest(m, s) && Enabled(s, step)
    requires !step.Receive? && !step.RestRollback? && !step.Snapshot? && !step.RestBroadcast?
    ensures Kept(Remembered(m, s, step), Do(s, step)) && Highest(Remembered(m, s, step), Do(s, step))
  {
    if !step.Connect? {
      MemoryStands(m, s, Do(s, step));
      hide Kept, Highest;
    }
  }

  lemma {:induction false} RunKeepsMemory(m: Memory, s: State, steps: seq<Step>)
    requires Inv(s) && Kept(m, s) && Highest(m, s) && Legal(s, steps)
    ensures Inv(Exec(s, steps)) && Kept(Memories(m, s, steps), Exec(s, steps))
    ensures Highest(Memories(m, s, steps), Exec(s, steps))
    decreases steps
  {
    if steps != [] {
      StepKeepsInv(s, steps[0]);
      StepKeepsMemory(m, s, steps[0]);
      RunKeepsMemory(Remembered(m, s, steps[0]), Do(s, steps[0]), steps[1..]);
    }
  }

  // ---------------------------------------------------------------- theorems

  /**
   Whatever the client was ever shown is numbered like a committed message, like the REST send
   that has broadcast and not committed, or like one that rolled back; what was never withdrawn
   has been kept; and the client's position is the largest number it was shown.
   */
  lemma ShownAreBacked(steps: seq<Step>, q: nat)
    requires Legal(INITIAL, steps)
    ensures var m, s := After(steps), Exec(INITIAL, steps);
            && (q in m.shown ==> 1 <= q <= s.size || (s.early && q == s.size + 1) || q in m.withdrawn)
            && (q !in m.withdrawn ==> (q in m.shown <==> q in s.received))
            && (q in m.shown ==> q <= s.lastKnown) && (s.lastKnown == 0 || s.lastKnown in m.shown)
  {
    RunKeepsMemory(NOTHING, INITIAL, steps);
  }

  /**
   Once nothing is under way, a connection has shown nothing but what a broadcast snapshotted for
   it or its replay reached, and all of that, but for broadcasts that died or were withdrawn.
   */
  lemma ShownExactly(steps: seq<Step>, q: nat)
    requires Legal(INITIAL, steps) && Quiet(Exec(INITIAL, steps))
    ensures var m, s := After(steps), Exec(INITIAL, steps);
            var sent := q in m.tried || s.phase.last < q <= s.phase.upTo;
            && (q in m.here ==> sent)
            && (sent ==> q in m.here || q in s.died || q in m.withdrawn)
  {
    RunKeepsMemory(NOTHING, INITIAL, steps);
    assert Agrees(Exec(INITIAL, steps), q);
  }

  // ---------------------------------------------------------------- shown for nothing

  lemma {:induction false} MemoriesConcat(m: Memory, s: State, a: seq<Step>, b: seq<Step>)
    requires Legal(s, a) && Legal(Exec(s, a), b)
    ensures Legal(s, a + b) && Exec(s, a + b) == Exec(Exec(s, a), b)
    ensures Memories(m, s, a + b) == Memories(Memories(m, s, a), Exec(s, a), b)
    decreases a
  {
    if a == [] {
      assert a + b == b;
    } else {
      assert (a + b)[1..] == a[1..] + b;
      MemoriesConcat(Remembered(m, s, a[0]), Do(s, a[0]), a[1..], b);
    }
  }

  const RECALLED := [RestBroadcast(0), Deliver(0), Receive, RestRollback]

  lemma Recalls(m: Memory)
    ensures Legal(P.LISTENING, RECALLED)
    ensures var s := Exec(P.LISTENING, RECALLED);
            s.size == 0 && !s.early && s.received == {} && 1 in Memories(m, P.LISTENING, RECALLED).shown
  {
    var s1 := Do(P.LISTENING, RestBroadcast(0));
    assert s1.senders == map[0 := Targeted(1, 1)];
    var s2 := Do(s1, Deliver(0));
    assert s2.channel == [Event(1)];
    var s3 := Do(s2, Receive);
    var m3 := Remembered(Remembered(Remembered(m, P.LISTENING, RestBroadcast(0)), s1, Deliver(0)), s2, Receive);
    assert 1 in m3.shown;
    assert RECALLED[1..] == [Deliver(0), Receive, RestRollback];
    assert RECALLED[1..][1..] == [Receive, RestRollback];
    assert RECALLED[1..][1..][1..] == [RestRollback];
    assert Legal(s3, [RestRollback]) && Exec(s3, [RestRollback]) == Do(s3, RestRollback);
  }

  /** A client can be shown a message that never existed: no row has its number, and no send is open. */
  lemma WithdrawnIsShown()
    ensures var steps := P.LISTEN + RECALLED;
            && Legal(INITIAL, steps) && 1 in After(steps).shown
            && Exec(INITIAL, steps).size == 0 && !Exec(INITIAL, steps).early
  {
    assert P.LISTEN + [] == P.LISTEN;
    P.StartsListening([]);
    Recalls(Memories(NOTHING, INITIAL, P.LISTEN));
    MemoriesConcat(NOTHING, INITIAL, P.LISTEN, RECALLED);
  }
}
