/**
 Reconnect and replay: one client of one conversation against any number of senders, in one
 server process. A WebSocket or webhook send commits first, takes its snapshot of the room
 afterwards and then sends to the sockets of the snapshot one by one; a REST send does the same
 before its commit, and may still roll back. A client's socket registers, queries and sends the
 replay in that order, and may close at any time. Messages are identified by their sequence
 numbers, which a gapless log allows.
 */
module Replay {
  import H = History

  /** A broadcast under way: before its snapshot, or still to reach the client's socket `conn`. */
  datatype Sender = Waiting(number: nat) | Targeted(number: nat, conn: nat)

  /** A phantom is the event of a REST send that rolled back after its broadcast. */
  datatype Frame = Event(number: nat) | Batch(last: nat, upTo: nat) | Phantom(number: nat)
  {
    predicate Carries(q: nat) {
      match this
      case Event(number) => q == number
      case Batch(last, upTo) => last < q <= upTo
      case Phantom(_) => false
    }
  }

  /** The socket's life; `last` is the position its sync frame carried, `at` the log size when it registered. */
  datatype Phase =
    | Closed
    | Syncing(last: nat)
    | Registered(last: nat, at: nat)
    | Queried(last: nat, at: nat, upTo: nat)
    | Live(last: nat, at: nat, upTo: nat)
  {
    predicate InRoom() { Registered? || Queried? || Live? }
  }

  /**
   `size` is the committed log's length; `early` says that message size + 1 has been broadcast by
   a REST send that has not committed yet.
   `received` holds the messages the client has that have not been taken back: a rollback removes
   its message from it, and from `got` and `offered`, although nothing recalls it from the client.
   What the client was shown, taken back or not, is kept in ClientView.
   History: `died` lost its broadcast since registration, `offered` was snapshotted for this
   connection, `got` was received on it, `blind` says that it registered after the snapshot but
   before the commit of a REST send, `clear` says that no broadcast was under way at registration
   and none was repeated since.
   */
  datatype State = State(size: nat, early: bool, senders: map<nat, Sender>, phase: Phase, conn: nat,
                         channel: seq<Frame>, received: set<nat>, lastKnown: nat,
                         died: set<nat>, offered: set<nat>, got: set<nat>, blind: bool, clear: bool)

  const INITIAL := State(0, false, map[], Closed, 0, [], {}, 0, {}, {}, {}, false, false)

  datatype Step =
    | Commit(id: nat)              // commit of a new message, broadcast to follow
    | Repeat(id: nat, number: nat) // a known client id sent again over the socket is broadcast again
    | Snapshot(id: nat)
    | Deliver(id: nat)
    | SenderDies(id: nat)          // before its snapshot, or between two sends
    | Connect
    | Register
    | Query
    | SendReplay
    | Receive
    | Drop
    | RestBroadcast(id: nat)       // REST: snapshot before the commit
    | RestCommit
    | RestRollback                 // at any time before the commit

  predicate Enabled(s: State, step: Step) {
    match step
    case Commit(id) => id !in s.senders && !s.early
    case Repeat(id, number) => id !in s.senders && 1 <= number <= s.size
    case Snapshot(id) => id in s.senders && s.senders[id].Waiting?
    case Deliver(id) => id in s.senders && s.senders[id].Targeted?
    case SenderDies(id) => id in s.senders && s.senders[id].number <= s.size
    case Connect => s.phase.Closed?
    case Register => s.phase.Syncing?
    case Query => s.phase.Registered?
    case SendReplay => s.phase.Queried?
    case Receive => !s.phase.Closed? && s.channel != []
    case Drop => !s.phase.Closed?
    case RestBroadcast(id) => id !in s.senders && !s.early
    case RestCommit => s.early && forall id :: id in s.senders ==> s.senders[id].number <= s.size
    case RestRollback => s.early
  }

  /** The numbers of the messages a frame brings. */
  function Numbers(f: Frame): (r: set<nat>)
    ensures forall q :: q in r <==> f.Carries(q)
  {
    match f
    case Event(number) => {number}
    case Batch(last, upTo) => Range(last, upTo)
    case Phantom(_) => {}
  }

  function Range(last: nat, upTo: nat): (r: set<nat>)
    ensures forall q :: q in r <==> last < q <= upTo
  {
    if upTo <= last then {} else Range(last, upTo - 1) + {upTo}
  }

  /** The client's position after a frame: raised by every larger number in it. */
  function Raised(lastKnown: nat, f: Frame): nat {
    match f
    case Event(number) => H.Max(lastKnown, number)
    case Batch(last, upTo) => if last < upTo then H.Max(lastKnown, upTo) else lastKnown
    case Phantom(number) => H.Max(lastKnown, number)
  }

  function Snap(s: State, id: nat, number: nat): State {
    if s.phase.InRoom() then
      s.(senders := s.senders[id := Targeted(number, s.conn)], offered := s.offered + {number})
    else s.(senders := s.senders - {id})
  }

  /** The frames on their way when message n is taken back. */
  function Revoked(channel: seq<Frame>, n: nat): (r: seq<Frame>)
    ensures |r| == |channel|
    ensures forall i :: 0 <= i < |channel| ==> r[i] == if channel[i] == Event(n) then Phantom(n) else channel[i]
  {
    seq(|channel|, i requires 0 <= i < |channel| => if channel[i] == Event(n) then Phantom(n) else channel[i])
  }

  function Do(s: State, step: Step): State
    requires Enabled(s, step)
  {
    match step
    case Commit(id) => s.(size := s.size + 1, senders := s.senders[id := Waiting(s.size + 1)])
    case Repeat(id, number) => s.(senders := s.senders[id := Waiting(number)], clear := false)
    case Snapshot(id) => Snap(s, id, s.senders[id].number)
    case Deliver(id) =>
      var arrives := s.phase.InRoom() && s.senders[id].conn == s.conn;
      s.(senders := s.senders - {id},
         channel := if arrives then s.channel + [Event(s.senders[id].number)] else s.channel)
    case SenderDies(id) => s.(senders := s.senders - {id}, died := s.died + {s.senders[id].number})
    case Connect =>
      s.(phase := Syncing(s.lastKnown), conn := s.conn + 1, channel := [], got := {}, offered := {}, blind := false)
    case Register =>
      s.(phase := Registered(s.phase.last, s.size), died := {}, blind := s.early,
         clear := s.senders == map[] && !s.early)
    case Query =>
      s.(phase := Queried(s.phase.last, s.phase.at, H.Min(s.size, s.phase.last + H.REPLAY_LIMIT)))
    case SendReplay =>
      s.(phase := Live(s.phase.last, s.phase.at, s.phase.upTo),
         channel := s.channel + [Batch(s.phase.last, s.phase.upTo)])
    case Receive =>
      var f := s.channel[0];
      s.(channel := s.channel[1..], received := s.received + Numbers(f), got := s.got + Numbers(f),
         lastKnown := Raised(s.lastKnown, f))
    case Drop => s.(phase := Closed, channel := [], blind := false)
    case RestBroadcast(id) => Snap(s.(early := true), id, s.size + 1)
    case RestCommit => s.(early := false, size := s.size + 1)
    case RestRollback =>
      var n := s.size + 1;
      s.(early := false, blind := s.blind && s.phase.InRoom() && s.phase.at < s.size, channel := Revoked(s.channel, n),
         senders := map id | id in s.senders && s.senders[id].number != n :: s.senders[id],
         received := s.received - {n}, got := s.got - {n}, offered := s.offered - {n})
  }

  predicate Legal(s: State, steps: seq<Step>)
    decreases steps
  {
    steps == [] || (Enabled(s, steps[0]) && Legal(Do(s, steps[0]), steps[1..]))
  }

  function Exec(s: State, steps: seq<Step>): State
    requires Legal(s, steps)
    decreases steps
  {
    if steps == [] then s else Exec(Do(s, steps[0]), steps[1..])
  }

  // ---------------------------------------------------------------- who owes what

  predicate InChannel(s: State, q: nat) {
    exists i :: 0 <= i < |s.channel| && s.channel[i].Carries(q)
  }

  predicate Awaiting(s: State, q: nat) {
    exists id :: id in s.senders && s.senders[id] == Waiting(q)
  }

  predicate Aimed(s: State, q: nat) {
    exists id :: id in s.senders && s.senders[id] == Targeted(q, s.conn)
  }

  /** How far this connection's replay goes, or would go if the query ran now. */
  function Reach(s: State): nat
    requires s.phase.InRoom()
  {
    if s.phase.Registered? then H.Min(s.size, s.phase.last + H.REPLAY_LIMIT) else s.phase.upTo
  }

  /** The replay still to be queried or sent will carry q. */
  predicate Replaying(s: State, q: nat) {
    (s.phase.Registered? || s.phase.Queried?) && s.phase.last < q <= Reach(s)
  }

  /** On its way, or owed by a broadcast or by the replay. */
  predicate Owed(s: State, q: nat) {
    InChannel(s, q) || Awaiting(s, q) || Aimed(s, q) || Replaying(s, q)
  }

  predicate Accounted(s: State, q: nat) {
    q in s.received || Owed(s, q)
  }

  /** Committed before the socket registered, but beyond its replay's cap. */
  predicate BeyondCap(s: State, q: nat) {
    s.phase.InRoom() && s.phase.last + H.REPLAY_LIMIT < q <= s.phase.at
  }

  /** Broadcast by a REST send before the socket registered, and committed too late for its replay. */
  predicate Unseen(s: State, q: nat) {
    s.phase.InRoom() && s.blind && q == s.phase.at + 1 && q > Reach(s)
  }

  /** The three ways in which a connection can pass over a message for good. */
  predicate Skipped(s: State, q: nat) {
    BeyondCap(s, q) || Unseen(s, q) || q in s.died
  }

  /** No more than one replay's worth of messages was missed at registration. */
  predicate WithinReplay(s: State) {
    s.phase.InRoom() && s.phase.at <= s.phase.last + H.REPLAY_LIMIT
  }
}
