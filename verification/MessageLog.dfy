/**
 The message table and the steps of MessageService.send_message, as a transaction-level
 state machine. Any number of calls, in any number of server processes, interleave at every
 await. A SELECT sees committed rows only; an INSERT waits while another open transaction
 holds one of its unique keys and fails when a committed row has it; a rollback or a crash
 may come at any point before the commit.
 */
module MessageLog {
  import opened Wrappers

  const MAX_MESSAGE_LENGTH := 4000

  datatype Message = Message(id: string, conv: string, clientId: string, sender: string,
                             sequence: int, body: string, deleted: bool)

  /** The asyncio lock of one conversation, which each server process has its own copy of. */
  datatype Lock = Lock(process: nat, conv: string)

  /** Where a call of send_message stands. */
  datatype Stage =
    | Ready                            // before `async with`
    | Locked                           // holds the lock
    | NotFound                         // the idempotency lookup found no row
    | Allocated(next: int)             // has read max(sequence) and added one
    | Conflict                         // IntegrityError: rolled back, still holds the lock
    | Leaving(msg: Message, isNew: bool)   // result decided, lock not yet released
    | Returned(msg: Message, isNew: bool)  // lock released, transaction still open
    | Done(msg: Message, isNew: bool)      // committed by the caller
    | Raised                           // IntegrityError re-raised
    | TooLarge                         // MessageTooLargeException
    | Aborted                          // rolled back or crashed
  {
    /** Between taking the lock and releasing it. */
    predicate InLock() {
      Locked? || NotFound? || Allocated? || Conflict? || Leaving?
    }

    /** The transaction holds an inserted, uncommitted message. */
    predicate Open() {
      (Leaving? || Returned?) && isNew
    }

    predicate Final() {
      Done? || Raised? || TooLarge? || Aborted?
    }
  }

  datatype Call = Call(conv: string, clientId: string, sender: string, body: string,
                       process: nat, stage: Stage)
  {
    function LockKey(): Lock { Lock(process, conv) }
  }

  /** `messages` holds the committed rows in commit order. */
  datatype Log = Log(messages: seq<Message>, calls: map<nat, Call>, locks: map<Lock, nat>)

  const EMPTY := Log([], map[], map[])

  // ---------------------------------------------------------------- queries

  /** The committed rows of one conversation, in commit order. */
  function ConvLog(messages: seq<Message>, conv: string): (r: seq<Message>)
    ensures |r| <= |messages|
  {
    if messages == [] then [] else
    var rest := ConvLog(messages[..|messages| - 1], conv);
    var last := messages[|messages| - 1];
    if last.conv == conv then rest + [last] else rest
  }

  /** select coalesce(max(sequence_number), 0) where conversation_id = conv. */
  function MaxSequence(messages: seq<Message>, conv: string): int {
    if messages == [] then 0 else
    var rest := MaxSequence(messages[..|messages| - 1], conv);
    var last := messages[|messages| - 1];
    if last.conv == conv && last.sequence > rest then last.sequence else rest
  }

  predicate HasClientId(messages: seq<Message>, conv: string, clientId: string) {
    exists i :: 0 <= i < |messages| && messages[i].conv == conv && messages[i].clientId == clientId
  }

  predicate HasSequence(messages: seq<Message>, conv: string, sequence: int) {
    exists i :: 0 <= i < |messages| && messages[i].conv == conv && messages[i].sequence == sequence
  }

  predicate HasId(messages: seq<Message>, id: string) {
    exists i :: 0 <= i < |messages| && messages[i].id == id
  }

  /** The idempotency lookup: the row with this conversation and client id. */
  function FindByClientId(messages: seq<Message>, conv: string, clientId: string): (r: Option<Message>)
    ensures r.Some? <==> HasClientId(messages, conv, clientId)
    ensures r.Some? ==> r.value in messages && r.value.conv == conv && r.value.clientId == clientId
  {
    if messages == [] then None
    else if messages[0].conv == conv && messages[0].clientId == clientId then Some(messages[0])
    else
      var r := FindByClientId(messages[1..], conv, clientId);
      assert forall i :: 0 < i < |messages| ==> messages[i] == messages[1..][i - 1];
      r
  }

  /** The insert meets a committed row with the same id, client id or sequence number. */
  predicate InsertFails(s: Log, k: nat, id: string)
    requires k in s.calls && s.calls[k].stage.Allocated?
  {
    var c := s.calls[k];
    || HasClientId(s.messages, c.conv, c.clientId)
    || HasSequence(s.messages, c.conv, c.stage.next)
    || HasId(s.messages, id)
  }

  /** Another open transaction holds one of the unique keys the insert needs. */
  predicate Blocked(s: Log, k: nat, id: string)
    requires k in s.calls && s.calls[k].stage.Allocated?
  {
    exists j :: j in s.calls && j != k && s.calls[j].stage.Open() && Collides(s.calls[k], id, s.calls[j].stage.msg)
  }

  predicate Collides(c: Call, id: string, m: Message)
    requires c.stage.Allocated?
  {
    m.id == id || (m.conv == c.conv && (m.clientId == c.clientId || m.sequence == c.stage.next))
  }

  // ---------------------------------------------------------------- steps

  datatype SendStep =
    | Start(k: nat, conv: string, clientId: string, sender: string, body: string, process: nat)
    | Acquire(k: nat)
    | Lookup(k: nat)
    | ReadMax(k: nat)
    | Flush(k: nat, id: string)
    | Requery(k: nat)
    | Release(k: nat)
    | Commit(k: nat)
    | Abort(k: nat)
    | Crash(process: nat)

  predicate At(s: Log, k: nat, stage: Stage) {
    k in s.calls && s.calls[k].stage == stage
  }

  predicate Enabled(s: Log, step: SendStep) {
    match step
    case Start(k, _, _, _, _, _) => k !in s.calls
    case Acquire(k) => At(s, k, Ready) &&
      (|s.calls[k].body| > MAX_MESSAGE_LENGTH || s.calls[k].LockKey() !in s.locks)
    case Lookup(k) => At(s, k, Locked)
    case ReadMax(k) => At(s, k, NotFound)
    case Flush(k, id) => k in s.calls && s.calls[k].stage.Allocated? && (InsertFails(s, k, id) || !Blocked(s, k, id))
    case Requery(k) => At(s, k, Conflict)
    case Release(k) => k in s.calls && s.calls[k].stage.Leaving?
    case Commit(k) => k in s.calls && s.calls[k].stage.Returned?
    case Abort(k) => k in s.calls && !s.calls[k].stage.Final()
    case Crash(_) => true
  }

  function SetStage(s: Log, k: nat, stage: Stage): Log
    requires k in s.calls
  {
    s.(calls := s.calls[k := s.calls[k].(stage := stage)])
  }

  function Unlock(s: Log, k: nat): Log
    requires k in s.calls
  {
    s.(locks := s.locks - {s.calls[k].LockKey()})
  }

  function Do(s: Log, step: SendStep): Log
    requires Enabled(s, step)
  {
    match step
    case Start(k, conv, clientId, sender, body, process) =>
      s.(calls := s.calls[k := Call(conv, clientId, sender, body, process, Ready)])
    case Acquire(k) =>
      if |s.calls[k].body| > MAX_MESSAGE_LENGTH then SetStage(s, k, TooLarge)
      else SetStage(s, k, Locked).(locks := s.locks[s.calls[k].LockKey() := k])
    case Lookup(k) =>
      (match FindByClientId(s.messages, s.calls[k].conv, s.calls[k].clientId)
       case Some(m) => SetStage(s, k, Leaving(m, false))
       case None => SetStage(s, k, NotFound))
    case ReadMax(k) =>
      SetStage(s, k, Allocated(MaxSequence(s.messages, s.calls[k].conv) + 1))
    case Flush(k, id) =>
      if InsertFails(s, k, id) then SetStage(s, k, Conflict)
      else SetStage(s, k, Leaving(NewMessage(s.calls[k], id), true))
    case Requery(k) =>
      (match FindByClientId(s.messages, s.calls[k].conv, s.calls[k].clientId)
       case Some(m) => SetStage(s, k, Leaving(m, false))
       case None => SetStage(Unlock(s, k), k, Raised))
    case Release(k) =>
      var stage := s.calls[k].stage;
      SetStage(Unlock(s, k), k, Returned(stage.msg, stage.isNew))
    case Commit(k) =>
      var stage := s.calls[k].stage;
      SetStage(s, k, Done(stage.msg, stage.isNew))
      .(messages := if stage.isNew then s.messages + [stage.msg] else s.messages)
    case Abort(k) =>
      SetStage(if s.calls[k].stage.InLock() then Unlock(s, k) else s, k, Aborted)
    case Crash(process) =>
      s.(calls := map k | k in s.calls :: AfterCrash(s.calls[k], process),
         locks := map l | l in s.locks && l.process != process :: s.locks[l])
  }

  function NewMessage(c: Call, id: string): Message
    requires c.stage.Allocated?
  {
    Message(id, c.conv, c.clientId, c.sender, c.stage.next, c.body, false)
  }

  function AfterCrash(c: Call, process: nat): Call {
    if c.process == process && !c.stage.Final() then c.(stage := Aborted) else c
  }

  // ---------------------------------------------------------------- invariant

  /** Every conversation's rows carry 1, 2, 3, ... in commit order. */
  ghost predicate Gapless(messages: seq<Message>) {
    forall conv, i :: 0 <= i < |ConvLog(messages, conv)| ==> ConvLog(messages, conv)[i].sequence == i + 1
  }

  ghost predicate UniqueIds(messages: seq<Message>) {
    forall i, j :: 0 <= i < j < |messages| ==> messages[i].id != messages[j].id
  }

  ghost predicate UniqueClientIds(messages: seq<Message>) {
    forall i, j :: 0 <= i < j < |messages| && messages[i].conv == messages[j].conv
      ==> messages[i].clientId != messages[j].clientId
  }

  /** What each stage guarantees about the committed rows. */
  ghost predicate CallOk(messages: seq<Message>, c: Call) {
    var n := |ConvLog(messages, c.conv)|;
    match c.stage
    case Allocated(next) => 1 <= next <= n + 1
    case Leaving(m, isNew) => ResultOk(messages, c, m, isNew)
    case Returned(m, isNew) => ResultOk(messages, c, m, isNew)
    case Done(m, _) => m in messages && m.conv == c.conv && m.clientId == c.clientId
    case _ => true
  }

  ghost predicate ResultOk(messages: seq<Message>, c: Call, m: Message, isNew: bool) {
    && m.conv == c.conv && m.clientId == c.clientId
    && if isNew then
         && m.sequence == |ConvLog(messages, c.conv)| + 1
         && !HasClientId(messages, m.conv, m.clientId)
         && !HasId(messages, m.id)
       else m in messages
  }

  ghost predicate CallsOk(s: Log) {
    forall k :: k in s.calls ==> CallOk(s.messages, s.calls[k])
  }

  /** At most one uncommitted insert per conversation, and no id in two transactions. */
  ghost predicate OneOpenInsert(s: Log) {
    forall j, k :: j in s.calls && k in s.calls && j != k && s.calls[j].stage.Open() && s.calls[k].stage.Open()
      ==> s.calls[j].conv != s.calls[k].conv && s.calls[j].stage.msg.id != s.calls[k].stage.msg.id
  }

  ghost predicate LocksOk(s: Log) {
    && (forall k :: k in s.calls && s.calls[k].stage.InLock()
         ==> s.calls[k].LockKey() in s.locks && s.locks[s.calls[k].LockKey()] == k)
    && (forall l :: l in s.locks
         ==> s.locks[l] in s.calls && s.calls[s.locks[l]].LockKey() == l && s.calls[s.locks[l]].stage.InLock())
  }

  /** Call k committed m as a new row. */
  predicate Created(s: Log, k: nat, m: Message) {
    At(s, k, Done(m, true))
  }

  ghost predicate CreatorsOk(s: Log) {
    && (forall m :: m in s.messages ==> exists k :: Created(s, k, m))
    && (forall j, k :: j in s.calls && k in s.calls && j != k
          && s.calls[j].stage.Done? && s.calls[j].stage.isNew && s.calls[k].stage.Done? && s.calls[k].stage.isNew
          ==> s.calls[j].conv != s.calls[k].conv || s.calls[j].clientId != s.calls[k].clientId)
  }

  ghost predicate Inv(s: Log) {
    && Gapless(s.messages) && UniqueIds(s.messages) && UniqueClientIds(s.messages)
    && CallsOk(s) && OneOpenInsert(s) && LocksOk(s) && CreatorsOk(s)
  }

  // ---------------------------------------------------------------- facts about the queries

  lemma ConvLogAppend(messages: seq<Message>, m: Message, conv: string)
    ensures ConvLog(messages + [m], conv) ==
            if m.conv == conv then ConvLog(messages, conv) + [m] else ConvLog(messages, conv)
  {
    assert (messages + [m])[..|messages|] == messages;
  }

  /** The conversation's log holds exactly the table's rows of that conversation. */
  lemma {:induction false} ConvLogMembers(messages: seq<Message>, conv: string, m: Message)
    ensures m in ConvLog(messages, conv) <==> m in messages && m.conv == conv
  {
    if messages != [] {
      var rest, last := messages[..|messages| - 1], messages[|messages| - 1];
      assert messages == rest + [last];
      ConvLogMembers(rest, conv, m);
    }
  }

  /** On a gapless table max(sequence) is the number of rows. */
  lemma MaxIsCount(messages: seq<Message>, conv: string)
    requires forall i :: 0 <= i < |ConvLog(messages, conv)| ==> ConvLog(messages, conv)[i].sequence == i + 1
    ensures MaxSequence(messages, conv) == |ConvLog(messages, conv)|
  {
    if messages != [] {
      var rest, last := messages[..|messages| - 1], messages[|messages| - 1];
      assert messages == rest + [last];
      ConvLogAppend(rest, last, conv);
      assert forall i :: 0 <= i < |ConvLog(rest, conv)| ==> ConvLog(messages, conv)[i] == ConvLog(rest, conv)[i];
      MaxIsCount(rest, conv);
      if last.conv == conv {
        assert ConvLog(messages, conv)[|ConvLog(rest, conv)|] == last;
      }
    }
  }

  /** On a gapless table the taken numbers are exactly 1..n. */
  lemma TakenNumbers(messages: seq<Message>, conv: string, sequence: int)
    requires Gapless(messages)
    ensures HasSequence(messages, conv, sequence) <==> 1 <= sequence <= |ConvLog(messages, conv)|
  {
    var log := ConvLog(messages, conv);
    if HasSequence(messages, conv, sequence) {
      var i :| 0 <= i < |messages| && messages[i].conv == conv && messages[i].sequence == sequence;
      ConvLogMembers(messages, conv, messages[i]);
      var j :| 0 <= j < |log| && log[j] == messages[i];
    }
    if 1 <= sequence <= |log| {
      ConvLogMembers(messages, conv, log[sequence - 1]);
      assert log[sequence - 1] in log;
    }
  }

  // ---------------------------------------------------------------- preservation

  /** Steps that change one call and keep the committed rows. */
  lemma KeepsCalls(s: Log, s': Log, k: nat)
    requires Inv(s) && s'.messages == s.messages
    requires k in s'.calls && (forall j :: j != k ==> (j in s.calls <==> j in s'.calls))
    requires forall j :: j in s.calls && j != k ==> s'.calls[j] == s.calls[j]
    requires CallOk(s.messages, s'.calls[k])
    requires k in s.calls ==> s'.calls[k].conv == s.calls[k].conv && s'.calls[k].clientId == s.calls[k].clientId
    requires k in s.calls ==> !s.calls[k].stage.Done?
    requires s'.calls[k].stage.Done? ==> !s'.calls[k].stage.isNew
    requires s'.calls[k].stage.Open() ==>
      (k in s.calls && s.calls[k].stage.Open() && s.calls[k].stage.msg == s'.calls[k].stage.msg)
      || forall j :: j in s.calls && j != k && s.calls[j].stage.Open()
           ==> s.calls[j].conv != s'.calls[k].conv && s.calls[j].stage.msg.id != s'.calls[k].stage.msg.id
    ensures Gapless(s'.messages) && UniqueIds(s'.messages) && UniqueClientIds(s'.messages)
    ensures CallsOk(s') && OneOpenInsert(s') && CreatorsOk(s')
  {
    hide Gapless, UniqueIds, UniqueClientIds, LocksOk, CreatorsOk, CallsOk, OneOpenInsert;
    KeepsCreators(s, s', k);
    KeepsOpenInserts(s, s', k);
  }

  lemma KeepsOpenInserts(s: Log, s': Log, k: nat)
    requires CallsOk(s) && OneOpenInsert(s) && s'.messages == s.messages
    requires k in s'.calls && (forall j :: j != k ==> (j in s.calls <==> j in s'.calls))
    requires forall j :: j in s.calls && j != k ==> s'.calls[j] == s.calls[j]
    requires CallOk(s.messages, s'.calls[k])
    requires k in s.calls ==> s'.calls[k].conv == s.calls[k].conv
    requires s'.calls[k].stage.Open() ==>
      (k in s.calls && s.calls[k].stage.Open() && s.calls[k].stage.msg == s'.calls[k].stage.msg)
      || forall j :: j in s.calls && j != k && s.calls[j].stage.Open()
           ==> s.calls[j].conv != s'.calls[k].conv && s.calls[j].stage.msg.id != s'.calls[k].stage.msg.id
    ensures CallsOk(s') && OneOpenInsert(s')
  {
    hide CallOk;
  }

  lemma KeepsCreators(s: Log, s': Log, k: nat)
    requires CreatorsOk(s) && s'.messages == s.messages
    requires k in s'.calls && (forall j :: j != k ==> (j in s.calls <==> j in s'.calls))
    requires forall j :: j in s.calls && j != k ==> s'.calls[j] == s.calls[j]
    requires k in s.calls ==> !s.calls[k].stage.Done?
    requires s'.calls[k].stage.Done? ==> !s'.calls[k].stage.isNew
    ensures CreatorsOk(s')
  {
    forall m | m in s'.messages ensures exists j :: Created(s', j, m) {
      var j :| Created(s, j, m);
      assert Created(s', j, m);
    }
  }

  /** Only call k changes, and its hold on its lock and on the lock table changes together. */
  lemma KeepsLocks(s: Log, s': Log, k: nat)
    requires LocksOk(s) && k in s'.calls
    requires forall j :: j != k ==> (j in s.calls <==> j in s'.calls)
    requires forall j :: j in s.calls && j != k ==> s'.calls[j] == s.calls[j]
    requires k in s.calls ==> s'.calls[k].LockKey() == s.calls[k].LockKey()
    requires k !in s.calls ==> !s'.calls[k].stage.InLock()
    requires var key := s'.calls[k].LockKey();
             var held, holds := k in s.calls && s.calls[k].stage.InLock(), s'.calls[k].stage.InLock();
             && (held == holds ==> s'.locks == s.locks)
             && (held && !holds ==> s'.locks == s.locks - {key})
             && (!held && holds ==> key !in s.locks && s'.locks == s.locks[key := k])
    ensures LocksOk(s')
  {
    var key := s'.calls[k].LockKey();
    forall j | j in s'.calls && s'.calls[j].stage.InLock()
      ensures s'.calls[j].LockKey() in s'.locks && s'.locks[s'.calls[j].LockKey()] == j
    {
      if j != k { assert s.locks[s.calls[j].LockKey()] == j; }
    }
    forall l | l in s'.locks
      ensures s'.locks[l] in s'.calls && s'.calls[s'.locks[l]].LockKey() == l && s'.calls[s'.locks[l]].stage.InLock()
    {
      if l != key { assert s.calls[s.locks[l]].LockKey() == l; }
    }
  }

  lemma StartKeeps(s: Log, step: SendStep)
    requires Inv(s) && Enabled(s, step) && step.Start?
    ensures Inv(Do(s, step))
  {
    KeepsCalls(s, Do(s, step), step.k);
    KeepsLocks(s, Do(s, step), step.k);
  }

  lemma AcquireKeeps(s: Log, step: SendStep)
    requires Inv(s) && Enabled(s, step) && step.Acquire?
    ensures Inv(Do(s, step))
  {
    var s' := Do(s, step);
    assert CallOk(s.messages, s.calls[step.k]);
    KeepsLocks(s, s', step.k);
    KeepsCalls(s, s', step.k);
  }

  lemma ReleaseKeeps(s: Log, step: SendStep)
    requires Inv(s) && Enabled(s, step) && step.Release?
    ensures Inv(Do(s, step))
  {
    var s' := Do(s, step);
    assert CallOk(s.messages, s.calls[step.k]);
    KeepsLocks(s, s', step.k);
    KeepsCalls(s, s', step.k);
  }

  lemma AbortKeeps(s: Log, step: SendStep)
    requires Inv(s) && Enabled(s, step) && step.Abort?
    ensures Inv(Do(s, step))
  {
    var s' := Do(s, step);
    assert CallOk(s.messages, s.calls[step.k]);
    KeepsLocks(s, s', step.k);
    KeepsCalls(s, s', step.k);
  }

  lemma LookupKeeps(s: Log, step: SendStep)
    requires Inv(s) && Enabled(s, step) && step.Lookup?
    ensures Inv(Do(s, step))
  {
    hide ConvLog, FindByClientId;
    var s' := Do(s, step);
    assert CallOk(s.messages, s'.calls[step.k]);
    KeepsLocks(s, s', step.k);
    KeepsCalls(s, s', step.k);
  }

  lemma RequeryKeeps(s: Log, step: SendStep)
    requires Inv(s) && Enabled(s, step) && step.Requery?
    ensures Inv(Do(s, step))
  {
    hide ConvLog, FindByClientId;
    var s' := Do(s, step);
    assert CallOk(s.messages, s'.calls[step.k]);
    KeepsLocks(s, s', step.k);
    KeepsCalls(s, s', step.k);
  }

  lemma ReadMaxKeeps(s: Log, step: SendStep)
    requires Inv(s) && Enabled(s, step) && step.ReadMax?
    ensures Inv(Do(s, step))
  {
    MaxIsCount(s.messages, s.calls[step.k].conv);
    KeepsCalls(s, Do(s, step), step.k);
    KeepsLocks(s, Do(s, step), step.k);
  }

  /**
   A number read earlier is at most n + 1. If it is taken the insert fails; otherwise it is
   n + 1, and so is that of any other open insert of the conversation, which would block.
   */
  lemma FlushKeeps(s: Log, step: SendStep)
    requires Inv(s) && Enabled(s, step) && step.Flush?
    ensures Inv(Do(s, step))
  {
    var c := s.calls[step.k];
    TakenNumbers(s.messages, c.conv, c.stage.next);
    if !InsertFails(s, step.k, step.id) {
      assert c.stage.next == |ConvLog(s.messages, c.conv)| + 1;
      forall j | j in s.calls && j != step.k && s.calls[j].stage.Open()
        ensures s.calls[j].conv != c.conv && s.calls[j].stage.msg.id != step.id
      {
        assert CallOk(s.messages, s.calls[j]);
        assert !Collides(c, step.id, s.calls[j].stage.msg);
      }
    }
    KeepsCalls(s, Do(s, step), step.k);
    KeepsLocks(s, Do(s, step), step.k);
  }

  lemma CrashKeepsLocks(s: Log, step: SendStep)
    requires LocksOk(s) && step.Crash?
    ensures LocksOk(Do(s, step))
  {
    var s' := Do(s, step);
    forall l | l in s'.locks
      ensures s'.locks[l] in s'.calls && s'.calls[s'.locks[l]].LockKey() == l && s'.calls[s'.locks[l]].stage.InLock()
    {
      assert s.calls[s.locks[l]].LockKey() == l;
    }
  }

  lemma CrashKeepsCalls(s: Log, step: SendStep)
    requires CallsOk(s) && OneOpenInsert(s) && step.Crash?
    ensures CallsOk(Do(s, step)) && OneOpenInsert(Do(s, step))
  {
    var s' := Do(s, step);
    forall k | k in s'.calls ensures CallOk(s'.messages, s'.calls[k]) {
      assert CallOk(s.messages, s.calls[k]);
    }
  }

  lemma CrashKeepsCreators(s: Log, step: SendStep)
    requires CreatorsOk(s) && step.Crash?
    ensures CreatorsOk(Do(s, step))
  {
    var s' := Do(s, step);
    forall m | m in s'.messages ensures exists j :: Created(s', j, m) {
      var j :| Created(s, j, m);
      assert Created(s', j, m);
    }
  }

  lemma CrashKeeps(s: Log, step: SendStep)
    requires Inv(s) && Enabled(s, step) && step.Crash?
    ensures Inv(Do(s, step))
  {
    CrashKeepsLocks(s, step);
    CrashKeepsCalls(s, step);
    CrashKeepsCreators(s, step);
  }

  /** A row about to be committed is in the table neither by id nor by client id, and takes the next number. */
  lemma PendingIsNew(s: Log, k: nat)
    requires Inv(s) && k in s.calls && s.calls[k].stage.Open()
    ensures var m := s.calls[k].stage.msg;
            && m.conv == s.calls[k].conv && m.clientId == s.calls[k].clientId
            && !HasId(s.messages, m.id) && !HasClientId(s.messages, m.conv, m.clientId)
            && m.sequence == |ConvLog(s.messages, m.conv)| + 1
  {
    assert CallOk(s.messages, s.calls[k]);
  }

  /** A commit that adds a row leaves every other call's guarantee intact. */
  lemma AppendKeepsCall(s: Log, k: nat, j: nat)
    requires Inv(s) && k in s.calls && s.calls[k].stage.Returned? && s.calls[k].stage.isNew
    requires j in s.calls && j != k
    ensures CallOk(s.messages + [s.calls[k].stage.msg], s.calls[j])
  {
    var m, c := s.calls[k].stage.msg, s.calls[j];
    ConvLogAppend(s.messages, m, c.conv);
    assert CallOk(s.messages, c) && CallOk(s.messages, s.calls[k]);
    if c.stage.Open() {
      assert m.id != c.stage.msg.id && m.conv != c.conv;
    }
  }

  lemma AppendKeepsTable(s: Log, k: nat)
    requires Inv(s) && k in s.calls && s.calls[k].stage.Returned? && s.calls[k].stage.isNew
    ensures var t := s.messages + [s.calls[k].stage.msg];
            Gapless(t) && UniqueIds(t) && UniqueClientIds(t)
  {
    var m := s.calls[k].stage.msg;
    assert CallOk(s.messages, s.calls[k]);
    forall conv, i | 0 <= i < |ConvLog(s.messages + [m], conv)|
      ensures ConvLog(s.messages + [m], conv)[i].sequence == i + 1
    {
      ConvLogAppend(s.messages, m, conv);
    }
  }

  lemma CommitKeepsCreators(s: Log, step: SendStep)
    requires Inv(s) && Enabled(s, step) && step.Commit? && s.calls[step.k].stage.isNew
    ensures CreatorsOk(Do(s, step))
  {
    hide ConvLog, Gapless, UniqueIds, UniqueClientIds, LocksOk, OneOpenInsert, FindByClientId;
    var s', k := Do(s, step), step.k;
    var m := s.calls[k].stage.msg;
    assert CallOk(s.messages, s.calls[k]);
    forall x | x in s'.messages ensures exists j :: Created(s', j, x) {
      if x in s.messages {
        var j :| Created(s, j, x);
        assert Created(s', j, x);
      } else {
        assert Created(s', k, x);
      }
    }
    forall j | j in s.calls && j != k && s.calls[j].stage.Done? && s.calls[j].stage.isNew
      ensures s.calls[j].conv != m.conv || s.calls[j].clientId != m.clientId
    {
      assert CallOk(s.messages, s.calls[j]);
    }
  }

  lemma NewCommitKeeps(s: Log, step: SendStep)
    requires Inv(s) && Enabled(s, step) && step.Commit? && s.calls[step.k].stage.isNew
    ensures Inv(Do(s, step))
  {
    hide Gapless, UniqueIds, UniqueClientIds, CreatorsOk, ConvLog;
    var s', k := Do(s, step), step.k;
    AppendKeepsTable(s, k);
    assert CallOk(s.messages, s.calls[k]);
    forall j | j in s'.calls ensures CallOk(s'.messages, s'.calls[j]) {
      if j != k { AppendKeepsCall(s, k, j); }
    }
    CommitKeepsCreators(s, step);
    KeepsLocks(s, s', k);
  }

  lemma CommitKeeps(s: Log, step: SendStep)
    requires Inv(s) && Enabled(s, step) && step.Commit?
    ensures Inv(Do(s, step))
  {
    hide Gapless, UniqueIds, UniqueClientIds, CreatorsOk, ConvLog;
    if s.calls[step.k].stage.isNew {
      NewCommitKeeps(s, step);
    } else {
      assert CallOk(s.messages, s.calls[step.k]);
      KeepsLocks(s, Do(s, step), step.k);
      KeepsCalls(s, Do(s, step), step.k);
    }
  }

  lemma StepKeepsInv(s: Log, step: SendStep)
    requires Inv(s) && Enabled(s, step)
    ensures Inv(Do(s, step))
  {
    match step
    case Start(_, _, _, _, _, _) => StartKeeps(s, step);
    case Acquire(_) => AcquireKeeps(s, step);
    case Release(_) => ReleaseKeeps(s, step);
    case Abort(_) => AbortKeeps(s, step);
    case Lookup(_) => LookupKeeps(s, step);
    case Requery(_) => RequeryKeeps(s, step);
    case ReadMax(_) => ReadMaxKeeps(s, step);
    case Flush(_, _) => FlushKeeps(s, step);
    case Crash(_) => CrashKeeps(s, step);
    case Commit(_) => CommitKeeps(s, step);
  }

  /** Committed rows are only ever appended, and a committed call's answer stands. */
  lemma StepGrows(s: Log, step: SendStep)
    requires Enabled(s, step)
    ensures s.messages <= Do(s, step).messages
    ensures forall k :: k in s.calls && s.calls[k].stage.Done?
              ==> k in Do(s, step).calls && Do(s, step).calls[k] == s.calls[k]
  {
  }

  /**
   With a fresh row id, an insert conflicts exactly when the number read has been committed
   since, or the client id has. Whatever others commit before the re-query, it then raises
   exactly when the client id is still unknown, so only a send whose number was taken raises.
   */
  lemma RaisesIffOvertaken(s: Log, k: nat, id: string, t: Log)
    requires Inv(s) && Enabled(s, Flush(k, id)) && !HasId(s.messages, id)
    requires Do(s, Flush(k, id)).calls[k].stage.Conflict? ==>
      s.messages <= t.messages && k in t.calls && t.calls[k] == Do(s, Flush(k, id)).calls[k]
    ensures var c := s.calls[k];
            var taken := c.stage.next <= |ConvLog(s.messages, c.conv)|;
            var conflicts := Do(s, Flush(k, id)).calls[k].stage.Conflict?;
            var known := HasClientId(t.messages, c.conv, c.clientId);
            && (conflicts <==> taken || HasClientId(s.messages, c.conv, c.clientId))
            && (conflicts ==> (Do(t, Requery(k)).calls[k].stage.Raised? <==> taken && !known))
  {
    assert CallOk(s.messages, s.calls[k]);
    TakenNumbers(s.messages, s.calls[k].conv, s.calls[k].stage.next);
    assert forall i :: 0 <= i < |s.messages| && s.messages <= t.messages ==> t.messages[i] == s.messages[i];
  }
}
