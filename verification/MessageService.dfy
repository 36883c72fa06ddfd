/** send_message and the transaction around it, as a task among others on a shared database. */
module MessageService {
  import opened MessageLog
  import I = OutboxInvariant
  import O = Outbox
  import S = System
  import T = Tasks

  /** How a call of send_message ends: an answer, an exception, or a cancelled wait. */
  datatype Outcome = Answer(msg: Message, isNew: bool) | IntegrityError | MessageTooLarge | Cancelled

  /** The caller's arguments, and the row id uuid4 is going to draw. */
  datatype Request = Request(conv: string, clientId: string, sender: string, body: string, process: nat, id: string)

  /** The committed table as the call met it at each of its four statements. */
  datatype Sight = Sight(lookup: seq<Message>, numbering: seq<Message>, insert: seq<Message>, requery: seq<Message>)
  {
    /** Each of them is a prefix of the next. */
    predicate Between(from: seq<Message>, to: seq<Message>) {
      from <= lookup <= numbering <= insert <= requery <= to
    }
  }

  predicate Known(messages: seq<Message>, q: Request) {
    HasClientId(messages, q.conv, q.clientId)
  }

  function Stored(messages: seq<Message>, q: Request): Message
    requires Known(messages, q)
  {
    FindByClientId(messages, q.conv, q.clientId).value
  }

  /** The insert is possible: its number has not been taken since, nor its client id, nor its row id. */
  predicate Free(q: Request, seen: Sight) {
    && |ConvLog(seen.insert, q.conv)| == |ConvLog(seen.numbering, q.conv)|
    && !Known(seen.insert, q) && !HasId(seen.insert, q.id)
  }

  /**
   What a call must return, from the tables it met: the stored message if its client id was
   known; else a new one with the next number if that was still free; else the stored message of
   whoever was faster with the same client id; else the IntegrityError, raised again.
   */
  function Verdict(q: Request, seen: Sight): Outcome {
    if Known(seen.lookup, q) then Answer(Stored(seen.lookup, q), false)
    else if Free(q, seen) then
      Answer(Message(q.id, q.conv, q.clientId, q.sender, |ConvLog(seen.numbering, q.conv)| + 1, q.body, false), true)
    else if Known(seen.requery, q) then Answer(Stored(seen.requery, q), false)
    else IntegrityError
  }

  lemma StaysKnown(a: seq<Message>, b: seq<Message>, q: Request)
    requires a <= b && Known(a, q)
    ensures Known(b, q)
  {
    var i :| 0 <= i < |a| && a[i].conv == q.conv && a[i].clientId == q.clientId;
    assert b[i] == a[i];
  }

  /**
   A call raises exactly if its number was taken between max() and its insert (or its row id was)
   and nobody had committed its client id by the re-query; it makes a new message only if nobody
   ever had; and an old answer is a committed message with its key.
   */
  lemma RaisesIffOvertaken(q: Request, seen: Sight)
    requires seen.Between(seen.lookup, seen.requery)
    ensures var taken := |ConvLog(seen.insert, q.conv)| > |ConvLog(seen.numbering, q.conv)|;
            var overtaken := taken || HasId(seen.insert, q.id);
            && (Verdict(q, seen) == IntegrityError <==> overtaken && !Known(seen.requery, q))
            && (Verdict(q, seen).Answer? && Verdict(q, seen).isNew <==> !overtaken && !Known(seen.insert, q))
    ensures Verdict(q, seen).Answer? && !Verdict(q, seen).isNew ==>
      var m := Verdict(q, seen).msg; m in seen.requery && m.conv == q.conv && m.clientId == q.clientId
  {
    LogOnlyGrows(seen.numbering, seen.insert, q.conv);
    if Known(seen.lookup, q) { StaysKnown(seen.lookup, seen.insert, q); }
    if Known(seen.insert, q) { StaysKnown(seen.insert, seen.requery, q); }
  }

  /** Call k can neither take its lock nor have its insert decided. */
  predicate Stuck(s: Log, k: nat, id: string) {
    && k in s.calls
    && ((s.calls[k].stage.Ready? && s.calls[k].LockKey() in s.locks)
        || (s.calls[k].stage.Allocated? && Blocked(s, k, id) && !InsertFails(s, k, id)))
  }

  lemma {:induction false} LogOnlyGrows(a: seq<Message>, b: seq<Message>, conv: string)
    requires a <= b
    ensures |ConvLog(a, conv)| <= |ConvLog(b, conv)|
    decreases |b|
  {
    if a != b { LogOnlyGrows(a, b[..|b| - 1], conv); }
  }

  /** On the tables a call met, its insert fails exactly if it is not free. */
  lemma FailsIffNotFree(s: S.State, k: nat, q: Request, seen: Sight)
    requires S.Inv(s) && k in s.log.calls && s.log.calls[k].stage.Allocated?
    requires s.log.calls[k].conv == q.conv && s.log.calls[k].clientId == q.clientId
    requires seen.insert == s.log.messages && seen.numbering <= seen.insert
    requires s.log.calls[k].stage.next == |ConvLog(seen.numbering, q.conv)| + 1
    ensures InsertFails(s.log, k, q.id) <==> !Free(q, seen)
  {
    TakenNumbers(s.log.messages, q.conv, s.log.calls[k].stage.next);
    LogOnlyGrows(seen.numbering, seen.insert, q.conv);
  }

  /** max(sequence) on the table of a reachable state. */
  lemma MaxOf(s: S.State, conv: string)
    requires S.Inv(s)
    ensures MaxSequence(s.log.messages, conv) == |ConvLog(s.log.messages, conv)|
  {
    MaxIsCount(s.log.messages, conv);
  }

  class MessageService {
    /** The shared database with every task working on it. */
    var sys: S.State

    constructor (sys: S.State)
      ensures this.sys == sys
    {
      this.sys := sys;
    }

    ghost predicate Mine(k: nat, q: Request)
      reads this
    {
      && k in sys.log.calls
      && sys.log.calls[k] == Call(q.conv, q.clientId, q.sender, q.body, q.process, sys.log.calls[k].stage)
    }

    /** An await of call k: all other calls, other processes' crashes, the worker and administrators may run. */
    method Await(k: nat)
      requires S.Inv(sys) && k in sys.log.calls
      modifies this
      ensures S.Inv(sys) && T.Leads(old(sys), sys, T.AnyStep) && T.CallUndisturbed(old(sys), sys, k)
    {
      T.LeadsNowhere(sys, T.AnyStep);
      T.NotCallSteps(sys, [], k);
    }

    method Take(step: SendStep, extras: S.Extras)
      requires S.Inv(sys) && Enabled(sys.log, step)
      modifies this
      ensures sys.log == Do(old(sys).log, step) && S.Inv(sys) && T.Leads(old(sys), sys, T.AnyStep)
      ensures sys == S.Do(old(sys), S.Send(step, extras))
    {
      T.LeadsNowhere(sys, T.AnyStep);
      T.LeadsOn(sys, sys, S.Send(step, extras));
      S.StepKeepsInv(sys, S.Send(step, extras));
      sys := S.Do(sys, S.Send(step, extras));
    }

    static lemma KeepsRows(log: Log, step: SendStep)
      requires Enabled(log, step) && !step.Commit?
      ensures Do(log, step).messages == log.messages
    {
    }

    /** A statement of send_message, followed by its await. */
    method Run(k: nat, step: SendStep, ghost from: S.State)
      requires S.Inv(sys) && Enabled(sys.log, step) && T.Leads(from, sys, T.AnyStep)
      requires k in Do(sys.log, step).calls && !step.Commit?
      modifies this
      ensures S.Inv(sys) && T.Leads(from, sys, T.AnyStep) && T.Leads(old(sys), sys, T.AnyStep)
      ensures k in sys.log.calls && sys.log.calls[k] == Do(old(sys).log, step).calls[k]
      ensures old(sys).log.messages <= sys.log.messages
    {
      hide S.Inv, T.Leads, Enabled;
      KeepsRows(sys.log, step);
      ghost var s0 := sys;
      Take(step, S.Extras("", 0, 0.0, 0.0));
      ghost var s1 := sys;
      Await(k);
      T.LeadsThrough(s0, s1, sys, T.AnyStep);
      T.LeadsThrough(from, s0, sys, T.AnyStep);
    }

    /** Wait, up to the caller's patience, until the lock is free. */
    method WaitForLock(k: nat, patience: nat, ghost from: S.State) returns (waits: nat)
      requires S.Inv(sys) && k in sys.log.calls && T.Leads(from, sys, T.AnyStep)
      modifies this
      ensures S.Inv(sys) && T.Leads(from, sys, T.AnyStep) && old(sys).log.messages <= sys.log.messages
      ensures k in sys.log.calls && sys.log.calls[k] == old(sys).log.calls[k]
      ensures waits <= patience && (waits < patience ==> sys.log.calls[k].LockKey() !in sys.log.locks)
    {
      hide S.Inv;
      waits := 0;
      while waits < patience && sys.log.calls[k].LockKey() in sys.log.locks
        invariant S.Inv(sys) && T.Leads(from, sys, T.AnyStep) && old(sys).log.messages <= sys.log.messages
        invariant waits <= patience && k in sys.log.calls && sys.log.calls[k] == old(sys).log.calls[k]
      {
        ghost var before := sys;
        Await(k);
        T.LeadsThrough(from, before, sys, T.AnyStep);
        waits := waits + 1;
      }
    }

    /** Wait, up to the caller's patience, until the insert can be decided. */
    method WaitForKeys(k: nat, id: string, patience: nat, ghost from: S.State) returns (waits: nat)
      requires S.Inv(sys) && k in sys.log.calls && sys.log.calls[k].stage.Allocated? && T.Leads(from, sys, T.AnyStep)
      modifies this
      ensures S.Inv(sys) && T.Leads(from, sys, T.AnyStep) && old(sys).log.messages <= sys.log.messages
      ensures k in sys.log.calls && sys.log.calls[k] == old(sys).log.calls[k]
      ensures waits <= patience && (waits < patience ==> Enabled(sys.log, Flush(k, id)))
    {
      hide S.Inv;
      waits := 0;
      while waits < patience && !Enabled(sys.log, Flush(k, id))
        invariant S.Inv(sys) && T.Leads(from, sys, T.AnyStep) && old(sys).log.messages <= sys.log.messages
        invariant waits <= patience && k in sys.log.calls && sys.log.calls[k] == old(sys).log.calls[k]
      {
        ghost var before := sys;
        Await(k);
        T.LeadsThrough(from, before, sys, T.AnyStep);
        waits := waits + 1;
      }
    }

    /** Give the call up where it stands. */
    method GiveUp(k: nat, ghost from: S.State)
      requires S.Inv(sys) && k in sys.log.calls && !sys.log.calls[k].stage.Final() && T.Leads(from, sys, T.AnyStep)
      modifies this
      ensures S.Inv(sys) && T.Leads(from, sys, T.AnyStep) && T.Leads(old(sys), sys, T.AnyStep)
      ensures k in sys.log.calls && sys.log.calls[k] == old(sys).log.calls[k].(stage := Aborted)
      ensures old(sys).log.messages <= sys.log.messages
    {
      hide S.Inv;
      Run(k, Abort(k), from);
    }

    /** Enter the lock; a body over the limit is refused first, and a wait may be given up. */
    method Enter(k: nat, q: Request, patience: nat, ghost from: S.State) returns (waits: nat, ghost at: S.State)
      requires S.Inv(sys) && T.Leads(from, sys, T.AnyStep) && k !in sys.log.calls
      modifies this
      ensures S.Inv(sys) && T.Leads(from, sys, T.AnyStep) && Mine(k, q) && old(sys).log.messages <= sys.log.messages
      ensures var stage := sys.log.calls[k].stage;
              && (stage.Locked? || stage.TooLarge? || stage.Aborted?)
              && (stage.TooLarge? <==> |q.body| > MAX_MESSAGE_LENGTH)
              && (stage.Aborted? ==> waits == patience && GaveUp(from, at, k, q.id))
    {
      hide S.Inv;
      waits, at := 0, sys;
      Run(k, Start(k, q.conv, q.clientId, q.sender, q.body, q.process), from);
      if |q.body| > MAX_MESSAGE_LENGTH {
        Run(k, Acquire(k), from);
        return;
      }
      waits := WaitForLock(k, patience, from);
      if sys.log.calls[k].LockKey() !in sys.log.locks {
        Run(k, Acquire(k), from);
      } else {
        at := sys;
        GiveUp(k, from);
      }
    }

    /** `at` is a state on the way from `from` in which call k was stuck. */
    ghost predicate GaveUp(from: S.State, at: S.State, k: nat, id: string)
      reads this
    {
      T.Leads(from, at, T.AnyStep) && T.Leads(at, sys, T.AnyStep) && Stuck(at.log, k, id)
    }

    /** The body of `async with`: look up, number, insert; on a conflict look up again. */
    method Decide(k: nat, q: Request, patience: nat, ghost from: S.State)
      returns (waits: nat, ghost seen: Sight, ghost at: S.State)
      requires S.Inv(sys) && T.Leads(from, sys, T.AnyStep) && Mine(k, q) && sys.log.calls[k].stage.Locked?
      modifies this
      ensures S.Inv(sys) && T.Leads(from, sys, T.AnyStep) && Mine(k, q)
      ensures seen.Between(old(sys).log.messages, sys.log.messages)
      ensures Decided(q, seen, sys.log.calls[k].stage, waits == patience && GaveUp(from, at, k, q.id))
    {
      hide S.Inv, T.Leads, GaveUp, HasClientId, Free;
      waits, at := 0, sys;
      ghost var table := sys.log.messages;
      seen := Sight(table, table, table, table);
      Run(k, Lookup(k), from);
      if sys.log.calls[k].stage.NotFound? {
        ghost var rest;
        waits, rest, at := Insert(k, q, patience, from);
        seen := rest.(lookup := table);
      }
    }

    /** The stage a call is in once its verdict stands, or it gave up. */
    static ghost predicate Decided(q: Request, seen: Sight, stage: Stage, gaveUp: bool) {
      match stage
      case Leaving(msg, isNew) => Verdict(q, seen) == Answer(msg, isNew)
      case Raised => Verdict(q, seen) == IntegrityError
      case Aborted => gaveUp
      case _ => false
    }

    static lemma KeysTaken(log: Log, k: nat, id: string)
      requires k in log.calls && log.calls[k].stage.Allocated? && !Enabled(log, Flush(k, id))
      ensures Stuck(log, k, id)
    {
    }

    /** Number, insert, and on a conflict look up again. */
    method Insert(k: nat, q: Request, patience: nat, ghost from: S.State)
      returns (waits: nat, ghost seen: Sight, ghost at: S.State)
      requires S.Inv(sys) && T.Leads(from, sys, T.AnyStep) && Mine(k, q) && sys.log.calls[k].stage.NotFound?
      modifies this
      ensures S.Inv(sys) && T.Leads(from, sys, T.AnyStep) && Mine(k, q)
      ensures seen.Between(old(sys).log.messages, sys.log.messages)
      ensures forall table :: table <= seen.numbering && !Known(table, q) ==>
        Decided(q, seen.(lookup := table), sys.log.calls[k].stage, waits == patience && GaveUp(from, at, k, q.id))
    {
      hide S.Inv, T.Leads, HasClientId, ConvLog, MaxSequence, Stuck, HasId, FindByClientId;
      at := sys;
      ghost var table := sys.log.messages;
      seen := Sight(table, table, table, table);
      MaxOf(sys, q.conv);
      Run(k, ReadMax(k), from);
      waits := WaitForKeys(k, q.id, patience, from);
      if !Enabled(sys.log, Flush(k, q.id)) {
        at := sys;
        KeysTaken(at.log, k, q.id);
        GiveUp(k, from);
        return;
      }
      seen := seen.(insert := sys.log.messages, requery := sys.log.messages);
      FailsIffNotFree(sys, k, q, seen);
      hide InsertFails, Blocked, Free;
      Run(k, Flush(k, q.id), from);
      if sys.log.calls[k].stage.Conflict? {
        seen := seen.(requery := sys.log.messages);
        Run(k, Requery(k), from);
      }
    }

    /**
     send_message. Whatever runs at its awaits, the call is a stretch of a run of the system and
     releases its lock. It returns what the tables it met demand; it is refused exactly if its
     body is too long, and cancelled only where it could not go on, after waiting in vain as often
     as the caller would. A new answer is uncommitted and takes the next number.
     */
    method SendMessage(k: nat, q: Request, patience: nat)
      returns (r: Outcome, waits: nat, ghost seen: Sight, ghost at: S.State)
      requires S.Inv(sys) && k !in sys.log.calls
      modifies this
      ensures S.Inv(sys) && T.Leads(old(sys), sys, T.AnyStep) && Mine(k, q)
      ensures sys.log.calls[k].stage ==
                match r
                case Answer(msg, isNew) => Returned(msg, isNew)
                case IntegrityError => Raised
                case MessageTooLarge => TooLarge
                case Cancelled => Aborted
      ensures r == MessageTooLarge <==> |q.body| > 4000
      ensures r.Answer? || r.IntegrityError? ==>
        r == Verdict(q, seen) && seen.Between(old(sys).log.messages, sys.log.messages)
      ensures r.Cancelled? ==> waits == patience && GaveUp(old(sys), at, k, q.id)
      ensures r.Answer? && r.isNew ==> r.msg.sequence == |ConvLog(sys.log.messages, q.conv)| + 1
    {
      hide S.Inv, Verdict, Stuck;
      ghost var from := sys;
      seen := Sight(sys.log.messages, sys.log.messages, sys.log.messages, sys.log.messages);
      T.LeadsNowhere(sys, T.AnyStep);
      waits, at := Enter(k, q, patience, from);
      if sys.log.calls[k].stage.TooLarge? { return MessageTooLarge, waits, seen, at; }
      if sys.log.calls[k].stage.Aborted? { return Cancelled, waits, seen, at; }
      waits, seen, at := Decide(k, q, patience, from);
      if sys.log.calls[k].stage.Raised? { return IntegrityError, waits, seen, at; }
      if sys.log.calls[k].stage.Aborted? { return Cancelled, waits, seen, at; }
      Run(k, Release(k), from);
      AnswerMeans(sys, k);
      r := Answer(sys.log.calls[k].stage.msg, sys.log.calls[k].stage.isNew);
    }

    /** What the invariant says of a returned answer. */
    static lemma AnswerMeans(s: S.State, k: nat)
      requires S.Inv(s) && k in s.log.calls && s.log.calls[k].stage.Returned?
      ensures var c, m := s.log.calls[k], s.log.calls[k].stage.msg;
              && m.conv == c.conv && m.clientId == c.clientId
              && if c.stage.isNew then m.sequence == |ConvLog(s.log.messages, c.conv)| + 1 else m in s.log.messages
    {
      assert CallOk(s.log.messages, s.log.calls[k]);
    }

    /**
     get_db around a handler: commit after an answer, roll back after an exception. A new message
     becomes the last committed row together with its pending outbox event, which carries the retry
     limit and times it was given, and its two queued delivery rows; nothing else is added or
     changed by the commit, and the handler ends as send_message did.
     */
    method PostMessage(k: nat, q: Request, patience: nat, extras: S.Extras)
      returns (r: Outcome, waits: nat, ghost seen: Sight, ghost before: S.State)
      requires S.Inv(sys) && k !in sys.log.calls
      modifies this
      ensures S.Inv(sys) && T.Leads(old(sys), sys, T.AnyStep) && Mine(k, q)
      ensures sys.log.calls[k].stage ==
                match r
                case Answer(msg, isNew) => Done(msg, isNew)
                case IntegrityError => Raised
                case MessageTooLarge => TooLarge
                case Cancelled => Aborted
      ensures r == MessageTooLarge <==> |q.body| > 4000
      ensures r.Answer? || r.IntegrityError? ==>
        r == Verdict(q, seen) && seen.Between(old(sys).log.messages, sys.log.messages)
      ensures r.Cancelled? ==> waits == patience
      ensures r.Answer? ==> r.msg in sys.log.messages
      ensures T.Leads(old(sys), before, T.AnyStep)
      ensures r.Answer? && r.isNew ==> Published(before, r.msg, extras)
      ensures !(r.Answer? && r.isNew) ==> sys.out == before.out && sys.log.messages == before.log.messages
    {
      hide S.Inv, Verdict;
      ghost var at;
      r, waits, seen, at := SendMessage(k, q, patience);
      before := sys;
      if r.Answer? {
        AnswerMeans(sys, k);
        NotYetThere(sys, k);
        Take(Commit(k), extras);
        T.LeadsThrough(old(sys), before, sys, T.AnyStep);
      }
    }

    /** What the commit of a new message adds to the tables, column by column. */
    ghost predicate Published(before: S.State, m: Message, x: S.Extras)
      reads this
    {
      var was, now := before.out, sys.out;
      && sys.log.messages == before.log.messages + [m]
      && |now.outbox| == |was.outbox| + 1 && now.outbox[..|was.outbox|] == was.outbox
      && |now.rows| == |was.rows| + 2 && now.rows[..|was.rows|] == was.rows
      && (forall i :: 0 <= i < |was.rows| ==> was.rows[i].messageId != m.id)
      && IsFirstRow(now.rows[|was.rows|], m.id, "discord") && IsFirstRow(now.rows[|was.rows| + 1], m.id, "webhook")
      && var e := now.outbox[|was.outbox|];
         && e.messageId == m.id && e.sequence == m.sequence && e.origin == x.origin
         && e.status == O.Pending && e.retryCount == 0 && e.maxRetries == x.maxRetries
         && e.nextAttemptAt == x.nextAttemptAt && e.createdAt == x.createdAt
         && e.lockedAt.None? && e.completedAt.None?
    }

    static predicate IsFirstRow(row: O.Delivery, m: string, integration: string) {
      && row.messageId == m && row.integration == integration && row.status == O.Queued && row.attempts == 0
      && row.externalId.None? && row.failureReason.None?
    }

    /** Before a new message commits there is no delivery row for it. */
    static lemma NotYetThere(s: S.State, k: nat)
      requires S.Inv(s) && k in s.log.calls && s.log.calls[k].stage.Returned?
      ensures s.log.calls[k].stage.isNew ==>
        forall i :: 0 <= i < |s.out.rows| ==> s.out.rows[i].messageId != s.log.calls[k].stage.msg.id
    {
      if s.log.calls[k].stage.isNew {
        PendingIsNew(s.log, k);
        S.NotYetPublished(s.log.messages, s.out.outbox, s.log.calls[k].stage.msg.id);
        forall i | 0 <= i < |s.out.rows| ensures I.Published(s.out.outbox, s.out.rows[i].messageId) {
        }
      }
    }
  }
}
