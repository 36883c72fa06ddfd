/**
 No two sends block each other for good. A send waits for the lock of its conversation or for
 the keys of an open insert; whoever holds keys needs neither lock nor key to finish. So from
 every reachable state every send can finish, without anyone giving up.
 */
module Progress {
  import opened MessageLog
  import S = System
  import T = Tasks

  const EXTRAS := S.Extras("", 0, 0.0, 0.0)

  /** Steps that take a call on: no new call, no rollback, no crash. */
  predicate Forward(step: S.Step) {
    step.Send? && !step.send.Start? && !step.send.Abort? && !step.send.Crash?
  }

  lemma Then(a: S.State, b: S.State, c: S.State)
    requires T.Leads(a, b, Forward) && T.Leads(b, c, Forward)
    ensures T.Leads(a, c, Forward)
  {
    var first :| T.LeadsBy(a, b, Forward, first);
    var second :| T.LeadsBy(b, c, Forward, second);
    T.ExecConcat(a, first, second);
    assert T.LeadsBy(a, c, Forward, first + second);
  }

  lemma Take(from: S.State, s: S.State, step: SendStep) returns (t: S.State)
    requires T.Leads(from, s, Forward) && S.Inv(s) && Enabled(s.log, step) && Forward(S.Send(step, EXTRAS))
    ensures T.Leads(from, t, Forward) && S.Inv(t) && t.log == Do(s.log, step)
  {
    hide S.Inv;
    t := S.Do(s, S.Send(step, EXTRAS));
    S.StepKeepsInv(s, S.Send(step, EXTRAS));
    assert T.Legal(t, []) && T.Exec(t, []) == t;
    assert [S.Send(step, EXTRAS)][1..] == [];
    assert T.LeadsBy(s, t, Forward, [S.Send(step, EXTRAS)]);
    Then(from, s, t);
  }

  /** Between s and t calls other than k have at most committed an open insert. */
  ghost predicate OthersStand(s: Log, t: Log, k: nat) {
    && (forall j :: j in s.calls <==> j in t.calls)
    && forall j :: j in s.calls && j != k ==>
         t.calls[j] == s.calls[j] || (s.calls[j].stage.Open() && t.calls[j].stage.Done?)
  }

  lemma OnlyOwnCall(s: Log, step: SendStep, k: nat)
    requires Enabled(s, step) && k in s.calls && !step.Start? && !step.Crash? && step.k == k
    ensures (forall j :: j in s.calls <==> j in Do(s, step).calls)
    ensures forall j :: j in s.calls && j != k ==> Do(s, step).calls[j] == s.calls[j]
  {
  }

  /** A call whose result is decided needs neither lock nor key. */
  lemma Commits(from: S.State, s: S.State, j: nat) returns (t: S.State)
    requires T.Leads(from, s, Forward) && S.Inv(s)
    requires j in s.log.calls && (s.log.calls[j].stage.Leaving? || s.log.calls[j].stage.Returned?)
    ensures T.Leads(from, t, Forward) && S.Inv(t) && j in t.log.calls && t.log.calls[j].stage.Done?
    ensures forall i :: i in s.log.calls <==> i in t.log.calls
    ensures forall i :: i in s.log.calls && i != j ==> t.log.calls[i] == s.log.calls[i]
  {
    hide S.Inv, T.Leads;
    t := s;
    if t.log.calls[j].stage.Leaving? {
      OnlyOwnCall(t.log, Release(j), j);
      t := Take(from, t, Release(j));
    }
    OnlyOwnCall(t.log, Commit(j), j);
    t := Take(from, t, Commit(j));
  }

  function OpenCalls(log: Log): set<nat> {
    set j | j in log.calls && log.calls[j].stage.Open()
  }

  /** A send that waits at its insert waits for a call that can go on at once. */
  lemma BlockerGoesOn(s: Log, k: nat, id: string) returns (j: nat)
    requires k in s.calls && s.calls[k].stage.Allocated? && Blocked(s, k, id)
    ensures j in s.calls && j != k && s.calls[j].stage.Open()
    ensures if s.calls[j].stage.Leaving? then Enabled(s, Release(j)) else Enabled(s, Commit(j))
  {
    j :| j in s.calls && j != k && s.calls[j].stage.Open() && Collides(s.calls[k], id, s.calls[j].stage.msg);
  }

  /** Whoever blocks an insert commits; after that the insert can be decided. */
  lemma {:induction false} Unblocks(from: S.State, s: S.State, k: nat, id: string) returns (t: S.State)
    requires T.Leads(from, s, Forward) && S.Inv(s) && k in s.log.calls && s.log.calls[k].stage.Allocated?
    ensures T.Leads(from, t, Forward) && S.Inv(t) && OthersStand(s.log, t.log, k)
    ensures k in t.log.calls && t.log.calls[k] == s.log.calls[k] && Enabled(t.log, Flush(k, id))
    decreases |OpenCalls(s.log)|
  {
    hide S.Inv, T.Leads;
    if Enabled(s.log, Flush(k, id)) {
      t := s;
    } else {
      var j := BlockerGoesOn(s.log, k, id);
      var next := Commits(from, s, j);
      assert OpenCalls(next.log) == OpenCalls(s.log) - {j};
      t := Unblocks(from, next, k, id);
    }
  }

  /** Look up and number. */
  lemma Numbers(from: S.State, s: S.State, k: nat) returns (t: S.State)
    requires T.Leads(from, s, Forward) && S.Inv(s)
    requires k in s.log.calls && (s.log.calls[k].stage.Locked? || s.log.calls[k].stage.NotFound?)
    ensures T.Leads(from, t, Forward) && S.Inv(t) && OthersStand(s.log, t.log, k)
    ensures k in t.log.calls && (t.log.calls[k].stage.Allocated? || t.log.calls[k].stage.Leaving?)
  {
    hide S.Inv, T.Leads, FindByClientId, MaxSequence;
    t := s;
    if t.log.calls[k].stage.Locked? {
      OnlyOwnCall(t.log, Lookup(k), k);
      t := Take(from, t, Lookup(k));
    }
    if t.log.calls[k].stage.NotFound? {
      OnlyOwnCall(t.log, ReadMax(k), k);
      t := Take(from, t, ReadMax(k));
    }
  }

  /** Re-query after a conflict. */
  lemma Requeries(from: S.State, s: S.State, k: nat) returns (t: S.State)
    requires T.Leads(from, s, Forward) && S.Inv(s) && k in s.log.calls && s.log.calls[k].stage.Conflict?
    ensures T.Leads(from, t, Forward) && S.Inv(t) && OthersStand(s.log, t.log, k)
    ensures k in t.log.calls && (t.log.calls[k].stage.Raised? || t.log.calls[k].stage.Leaving?)
  {
    hide S.Inv, T.Leads, FindByClientId;
    OnlyOwnCall(s.log, Requery(k), k);
    t := Take(from, s, Requery(k));
  }

  /** A call holding its conversation's lock finishes. */
  lemma FinishesLocked(from: S.State, s: S.State, k: nat) returns (t: S.State)
    requires T.Leads(from, s, Forward) && S.Inv(s) && k in s.log.calls && s.log.calls[k].stage.InLock()
    ensures T.Leads(from, t, Forward) && S.Inv(t) && OthersStand(s.log, t.log, k)
    ensures k in t.log.calls && (t.log.calls[k].stage.Done? || t.log.calls[k].stage.Raised?)
  {
    hide S.Inv, T.Leads;
    t := s;
    if t.log.calls[k].stage.Locked? || t.log.calls[k].stage.NotFound? { t := Numbers(from, t, k); }
    if t.log.calls[k].stage.Allocated? { t := Inserts(from, t, k); }
    if t.log.calls[k].stage.Conflict? { t := Requeries(from, t, k); }
    if t.log.calls[k].stage.Leaving? { t := Commits(from, t, k); }
  }

  lemma Inserts(from: S.State, s: S.State, k: nat) returns (t: S.State)
    requires T.Leads(from, s, Forward) && S.Inv(s) && k in s.log.calls && s.log.calls[k].stage.Allocated?
    ensures T.Leads(from, t, Forward) && S.Inv(t) && OthersStand(s.log, t.log, k)
    ensures k in t.log.calls && (t.log.calls[k].stage.Leaving? || t.log.calls[k].stage.Conflict?)
  {
    hide S.Inv, T.Leads, InsertFails, Blocked;
    t := Unblocks(from, s, k, "");
    OnlyOwnCall(t.log, Flush(k, ""), k);
    t := Take(from, t, Flush(k, ""));
  }

  /** When the holder of a lock has finished, the lock is free: nobody else can have taken it. */
  lemma LockIsFree(s: S.State, t: S.State, h: nat, key: Lock)
    requires S.Inv(s) && S.Inv(t) && OthersStand(s.log, t.log, h)
    requires key in s.log.locks && s.log.locks[key] == h && h in t.log.calls && t.log.calls[h].stage.Final()
    ensures key !in t.log.locks
  {
  }

  /** A call waiting for its lock finishes after the holder. */
  lemma FinishesReady(from: S.State, s: S.State, k: nat) returns (t: S.State)
    requires T.Leads(from, s, Forward) && S.Inv(s) && k in s.log.calls && s.log.calls[k].stage.Ready?
    ensures T.Leads(from, t, Forward) && S.Inv(t)
    ensures k in t.log.calls && t.log.calls[k].stage.Final() && !t.log.calls[k].stage.Aborted?
  {
    hide S.Inv, T.Leads;
    t := s;
    var key := s.log.calls[k].LockKey();
    if |s.log.calls[k].body| <= MAX_MESSAGE_LENGTH && key in s.log.locks {
      HolderIsInside(s, key);
      t := FinishesLocked(from, s, s.log.locks[key]);
      LockIsFree(s, t, s.log.locks[key], key);
    }
    t := Take(from, t, Acquire(k));
    if t.log.calls[k].stage.Locked? { t := FinishesLocked(from, t, k); }
  }

  lemma HolderIsInside(s: S.State, key: Lock)
    requires S.Inv(s) && key in s.log.locks
    ensures s.log.locks[key] in s.log.calls && s.log.calls[s.log.locks[key]].stage.InLock()
  {
  }

  /**
   From every state that satisfies the invariant every send can finish by steps of sends already
   under way, none of which rolls back: it commits, re-raises its IntegrityError, or is refused.
   */
  lemma EverySendCanFinish(s: S.State, k: nat) returns (t: S.State)
    requires S.Inv(s) && k in s.log.calls
    ensures T.Leads(s, t, Forward) && S.Inv(t) && k in t.log.calls && t.log.calls[k].stage.Final()
    ensures t.log.calls[k].stage.Aborted? ==> s.log.calls[k].stage.Aborted?
  {
    hide S.Inv;
    T.LeadsNowhere(s, Forward);
    hide T.Leads;
    t := s;
    var stage := s.log.calls[k].stage;
    if stage.Ready? { t := FinishesReady(s, s, k); }
    else if stage.InLock() { t := FinishesLocked(s, s, k); }
    else if stage.Returned? { t := Commits(s, s, k); }
  }
}
