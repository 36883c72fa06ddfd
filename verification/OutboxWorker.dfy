/** The worker in the form the program has it: a pass over a batch of events, one round each. */
module OutboxWorker {
  import opened Wrappers
  import opened Outbox
  import opened Passes
  import opened Router
  import Backoff
  import C = Contacts
  import I = OutboxInvariant
  import S = System
  import Starvation
  import T = Tasks

  /** How a round ends: by its commit or its booked error, and the pass goes on; or the pass ends with it. */
  datatype Outcome = Completed(committed: bool) | Stopped | Lost

  class Worker {
    /** The shared database with every task working on it. */
    var sys: S.State

    constructor (sys: S.State)
      ensures this.sys == sys
    {
      this.sys := sys;
    }

    /** An await: sends and administrators take any number of steps. */
    method Await()
      requires S.Inv(sys)
      modifies this
      ensures T.Leads(old(sys), sys, T.NotWorker)
      ensures S.Inv(sys) && T.WorkerUndisturbed(old(sys), sys)
    {
      T.LeadsNowhere(sys, T.NotWorker);
      T.NotWorkerSteps(sys, []);
    }

    method Take(step: Step)
      requires S.Inv(sys) && Enabled(sys.out, step)
      modifies this
      ensures sys == S.Do(old(sys), S.Work(step)) && S.Inv(sys)
    {
      S.StepKeepsInv(sys, S.Work(step));
      sys := S.Do(sys, S.Work(step));
    }

    /** In the middle of a pass, between two of its statements. */
    ghost predicate Midway(start: S.State, p: Pass, k: nat)
      reads this
    {
      && S.Inv(sys) && T.Leads(start, sys, T.AnyStep)
      && p.Valid() && k <= |p.batch| && Progress(p, sys.out, k)
    }

    ghost predicate AtNext(p: Pass, k: nat)
      reads this
    {
      sys.out.worker.Between? && sys.out.worker.now == p.at && Remaining(p, sys.out.worker.todo, k)
    }

    /**
     One pass of process_batch over the events a select picked. Whatever sends and administrators
     do at the awaits, the result is a stretch of a run of the whole system that keeps its
     invariant and leaves the worker idle. A prefix of the picked events had exactly one round
     each, which left the event as its own circumstances say; nothing else happened to events that
     were not reset. The pass returns the count of the rounds that ran to their commit, or raises
     (None) exactly if it did not reach the end of the batch: the next event could not be read,
     could not be claimed, or its error could not be booked.
     */
    method ProcessBatch(now: real, size: nat, batch: seq<nat>, world: nat -> Circumstances)
      returns (processed: Option<nat>, attempted: nat)
      requires S.Inv(sys) && sys.out.worker.Idle? && IsBatch(sys.out.outbox, now, size, batch)
      requires forall i :: Backoff.IsJitter(world(i).jitter)
      modifies this
      ensures S.Inv(sys) && sys.out.worker.Idle? && T.Leads(old(sys), sys, T.AnyStep)
      ensures attempted <= |batch|
      ensures var p := Pass(old(sys).out, now, batch, world);
              && p.Valid() && Progress(p, sys.out, attempted) && p.Reaches(attempted)
              && LeftByPass(p, sys.out, attempted)
              && processed == (if attempted < |batch| then None
                               else Some(Committed(p.from.outbox, batch, world, attempted)))
      ensures NoResets(old(sys).out, sys.out) && (batch != [] ==> attempted >= 1) ==>
        Starvation.Valid(Starvation.Batch(old(sys).out.outbox, sys.out.outbox, now, size, batch, attempted))
    {
      hide S.Inv, Progress, IsBatch, Committed, Raises, Starvation.Valid, T.Leads, LeftByPass;
      processed, attempted := Some(0), 0;
      ghost var start, p := sys, Pass(sys.out, now, batch, world);
      PassStarts(sys, p, size);
      NoneCommitted(p);
      if batch == [] {
        T.LeadsNowhere(sys, T.AnyStep);
      } else {
        Load(now, size, batch, p);
        var count;
        count, attempted := Drain(batch, world, start, p);
        processed := if attempted < |batch| then None else Some(count);
      }
      ProgressIsValid(p, sys.out, size, attempted);
      PassLeaves(p, sys.out, size, attempted);
    }

    static lemma PassStarts(s: S.State, p: Pass, size: nat)
      requires S.Inv(s) && p.from == s.out && IsBatch(s.out.outbox, p.at, size, p.batch)
      requires forall i :: Backoff.IsJitter(p.world(i).jitter)
      ensures p.Valid() && Progress(p, s.out, 0)
    {
    }

    method Load(now: real, size: nat, batch: seq<nat>, ghost p: Pass)
      requires S.Inv(sys) && p.from == sys.out && p.at == now && p.batch == batch
      requires p.Valid() && Progress(p, sys.out, 0) && Enabled(sys.out, Select(now, size, batch))
      modifies this
      ensures Midway(old(sys), p, 0) && AtNext(p, 0)
    {
      T.LeadsNowhere(sys, T.AnyStep);
      T.LeadsOn(sys, sys, S.Work(Select(now, size, batch)));
      Take(Select(now, size, batch));
    }

    /** The loop over the loaded events. */
    method Drain(batch: seq<nat>, world: nat -> Circumstances, ghost start: S.State, ghost p: Pass)
      returns (processed: nat, attempted: nat)
      requires p.batch == batch && p.world == world && batch != []
      requires Midway(start, p, 0) && AtNext(p, 0)
      modifies this
      ensures attempted <= |batch| && Midway(start, p, attempted) && sys.out.worker.Idle? && p.Reaches(attempted)
      ensures processed == Committed(p.from.outbox, batch, world, attempted)
    {
      hide S.Inv, Progress, Committed, Raises, T.Leads, Remaining;
      processed, attempted := 0, 0;
      NoneCommitted(p);
      var outcome := Completed(true);
      while attempted < |batch| && outcome.Completed?
        invariant attempted <= |batch| && Midway(start, p, attempted)
        invariant processed == Committed(p.from.outbox, batch, world, attempted)
        invariant if outcome.Completed? then AtNext(p, attempted) else sys.out.worker.Idle?
        invariant outcome.Stopped? ==> attempted >= 1 && p.RoundStops(attempted - 1)
        invariant outcome.Lost? ==> attempted < |batch| && p.RoundLost(attempted)
        invariant forall j :: 0 <= j < attempted ==> !p.RoundLost(j)
        invariant forall j :: 0 <= j < attempted && (outcome.Stopped? ==> j < attempted - 1) ==> !p.RoundStops(j)
        decreases |batch| - attempted, outcome.Completed?
      {
        outcome := Round(world(attempted), start, p, attempted);
        if !outcome.Lost? {
          OneMoreCommitted(p, attempted, outcome == Completed(true));
          attempted := attempted + 1;
          if outcome == Completed(true) { processed := processed + 1; }
        }
      }
      if outcome.Completed? { Unload(start, p, attempted); }
    }

    static lemma NoneCommitted(p: Pass)
      requires p.Valid()
      ensures Committed(p.from.outbox, p.batch, p.world, 0) == 0
    {
    }

    static lemma OneMoreCommitted(p: Pass, k: nat, ok: bool)
      requires p.Valid() && k < |p.batch| && (ok <==> !p.RoundRaises(k))
      ensures Committed(p.from.outbox, p.batch, p.world, k + 1)
           == Committed(p.from.outbox, p.batch, p.world, k) + if ok then 1 else 0
    {
    }

    method Unload(ghost start: S.State, ghost p: Pass, ghost k: nat)
      requires k == |p.batch| && Midway(start, p, k) && AtNext(p, k)
      modifies this
      ensures Midway(start, p, k) && sys.out.worker.Idle?
    {
      hide S.Inv, Progress;
      ghost var before := sys;
      T.LeadsOn(start, sys, S.Work(Finish));
      Take(Finish);
      ProgressStands(p, before.out, sys.out, k);
    }

    /**
     The worker's loop, for a number of passes. However the select orders equal ages, whatever the
     integrations do and wherever passes are cut short, as long as the database accepts claims and
     booked errors and no event is reset: if no older event arrives, a due event has completed
     another round after one pass more than the other events at least as old have attempts left;
     and if no event arrives and each pass outwaits the one before, every event has been delivered
     or has failed after as many passes as there were attempts left in the table.
     */
    method RunLoop(passes: nat, select: (seq<Event>, real) -> seq<nat>, clock: nat -> real,
                   worlds: nat -> nat -> Circumstances, ghost e: nat)
      requires S.Inv(sys) && sys.out.worker.Idle?
      requires forall outbox, now :: IsBatch(outbox, now, 25, select(outbox, now))
      requires forall i: nat, j: nat :: i <= j ==> clock(i) <= clock(j)
      requires forall i, j :: Backoff.IsJitter(worlds(i)(j).jitter)
      modifies this
      ensures S.Inv(sys) && sys.out.worker.Idle? && T.Leads(old(sys), sys, T.AnyStep)
      ensures var a, b := old(sys).out, sys.out;
              && ResetsGrow(a, b) && |a.outbox| <= |b.outbox| && |a.rounds| == |a.outbox| && |b.rounds| == |b.outbox|
              && ((forall n :: Steady(worlds(n))) && Awaited(a, b, clock(0), passes, e) ==> b.rounds[e] > a.rounds[e])
              && (Calm(a, clock, worlds) && Undisturbed(a, b, passes) ==> AllEnded(b.outbox))
    {
      hide S.Inv, Progress, IsBatch, Raises, Starvation.Valid, Starvation.Healthy, T.Leads, Looped, Drained;
      ghost var start, run := sys, [];
      ghost var steady, calm := forall n :: Steady(worlds(n)), Calm(sys.out, clock, worlds);
      T.LeadsNowhere(sys, T.AnyStep);
      LoopStarts(sys, clock, steady, worlds);
      var n := 0;
      while n < passes
        invariant n <= passes && |run| == n && S.Inv(sys) && sys.out.worker.Idle? && T.Leads(start, sys, T.AnyStep)
        invariant Looped(start.out, sys.out, run, clock, steady)
        invariant Drained(start.out, sys.out, n, clock(n), calm)
      {
        assert steady ==> Steady(worlds(n));
        assert calm ==> Steady(worlds(n)) && Outwaits(clock(n + 1), worlds(n));
        ghost var last := OnePass(clock(n), select(sys.out.outbox, clock(n)), worlds(n),
                                  start, run, clock, steady, calm);
        run := run + [last];
        n := n + 1;
      }
      LoopEnds(start, sys, run, clock, steady, calm, e);
    }

    /** A pass and the wait for the next one. */
    method OnePass(now: real, batch: seq<nat>, world: nat -> Circumstances, ghost start: S.State,
                   ghost run: seq<Starvation.Batch>, ghost clock: nat -> real, ghost steady: bool, ghost calm: bool)
      returns (ghost last: Starvation.Batch)
      requires S.Inv(sys) && sys.out.worker.Idle? && T.Leads(start, sys, T.AnyStep)
      requires IsBatch(sys.out.outbox, now, BATCH_SIZE, batch) && now == clock(|run|)
      requires forall i: nat, j: nat :: i <= j ==> clock(i) <= clock(j)
      requires forall i :: Backoff.IsJitter(world(i).jitter)
      requires Looped(start.out, sys.out, run, clock, steady) && Drained(start.out, sys.out, |run|, now, calm)
      requires (steady ==> Steady(world)) && (calm ==> Steady(world) && Outwaits(clock(|run| + 1), world))
      modifies this
      ensures S.Inv(sys) && sys.out.worker.Idle? && T.Leads(start, sys, T.AnyStep)
      ensures Looped(start.out, sys.out, run + [last], clock, steady)
      ensures Drained(start.out, sys.out, |run| + 1, clock(|run| + 1), calm)
    {
      hide S.Inv, Progress, IsBatch, Raises, Starvation.Valid, Starvation.Healthy, T.Leads, Looped, Committed,
           T.WorkerUndisturbed, Drained, Steady, Outwaits, NoResets, ResetsGrow;
      ghost var before := sys;
      var _, attempted := ProcessBatch(now, BATCH_SIZE, batch, world);
      ghost var p := Pass(before.out, now, batch, world);
      if (steady || calm) && batch != [] { SteadyReaches(p, attempted); }
      last := Starvation.Batch(before.out.outbox, sys.out.outbox, now, BATCH_SIZE, batch, attempted);
      PassedOn(p, sys.out, attempted);
      T.LeadsThrough(start, before, sys, T.AnyStep);
      ghost var after := sys;
      Await();
      T.LeadsThrough(start, after, sys, T.NotWorker);
      OthersOnlyAdd(after, sys);
      Bookkept(before);
      Bookkept(after);
      Bookkept(sys);
      OnePassMore(start.out, before.out, after.out, sys.out, run, clock, last, steady);
      LoopedGrows(start.out, before.out, run, clock, steady);
      DrainedMore(start.out, after.out, sys.out, p, attempted, |run|, clock(|run| + 1), calm);
    }

    static lemma LoopedGrows(start: State, now: State, run: seq<Starvation.Batch>, clock: nat -> real, steady: bool)
      requires Looped(start, now, run, clock, steady)
      ensures ResetsGrow(start, now) && |start.outbox| == |start.resets|
    {
    }

    static lemma LoopStarts(s: S.State, clock: nat -> real, steady: bool, worlds: nat -> nat -> Circumstances)
      requires S.Inv(s)
      ensures Looped(s.out, s.out, [], clock, steady)
      ensures Drained(s.out, s.out, 0, clock(0), Calm(s.out, clock, worlds))
    {
    }

    static lemma LoopEnds(start: S.State, s: S.State, run: seq<Starvation.Batch>, clock: nat -> real,
                          steady: bool, calm: bool, e: nat)
      requires S.Inv(start) && S.Inv(s) && Looped(start.out, s.out, run, clock, steady)
      requires Drained(start.out, s.out, |run|, clock(|run|), calm)
      ensures var a, b := start.out, s.out;
              && ResetsGrow(a, b) && |a.outbox| <= |b.outbox| && |a.rounds| == |a.outbox| && |b.rounds| == |b.outbox|
              && (steady && Awaited(a, b, clock(0), |run|, e) ==> b.rounds[e] > a.rounds[e])
              && (calm && Undisturbed(a, b, |run|) ==> AllEnded(b.outbox))
    {
      hide I.RoundsDue, Chain, S.Inv, Starvation.Healthy;
      var a, b := start.out, s.out;
      Bookkept(start);
      Bookkept(s);
      if steady && Awaited(a, b, clock(0), |run|, e) { RoundInTime(run, b.outbox, e, a.resets[e]); }
      if S.TotalRemaining(b.outbox) == 0 { NothingLeft(b.outbox); }
    }

    /** One iteration: claim the next event, route it, and commit; or roll back and book the error. */
    method Round(w: Circumstances, ghost start: S.State, ghost p: Pass, ghost k: nat) returns (outcome: Outcome)
      requires Midway(start, p, k) && AtNext(p, k) && k < |p.batch| && w == p.world(k)
      modifies this
      ensures outcome ==
        if p.RoundLost(k) then Lost else if p.RoundStops(k) then Stopped else Completed(!p.RoundRaises(k))
      ensures Midway(start, p, if outcome.Lost? then k else k + 1)
      ensures if outcome.Completed? then AtNext(p, k + 1) else sys.out.worker.Idle?
    {
      hide S.Inv, Progress, Raises;
      if !w.claims {
        LeaveSession(start, p, k);
        return Lost;
      }
      ClaimNext(start, p, k);
      Pause(start, p, k);
      var raised, results := Route(w, start, p, k);
      if !raised {
        CommitRound(Conclude(w.settings, w.endpoints, results, w.doneAt, w.jitter), start, p, k);
        return Completed(true);
      }
      RollBack(start, p, k);
      Pause(start, p, k);
      if !w.books {
        LeaveSession(start, p, k);
        return Lost;
      }
      CanBook(sys);
      CommitRound(Book(w.bookedAt, w.stop), start, p, k);
      outcome := if w.stop then Stopped else Completed(false);
    }

    /** An exception leaves process_batch: its session closes without a commit. */
    method LeaveSession(ghost start: S.State, ghost p: Pass, ghost k: nat)
      requires Midway(start, p, k)
      modifies this
      ensures Midway(start, p, k) && sys.out.worker.Idle?
    {
      hide S.Inv, Progress;
      ghost var before := sys;
      T.LeadsOn(start, sys, S.Work(Die));
      Take(Die);
      ProgressStands(p, before.out, sys.out, k);
    }

    /** The k-th event of the batch is being worked on. */
    ghost predicate AtRound(p: Pass, k: nat)
      reads this
    {
      && k < |p.batch| && (sys.out.worker.Busy? || sys.out.worker.Failing?) && sys.out.worker.now == p.at
      && Remaining(p, sys.out.worker.todo, k + 1)
      && (if sys.out.worker.Busy? then sys.out.worker.cur.index else sys.out.worker.index) == p.batch[k]
    }

    method ClaimNext(ghost start: S.State, ghost p: Pass, ghost k: nat)
      requires Midway(start, p, k) && AtNext(p, k) && k < |p.batch|
      modifies this
      ensures Midway(start, p, k) && AtRound(p, k) && sys.out.worker.Busy?
    {
      hide S.Inv, Progress;
      ghost var before := sys;
      T.LeadsOn(start, sys, S.Work(Claim));
      Take(Claim);
      ProgressStands(p, before.out, sys.out, k);
    }

    method RollBack(ghost start: S.State, ghost p: Pass, ghost k: nat)
      requires Midway(start, p, k) && AtRound(p, k) && sys.out.worker.Busy?
      modifies this
      ensures Midway(start, p, k) && AtRound(p, k) && sys.out.worker.Failing?
    {
      hide S.Inv, Progress;
      ghost var before := sys;
      T.LeadsOn(start, sys, S.Work(Throw));
      Take(Throw);
      ProgressStands(p, before.out, sys.out, k);
    }

    static lemma CanBook(s: S.State)
      requires S.Inv(s) && s.out.worker.Failing?
      ensures s.out.worker.index < |s.out.outbox| == |s.out.rounds|
    {
    }

    /** A committed or booked round leaves its event as the circumstances say, and no other event changes. */
    static lemma RoundTaken(s: State, step: Step, p: Pass, k: nat)
      requires I.WorkerOk(s) && Enabled(s, step) && p.Valid() && k < |p.batch| && Progress(p, s, k) && Ends(p, k, step)
      requires step.Conclude? ==> s.worker.cur.index == p.batch[k] && s.worker.now == p.at
      requires step.Book? ==> s.worker.index == p.batch[k]
      ensures var t := Do(s, step);
              && |t.outbox| == |s.outbox| && t.resets == s.resets
              && t.outbox[p.batch[k]] == AfterRound(p.from.outbox[p.batch[k]], p.at, p.world(k))
              && forall i :: 0 <= i < |s.outbox| && i != p.batch[k] ==> t.outbox[i] == s.outbox[i]
    {
      assert s.outbox[p.batch[k]] == p.from.outbox[p.batch[k]];
    }

    method CommitRound(step: Step, ghost start: S.State, ghost p: Pass, ghost k: nat)
      requires Midway(start, p, k) && AtRound(p, k) && Enabled(sys.out, step) && Ends(p, k, step)
      modifies this
      ensures Midway(start, p, k + 1)
      ensures if step.Book? && step.stop then sys.out.worker.Idle? else AtNext(p, k + 1)
    {
      hide AfterRound, Raises;
      WorkerIsOk(sys);
      RoundTaken(sys.out, step, p, k);
      T.LeadsOn(start, sys, S.Work(step));
      ghost var before := sys;
      Take(step);
      ProgressByRound(p, before.out, sys.out, k);
    }

    static lemma WorkerIsOk(s: S.State)
      requires S.Inv(s)
      ensures I.WorkerOk(s.out)
    {
    }

    method Pause(ghost start: S.State, ghost p: Pass, ghost k: nat)
      requires Midway(start, p, k)
      modifies this
      ensures Midway(start, p, k) && sys.out.worker == old(sys).out.worker
    {
      hide S.Inv, Progress;
      ghost var before := sys;
      Await();
      T.LeadsThrough(start, before, sys, T.NotWorker);
      ProgressUndisturbed(p, before, sys, k);
    }

    /** Parse the payload, route the claimed event against the current delivery rows, and try to commit. */
    method Route(w: Circumstances, ghost start: S.State, ghost p: Pass, ghost k: nat)
      returns (raised: bool, results: seq<Result>)
      requires Midway(start, p, k) && AtRound(p, k) && sys.out.worker.Busy? && w == p.world(k)
      ensures raised <==> Raises(w, p.from.outbox[p.batch[k]].origin)
      ensures !raised ==> results == AnswersOf(w, p.from.outbox[p.batch[k]].origin)
      ensures !raised ==> C.Contacted(w.settings, w.endpoints, p.from.outbox[p.batch[k]].origin, results)
      ensures !raised ==> Enabled(sys.out, Conclude(w.settings, w.endpoints, results, w.doneAt, w.jitter))
    {
      results := [];
      var event := sys.out.worker.cur.event;
      assert event.origin == p.from.outbox[p.batch[k]].origin;
      if !w.parses { return true, []; }
      var router := new IntegrationRouter(sys.out.rows);
      raised := router.RouteEvent(w.settings, w.endpoints, event.messageId, event.origin, w.replies);
      results := router.results;
      if raised {
        OnlyAdaptersRaise(sys.out.rows, sys.out.attempts, event.messageId,
                          Targets(w.settings, w.endpoints, event.origin), w.replies);
      } else {
        AnswersNameTargets(Targets(w.settings, w.endpoints, event.origin), w.replies);
        raised := !w.commits;
      }
    }

    /** On the rows of a reachable state only an adapter can make route_event raise. */
    static lemma OnlyAdaptersRaise(rows: seq<Delivery>, attempts: seq<Attempt>, m: string, targets: seq<string>,
                                   replies: nat -> Reply)
      requires I.UniqueRows(rows) && I.Counted(rows, attempts)
      requires IntegrationRouter.Stuck(rows, m, targets, replies)
      ensures exists i: nat :: i < |targets| && replies(i).Broken?
    {
      var n: nat :| n < |targets| && IntegrationRouter.StuckAt(rows, m, targets, replies, n);
      if replies(n).Answer? {
        I.UpdateAllKeeps(rows, attempts, m, Answers(targets[..n + 1], replies));
      }
    }
  }
}
