/** The administrator's manual retry of a delivery, as a task on the shared database. */
module Admin {
  import opened Wrappers
  import opened Outbox
  import S = System

  class AdminApi {
    var sys: S.State

    constructor (sys: S.State)
      ensures this.sys == sys
    {
      this.sys := sys;
    }

    static lemma CanRetry(s: S.State, row: nat, now: real)
      requires S.Inv(s) && row < |s.out.rows|
      ensures S.Enabled(s, S.Work(AdminRetry(row, now))) && |s.out.resets| == |s.out.outbox|
    {
    }

    /** The event after the bulk update: a failed one is pending, due and without retries; all else stands. */
    static predicate IsReset(e: Event, f: Event, now: real) {
      && f.messageId == e.messageId && f.sequence == e.sequence && f.origin == e.origin
      && f.maxRetries == e.maxRetries && f.createdAt == e.createdAt
      && f.lockedAt == e.lockedAt && f.completedAt == e.completedAt
      && (e.status == Failed ==> f.status == Pending && f.nextAttemptAt == now && f.retryCount == 0)
      && (e.status != Failed ==> f == e)
    }

    /** The picked delivery row after it: queued, with the reason; all else stands. */
    static predicate IsRequeued(row: Delivery, after: Delivery) {
      && after.status == Queued && after.failureReason == Some("Manual retry requested by admin")
      && after.messageId == row.messageId && after.integration == row.integration
      && after.attempts == row.attempts && after.externalId == row.externalId
    }

    static lemma ResetsAll(outbox: seq<Event>, now: real)
      ensures forall e :: 0 <= e < |outbox| ==> IsReset(outbox[e], ResetAll(outbox, now)[e], now)
    {
    }

    /** What one manual retry does to the tables. */
    static lemma RetryDoes(s: S.State, row: nat, now: real)
      requires row < |s.out.rows| && |s.out.resets| == |s.out.outbox|
      ensures
        var s' := S.Do(s, S.Work(AdminRetry(row, now)));
        && s'.log == s.log && s'.out.worker == s.out.worker
        && s'.out.rows == s.out.rows[row := Requeued(s.out.rows[row])]
        && s'.out.outbox == ResetAll(s.out.outbox, now)
    {
      hide ResetAll, CountResets, Requeued;
    }

    /**
     retry_delivery: requeue the picked row and reset every failed event of the table, whichever
     message it belongs to; an unknown row changes nothing. No event is created or destroyed.
     */
    method RetryDelivery(row: nat, now: real) returns (found: bool)
      requires S.Inv(sys)
      modifies this
      ensures S.Inv(sys) && sys.log == old(sys).log && sys.out.worker == old(sys).out.worker
      ensures found <==> row < |old(sys).out.rows|
      ensures !found ==> sys == old(sys)
      ensures |sys.out.rows| == |old(sys).out.rows|
      ensures forall i :: 0 <= i < |sys.out.rows| && i != row ==> sys.out.rows[i] == old(sys).out.rows[i]
      ensures found ==> IsRequeued(old(sys).out.rows[row], sys.out.rows[row])
      ensures |sys.out.outbox| == |old(sys).out.outbox|
      ensures found ==> forall e :: 0 <= e < |sys.out.outbox| ==>
        IsReset(old(sys).out.outbox[e], sys.out.outbox[e], now)
    {
      hide S.Inv, S.Do, IsReset, ResetAll;
      found := row < |sys.out.rows|;
      if found {
        CanRetry(sys, row, now);
        RetryDoes(sys, row, now);
        ResetsAll(sys.out.outbox, now);
        S.StepKeepsInv(sys, S.Work(AdminRetry(row, now)));
        sys := S.Do(sys, S.Work(AdminRetry(row, now)));
      }
    }
  }
}
