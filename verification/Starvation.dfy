/**
 Whole batches of the worker, seen from the outbox: which events a batch attempted and what it
 left. Older events can delay a due one, but only by using up their own remaining attempts.
 */
module Starvation {
  import opened Outbox
  import I = OutboxInvariant

  /** e' is e after one completed round, by commit or by booked error. */
  ghost predicate Ran(e: Event, e': Event) {
    || (exists ok, claimed, now, jitter :: e' == Concluded(Claimed(e, claimed), ok, now, jitter))
    || (exists now :: e' == Errored(e, now))
  }

  /** One call of process_batch: the first `attempted` of the picked events had their round. */
  datatype Batch = Batch(pre: seq<Event>, post: seq<Event>, now: real, size: nat, picked: seq<nat>, attempted: nat)

  predicate Attempts(b: Batch, e: nat)
    requires b.attempted <= |b.picked|
  {
    e in b.picked[..b.attempted]
  }

  /**
   A batch without administrator resets. It may be cut short, but not before its first round is
   booked; sends may append events meanwhile.
   */
  ghost predicate Valid(b: Batch) {
    && IsBatch(b.pre, b.now, b.size, b.picked)
    && b.attempted <= |b.picked| && (b.picked != [] ==> b.attempted >= 1)
    && |b.pre| <= |b.post|
    && forall i :: 0 <= i < |b.pre| ==> if Attempts(b, i) then Ran(b.pre[i], b.post[i]) else b.post[i] == b.pre[i]
  }

  /** b follows a: only appended events in between, and the clock does not run back. */
  predicate Follows(a: Batch, b: Batch) {
    a.post <= b.pre && a.now <= b.now
  }

  ghost predicate Healthy(outbox: seq<Event>) {
    forall i :: 0 <= i < |outbox| ==> I.EventOk(outbox[i])
  }

  /** Everything appended after the first n events is younger than event e. */
  ghost predicate OthersYounger(outbox: seq<Event>, n: nat, e: nat)
    requires e < n <= |outbox|
  {
    forall i :: n <= i < |outbox| ==> outbox[i].createdAt > outbox[e].createdAt
  }

  /** Successive batches with positive limits, over healthy tables that only grow by younger events. */
  ghost predicate Schedule(run: seq<Batch>, e: nat) {
    && (forall k :: 0 <= k < |run| ==> Valid(run[k]) && run[k].size >= 1 && Healthy(run[k].pre))
    && (forall k :: 0 < k < |run| ==> Follows(run[k - 1], run[k]))
    && (forall k :: 0 <= k < |run| ==> e < |run[0].pre| <= |run[k].pre| && OthersYounger(run[k].pre, |run[0].pre|, e))
  }

  /** Event i competes with e: at least as old, and with attempts left. */
  function Claim(outbox: seq<Event>, e: nat, i: nat): nat
    requires e < |outbox| && i < |outbox|
  {
    if i != e && outbox[i].createdAt <= outbox[e].createdAt then outbox[i].Remaining() else 0
  }

  /** The remaining attempts of the other events at least as old as e, among the first n. */
  function OlderClaims(outbox: seq<Event>, e: nat, n: nat): nat
    requires e < |outbox| && n <= |outbox|
  {
    if n == 0 then 0 else OlderClaims(outbox, e, n - 1) + Claim(outbox, e, n - 1)
  }

  lemma {:induction false} ClaimsShrink(a: seq<Event>, b: seq<Event>, e: nat, n: nat, f: nat)
    requires e < |a| && e < |b| && n <= |a| && n <= |b|
    requires forall i :: 0 <= i < n ==> Claim(b, e, i) <= Claim(a, e, i)
    requires f < n ==> Claim(b, e, f) < Claim(a, e, f)
    ensures OlderClaims(b, e, n) <= OlderClaims(a, e, n)
    ensures f < n ==> OlderClaims(b, e, n) < OlderClaims(a, e, n)
  {
    if n > 0 { ClaimsShrink(a, b, e, n - 1, f); }
  }

  /** A batch that leaves a due event out has a first event that is older and gets its round. */
  lemma FirstIsOlder(b: Batch, e: nat)
    requires Valid(b) && b.size >= 1 && e < |b.pre| && b.pre[e].Due(b.now) && !Attempts(b, e)
    ensures b.picked != [] && b.picked[0] != e && Attempts(b, b.picked[0])
    ensures b.pre[b.picked[0]].createdAt <= b.pre[e].createdAt
    ensures b.post[e] == b.pre[e]
  {
    assert b.picked != [];
    assert b.picked[..b.attempted][0] == b.picked[0];
    if e in b.picked {
      var j :| 0 <= j < |b.picked| && b.picked[j] == e;
    }
  }

  lemma RoundShrinksClaim(b: Batch, e: nat, i: nat)
    requires Valid(b) && Healthy(b.pre) && e < |b.pre| && b.post[e] == b.pre[e] && i < |b.pre|
    ensures Claim(b.post, e, i) <= Claim(b.pre, e, i)
    ensures Attempts(b, i) && i != e && b.pre[i].createdAt <= b.pre[e].createdAt
      ==> Claim(b.post, e, i) < Claim(b.pre, e, i)
  {
    if Attempts(b, i) {
      var j :| 0 <= j < b.attempted && b.picked[j] == i;
      assert b.pre[i].Due(b.now) && Ran(b.pre[i], b.post[i]);
      I.RoundKeepsEvent(b.pre[i], b.post[i], 0);
    }
  }

  /** Passing over a due event costs the older ones at least one attempt. */
  lemma PassingOverCosts(b: Batch, e: nat, n: nat)
    requires Valid(b) && Healthy(b.pre) && b.size >= 1 && e < n <= |b.pre| && OthersYounger(b.pre, n, e)
    requires b.pre[e].Due(b.now) && !Attempts(b, e)
    ensures b.post[e] == b.pre[e] && OlderClaims(b.post, e, n) < OlderClaims(b.pre, e, n)
  {
    FirstIsOlder(b, e);
    forall i: nat | i < n ensures Claim(b.post, e, i) <= Claim(b.pre, e, i) {
      RoundShrinksClaim(b, e, i);
    }
    RoundShrinksClaim(b, e, b.picked[0]);
    ClaimsShrink(b.pre, b.post, e, n, b.picked[0]);
  }

  lemma SamePrefixSameClaims(a: seq<Event>, b: seq<Event>, e: nat, n: nat)
    requires e < n <= |a| && a <= b
    ensures OlderClaims(b, e, n) == OlderClaims(a, e, n)
  {
    ClaimsShrink(a, b, e, n, n);
    ClaimsShrink(b, a, e, n, n);
  }

  /** While e is passed over it stays due, and each batch has paid one older attempt. */
  lemma {:induction false} PassedOverUntil(run: seq<Batch>, e: nat, k: nat)
    requires Schedule(run, e) && k < |run|
    requires e < |run[0].pre| && run[0].pre[e].Due(run[0].now)
    requires forall j :: 0 <= j < k ==> run[j].attempted <= |run[j].picked| && !Attempts(run[j], e)
    ensures run[k].pre[e] == run[0].pre[e] && run[k].pre[e].Due(run[k].now)
    ensures OlderClaims(run[k].pre, e, |run[0].pre|) + k <= OlderClaims(run[0].pre, e, |run[0].pre|)
  {
    if k > 0 {
      PassedOverUntil(run, e, k - 1);
      var b, n := run[k - 1], |run[0].pre|;
      assert Valid(b) && Follows(b, run[k]);
      PassingOverCosts(b, e, n);
      SamePrefixSameClaims(b.post, run[k].pre, e, n);
    }
  }

  /**
   Starvation freedom: without resets and without new older events, a due event is attempted
   within 1 + (remaining attempts of the events at least as old) batches.
   */
  lemma AttemptedInTime(run: seq<Batch>, e: nat) returns (k: nat)
    requires Schedule(run, e) && run != []
    requires e < |run[0].pre| && run[0].pre[e].Due(run[0].now)
    requires |run| >= 1 + OlderClaims(run[0].pre, e, |run[0].pre|)
    ensures k <= OlderClaims(run[0].pre, e, |run[0].pre|) && k < |run|
    ensures run[k].attempted <= |run[k].picked| && Attempts(run[k], e)
  {
    var last := OlderClaims(run[0].pre, e, |run[0].pre|);
    k := 0;
    while k < last && !Attempts(run[k], e)
      invariant k <= last
      invariant forall j :: 0 <= j < k ==> run[j].attempted <= |run[j].picked| && !Attempts(run[j], e)
      invariant Valid(run[k])
    {
      k := k + 1;
    }
    if !Attempts(run[k], e) {
      PassedOverUntil(run, e, k);
      assert Healthy(run[k].pre) && OthersYounger(run[k].pre, |run[0].pre|, e);
      PassingOverCosts(run[k], e, |run[0].pre|);
    }
  }
}
