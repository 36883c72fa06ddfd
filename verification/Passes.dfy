/** A pass of the worker over a batch of events, one round each, and what it leaves; and pass after pass. */
module Passes {
  import opened Wrappers
  import opened Outbox
  import opened Router
  import Backoff
  import I = OutboxInvariant
  import S = System
  import Starvation
  import T = Tasks

  /**
   Everything outside the program that decides one round. `claims`, `commits` and `books` say
   whether the flush of the claim, the commit and the commit of the booked error go through;
   `stop` that after the rollback the next event object cannot be read.
   */
  datatype Circumstances = Circumstances(claims: bool, parses: bool, settings: Settings, endpoints: seq<Endpoint>,
                                         replies: nat -> Reply, commits: bool, books: bool,
                                         doneAt: real, jitter: real, bookedAt: real, stop: bool)

  predicate AdapterRaises(w: Circumstances, origin: string) {
    exists i: nat :: i < |Targets(w.settings, w.endpoints, origin)| && w.replies(i).Broken?
  }

  /** The round of an event of this origin ends in the exception branch. */
  predicate Raises(w: Circumstances, origin: string) {
    !w.parses || AdapterRaises(w, origin) || !w.commits
  }

  /** What the integrations answer in a round that does not raise. */
  function AnswersOf(w: Circumstances, origin: string): seq<Result>
    requires !AdapterRaises(w, origin)
  {
    var targets := Targets(w.settings, w.endpoints, origin);
    assert forall i: nat :: i < |targets| ==> w.replies(i).Answer?;
    Answers(targets, w.replies)
  }

  /** The event after its round, given what it was when the batch was loaded. */
  function AfterRound(e: Event, at: real, w: Circumstances): Event {
    if Raises(w, e.origin) then Errored(e, w.bookedAt)
    else Concluded(Claimed(e, at), AllOk(AnswersOf(w, e.origin)), w.doneAt, w.jitter)
  }

  /** What a round leaves of its event, column by column. */
  ghost predicate Left(e: Event, f: Event, at: real, w: Circumstances) {
    && f.messageId == e.messageId && f.sequence == e.sequence && f.origin == e.origin
    && f.maxRetries == e.maxRetries && f.createdAt == e.createdAt
    && if Raises(w, e.origin) then LeftByError(e, f, w.bookedAt)
       else
         && f.lockedAt == Some(at)
         && (f.status == Delivered <==> forall i: nat ::
               i < |Targets(w.settings, w.endpoints, e.origin)| ==> w.replies(i).Answer? && w.replies(i).success)
         && if f.status == Delivered then
              f.retryCount == e.retryCount && f.nextAttemptAt == e.nextAttemptAt && f.completedAt == Some(w.doneAt)
            else LeftByFailure(e, f, w.doneAt)
  }

  /** After an exception: one retry more, ten seconds on, and dead exactly at the limit. */
  ghost predicate LeftByError(e: Event, f: Event, bookedAt: real) {
    && f.retryCount == e.retryCount + 1 && f.nextAttemptAt == bookedAt + 10.0
    && (if f.retryCount >= e.maxRetries then f.status == Failed else f.status == Retrying)
    && f.lockedAt == e.lockedAt && f.completedAt == e.completedAt
  }

  /** After a failed send: one retry more, a backoff with its jitter, and dead exactly at the limit. */
  ghost predicate LeftByFailure(e: Event, f: Event, doneAt: real) {
    var n := e.retryCount + 1;
    && f.retryCount == n && f.completedAt == e.completedAt
    && if n >= e.maxRetries then f.status == Failed && f.nextAttemptAt == e.nextAttemptAt
       else
         && f.status == Retrying
         && doneAt + Backoff.Capped(Backoff.Pow2(n) as real + 0.1) <= f.nextAttemptAt
         && f.nextAttemptAt <= doneAt + Backoff.Capped(Backoff.Pow2(n) as real + 1.5)
  }

  lemma AfterRoundLeaves(e: Event, at: real, w: Circumstances)
    requires 0.1 <= w.jitter <= 1.5
    ensures Left(e, AfterRound(e, at, w), at, w)
  {
    if !Raises(w, e.origin) {
      Backoff.WaitBounds(e.retryCount + 1, w.jitter);
      AllAnswered(w, e.origin);
    }
  }

  lemma AllAnswered(w: Circumstances, origin: string)
    requires !AdapterRaises(w, origin)
    ensures AllOk(AnswersOf(w, origin)) <==>
      forall i: nat :: i < |Targets(w.settings, w.endpoints, origin)| ==> w.replies(i).Answer? && w.replies(i).success
  {
    var r := AnswersOf(w, origin);
    forall i: nat | i < |r| ensures r[i] in r && r[i].success == w.replies(i).success {
    }
  }

  /** The rounds among the first k of the batch that ran to their commit. */
  function Committed(outbox: seq<Event>, batch: seq<nat>, world: nat -> Circumstances, k: nat): nat
    requires k <= |batch| && forall j :: 0 <= j < |batch| ==> batch[j] < |outbox|
  {
    if k == 0 then 0
    else Committed(outbox, batch, world, k - 1) + if Raises(world(k - 1), outbox[batch[k - 1]].origin) then 0 else 1
  }

  /** A pass over a batch: what it loaded, when, which events, and what the world does in each round. */
  datatype Pass = Pass(from: State, at: real, batch: seq<nat>, world: nat -> Circumstances)
  {
    ghost predicate Valid() {
      && |from.resets| == |from.outbox|
      && (forall j :: 0 <= j < |batch| ==> batch[j] < |from.outbox| && from.outbox[batch[j]].Live())
      && (forall i, j :: 0 <= i < j < |batch| ==> batch[i] != batch[j])
      && (forall j :: Backoff.IsJitter(world(j).jitter))
    }

    predicate RoundRaises(j: nat)
      requires j < |batch| && batch[j] < |from.outbox|
    {
      Raises(world(j), from.outbox[batch[j]].origin)
    }

    /** The round of the j-th event ends the pass: its exception leaves the session unusable. */
    predicate RoundStops(j: nat)
      requires j < |batch| && batch[j] < |from.outbox|
    {
      RoundRaises(j) && world(j).stop
    }

    /** The round of the j-th event leaves no trace: it cannot be claimed, or its error cannot be booked. */
    predicate RoundLost(j: nat)
      requires j < |batch| && batch[j] < |from.outbox|
    {
      !world(j).claims || (RoundRaises(j) && !world(j).books)
    }

    /** How far the pass gets: k rounds, none lost, and no more only because the next one stops it. */
    predicate Reaches(k: nat)
      requires k <= |batch| && forall j :: 0 <= j < |batch| ==> batch[j] < |from.outbox|
    {
      && (forall j :: 0 <= j < k ==> !RoundLost(j))
      && (forall j :: 0 <= j < k - 1 ==> !RoundStops(j))
      && (k < |batch| ==> (k > 0 && RoundStops(k - 1)) || RoundLost(k))
    }
  }

  /** After k rounds, events not reset since: the first k of the batch had their round, all others are as loaded. */
  ghost predicate Progress(p: Pass, now: State, k: nat)
    requires p.Valid() && k <= |p.batch|
  {
    && |p.from.outbox| <= |now.outbox| && |now.resets| == |now.outbox|
    && (forall i :: 0 <= i < |p.from.outbox| ==> p.from.resets[i] <= now.resets[i])
    && (forall i :: 0 <= i < |p.from.outbox| && i !in p.batch && now.resets[i] == p.from.resets[i]
          ==> now.outbox[i] == p.from.outbox[i])
    && (forall j :: k <= j < |p.batch| ==> now.outbox[p.batch[j]] == p.from.outbox[p.batch[j]])
    && (forall j :: 0 <= j < k && now.resets[p.batch[j]] == p.from.resets[p.batch[j]]
          ==> now.outbox[p.batch[j]] == AfterRound(p.from.outbox[p.batch[j]], p.at, p.world(j)))
  }

  /** The batch's events from the k-th on are the ones still to do. */
  ghost predicate Remaining(p: Pass, todo: seq<Copy>, k: nat) {
    k + |todo| == |p.batch| && forall j :: 0 <= j < |todo| ==> todo[j].index == p.batch[k + j]
  }

  /** Progress is about the tables alone. */
  lemma ProgressStands(p: Pass, a: State, b: State, k: nat)
    requires p.Valid() && k <= |p.batch| && Progress(p, a, k) && b.outbox == a.outbox && b.resets == a.resets
    ensures Progress(p, b, k)
  {
  }

  lemma ProgressUndisturbed(p: Pass, a: S.State, b: S.State, k: nat)
    requires p.Valid() && k <= |p.batch| && Progress(p, a.out, k) && T.WorkerUndisturbed(a, b)
    ensures Progress(p, b.out, k)
  {
    forall i | 0 <= i < |p.from.outbox|
      ensures p.from.resets[i] <= b.out.resets[i]
      ensures p.from.resets[i] == b.out.resets[i] || a.out.outbox[i].Live() ==> b.out.outbox[i] == a.out.outbox[i]
      ensures p.from.resets[i] == b.out.resets[i] ==> p.from.resets[i] == a.out.resets[i]
    {
      assert a.out.resets[i] <= b.out.resets[i];
    }
  }

  lemma ProgressByRound(p: Pass, a: State, b: State, k: nat)
    requires p.Valid() && k < |p.batch| && Progress(p, a, k)
    requires b.resets == a.resets && |b.outbox| == |a.outbox|
    requires forall i :: 0 <= i < |a.outbox| && i != p.batch[k] ==> b.outbox[i] == a.outbox[i]
    requires b.outbox[p.batch[k]] == AfterRound(p.from.outbox[p.batch[k]], p.at, p.world(k))
    ensures Progress(p, b, k + 1)
  {
    hide AfterRound;
    assert p.batch[k] in p.batch;
    assert forall j :: 0 <= j < |p.batch| && j != k ==> p.batch[j] != p.batch[k];
  }

  /** No administrator has reset any of the events of `from`. */
  predicate NoResets(from: State, now: State) {
    from.resets <= now.resets
  }

  /** Without resets, a pass is a batch in the sense of the starvation theorem. */
  lemma ProgressIsValid(p: Pass, now: State, size: nat, k: nat)
    requires p.Valid() && k <= |p.batch| && Progress(p, now, k) && IsBatch(p.from.outbox, p.at, size, p.batch)
    ensures NoResets(p.from, now) && (p.batch != [] ==> k >= 1) ==>
              Starvation.Valid(Starvation.Batch(p.from.outbox, now.outbox, p.at, size, p.batch, k))
  {
    if NoResets(p.from, now) && (p.batch != [] ==> k >= 1) {
      forall i: nat | i < |p.from.outbox|
        ensures if i in p.batch[..k] then Starvation.Ran(p.from.outbox[i], now.outbox[i])
                else now.outbox[i] == p.from.outbox[i]
      {
        if i in p.batch {
          var j :| 0 <= j < |p.batch| && p.batch[j] == i;
          assert j < k <==> i in p.batch[..k];
        }
      }
    }
  }

  /**
   What a pass leaves of the events nobody reset meanwhile: the attempted ones as their rounds
   say, and everything else as it was, above all events whose time had not come or was over.
   */
  ghost predicate LeftByPass(p: Pass, now: State, k: nat)
    requires p.Valid() && k <= |p.batch| && |p.from.outbox| <= |now.outbox| && |now.resets| == |now.outbox|
  {
    && (forall j :: 0 <= j < k && now.resets[p.batch[j]] == p.from.resets[p.batch[j]] ==>
         Left(p.from.outbox[p.batch[j]], now.outbox[p.batch[j]], p.at, p.world(j)))
    && (forall i :: 0 <= i < |p.from.outbox| && now.resets[i] == p.from.resets[i] && i !in p.batch[..k] ==>
         now.outbox[i] == p.from.outbox[i])
    && (forall i :: 0 <= i < |p.from.outbox| && now.resets[i] == p.from.resets[i]
          && (p.from.outbox[i].nextAttemptAt > p.at || p.from.outbox[i].status == Delivered
              || p.from.outbox[i].status == Failed)
         ==> now.outbox[i] == p.from.outbox[i])
  }

  lemma PassLeaves(p: Pass, now: State, size: nat, k: nat)
    requires p.Valid() && k <= |p.batch| && Progress(p, now, k) && IsBatch(p.from.outbox, p.at, size, p.batch)
    ensures LeftByPass(p, now, k)
  {
    hide AfterRound, Left;
    forall j | 0 <= j < k && now.resets[p.batch[j]] == p.from.resets[p.batch[j]]
      ensures Left(p.from.outbox[p.batch[j]], now.outbox[p.batch[j]], p.at, p.world(j))
    {
      AfterRoundLeaves(p.from.outbox[p.batch[j]], p.at, p.world(j));
    }
    forall i | 0 <= i < |p.from.outbox| && i in p.batch && i !in p.batch[..k]
      ensures now.outbox[i] == p.from.outbox[i]
    {
      var j :| 0 <= j < |p.batch| && p.batch[j] == i;
      assert forall n :: 0 <= n < k ==> p.batch[..k][n] == p.batch[n];
    }
  }

  /** The step that ends the k-th round as its circumstances say. */
  ghost predicate Ends(p: Pass, k: nat, step: Step)
    requires p.Valid() && k < |p.batch|
  {
    var w, e := p.world(k), p.from.outbox[p.batch[k]];
    if Raises(w, e.origin) then step == Book(w.bookedAt, w.stop)
    else step == Conclude(w.settings, w.endpoints, AnswersOf(w, e.origin), w.doneAt, w.jitter)
  }

  // ---------------------------------------------------------------- pass after pass

  const BATCH_SIZE := 25

  predicate ResetsGrow(a: State, b: State) {
    |a.resets| <= |b.resets| && forall i :: 0 <= i < |a.resets| ==> a.resets[i] <= b.resets[i]
  }

  /** No administrator has reset an event since `from`, nor any that came later. */
  predicate Unreset(from: State, now: State) {
    from.resets <= now.resets && forall i :: |from.resets| <= i < |now.resets| ==> now.resets[i] == 0
  }

  lemma UnresetBetween(a: State, b: State, c: State)
    requires ResetsGrow(a, b) && ResetsGrow(b, c) && Unreset(a, c)
    ensures Unreset(a, b) && NoResets(b, c)
  {
    forall i | 0 <= i < |b.resets|
      ensures b.resets[i] == c.resets[i] && (i < |a.resets| ==> b.resets[i] == a.resets[i])
    {
    }
  }

  /** The passes so far, as long as nobody resets an event: what the starvation theorem asks of a schedule. */
  ghost predicate Chain(run: seq<Starvation.Batch>, outbox: seq<Event>) {
    && (forall k :: 0 <= k < |run| ==> Starvation.Valid(run[k]) && run[k].size >= 1 && Starvation.Healthy(run[k].pre))
    && (forall k :: 0 < k < |run| ==> Starvation.Follows(run[k - 1], run[k]))
    && (forall k :: 0 <= k < |run| ==> SameAges(run[k].pre, outbox))
    && (run != [] ==> run[|run| - 1].post <= outbox)
  }

  ghost predicate SameAges(a: seq<Event>, b: seq<Event>) {
    |a| <= |b| && forall i :: 0 <= i < |a| ==> a[i].createdAt == b[i].createdAt
  }

  lemma ChainGrows(run: seq<Starvation.Batch>, outbox: seq<Event>, b: Starvation.Batch, outbox': seq<Event>)
    requires Chain(run, outbox) && b.pre == outbox && b.post <= outbox'
    requires Starvation.Valid(b) && b.size >= 1 && Starvation.Healthy(b.pre)
    requires run != [] ==> run[|run| - 1].now <= b.now
    ensures Chain(run + [b], outbox')
  {
    hide Starvation.Valid, Starvation.Healthy, SameAges;
    PassKeepsAges(b, outbox');
    var run' := run + [b];
    forall k | 0 <= k < |run'| ensures SameAges(run'[k].pre, outbox') {
      if k < |run| { AgesTransitive(run[k].pre, outbox, outbox'); }
    }
  }

  lemma AgesTransitive(a: seq<Event>, b: seq<Event>, c: seq<Event>)
    requires SameAges(a, b) && SameAges(b, c)
    ensures SameAges(a, c)
  {
  }

  lemma PassKeepsAges(b: Starvation.Batch, outbox: seq<Event>)
    requires Starvation.Valid(b) && b.post <= outbox
    ensures SameAges(b.pre, outbox)
  {
    assert forall i :: 0 <= i < |b.pre| ==> b.post[i] == outbox[i];
  }

  lemma {:induction false} RoundsNeverShrink(run: seq<Starvation.Batch>, outbox: seq<Event>, e: nat, j: nat, r: nat)
    requires Chain(run, outbox) && j < |run| && e < |run[j].pre|
    ensures e < |outbox| && e < |run[j].post|
    ensures I.RoundsDue(run[j].pre[e], r) <= I.RoundsDue(run[j].post[e], r) <= I.RoundsDue(outbox[e], r)
    decreases |run| - j
  {
    PassAddsRounds(run[j], e, r);
    if j + 1 < |run| {
      assert Starvation.Follows(run[(j + 1) - 1], run[j + 1]);
      RoundsNeverShrink(run, outbox, e, j + 1, r);
    }
  }

  lemma PassAddsRounds(b: Starvation.Batch, e: nat, r: nat)
    requires Starvation.Valid(b) && Starvation.Healthy(b.pre) && e < |b.pre|
    ensures I.RoundsDue(b.post[e], r) == I.RoundsDue(b.pre[e], r) + if Starvation.Attempts(b, e) then 1 else 0
  {
    if Starvation.Attempts(b, e) {
      var j :| 0 <= j < b.attempted && b.picked[j] == e;
      assert b.pre[e].Due(b.now);
      I.RoundKeepsEvent(b.pre[e], b.post[e], r);
    }
  }

  /** Enough passes give a due event its round, and its count of rounds shows it. */
  lemma RoundInTime(run: seq<Starvation.Batch>, outbox: seq<Event>, e: nat, r: nat)
    requires Chain(run, outbox) && run != [] && e < |run[0].pre| && run[0].pre[e].Due(run[0].now)
    requires |run| >= 1 + Starvation.OlderClaims(run[0].pre, e, |run[0].pre|)
    requires |run[0].pre| <= |outbox| && Starvation.OthersYounger(outbox, |run[0].pre|, e)
    requires forall k :: 0 <= k < |run| ==> |run[0].pre| <= |run[k].pre|
    ensures e < |outbox| && I.RoundsDue(outbox[e], r) > I.RoundsDue(run[0].pre[e], r)
  {
    hide I.RoundsDue, Starvation.Valid, Starvation.Healthy;
    forall k | 0 <= k < |run| ensures Starvation.OthersYounger(run[k].pre, |run[0].pre|, e) {
      assert SameAges(run[k].pre, outbox);
    }
    var k := Starvation.AttemptedInTime(run, e);
    RoundsNeverShrink(run, outbox, e, k, r);
    PassAddsRounds(run[k], e, r);
    RoundsSoFar(run, outbox, e, k, r);
  }

  lemma {:induction false} RoundsSoFar(run: seq<Starvation.Batch>, outbox: seq<Event>, e: nat, k: nat, r: nat)
    requires Chain(run, outbox) && k < |run| && e < |run[0].pre|
    ensures e < |run[k].pre| && I.RoundsDue(run[0].pre[e], r) <= I.RoundsDue(run[k].pre[e], r)
  {
    hide I.RoundsDue;
    if k > 0 {
      RoundsSoFar(run, outbox, e, k - 1, r);
      assert Starvation.Valid(run[k - 1]) && Starvation.Healthy(run[k - 1].pre);
      PassAddsRounds(run[k - 1], e, r);
      assert Starvation.Follows(run[k - 1], run[k]);
    }
  }

  /** The database accepts every claim and every booked error. */
  ghost predicate Steady(world: nat -> Circumstances) {
    forall j :: world(j).claims && world(j).books
  }

  /** The loop after some passes from `start`, as long as the database was steady. */
  ghost predicate Looped(start: State, now: State, run: seq<Starvation.Batch>, clock: nat -> real, steady: bool) {
    && |start.outbox| == |start.resets| && |now.outbox| == |now.resets| && ResetsGrow(start, now)
    && (run == [] ==> start == now)
    && (steady && Unreset(start, now) ==>
          && Chain(run, now.outbox)
          && (run != [] ==> run[0].pre == start.outbox && run[0].now == clock(0))
          && (run != [] ==> run[|run| - 1].now == clock(|run| - 1))
          && forall k :: 0 <= k < |run| ==> |start.outbox| <= |run[k].pre|)
  }

  /** Event e was due at the start, enough passes were made, nothing was reset and nothing older arrived. */
  ghost predicate Awaited(start: State, now: State, from: real, passes: nat, e: nat) {
    && e < |start.outbox| <= |now.outbox| && start.outbox[e].Due(from)
    && passes >= 1 + Starvation.OlderClaims(start.outbox, e, |start.outbox|)
    && Unreset(start, now) && Starvation.OthersYounger(now.outbox, |start.outbox|, e)
  }

  lemma OnePassMore(start: State, a: State, b: State, c: State, run: seq<Starvation.Batch>, clock: nat -> real,
                    last: Starvation.Batch, steady: bool)
    requires forall i: nat, j: nat :: i <= j ==> clock(i) <= clock(j)
    requires Looped(start, a, run, clock, steady) && Starvation.Healthy(a.outbox)
    requires last.pre == a.outbox && last.post == b.outbox && last.size == BATCH_SIZE && last.now == clock(|run|)
    requires steady && NoResets(a, b) ==> Starvation.Valid(last)
    requires |b.outbox| == |b.resets| && |c.outbox| == |c.resets| && ResetsGrow(a, b) && ResetsGrow(b, c)
    requires NoResets(b, c) ==> b.outbox <= c.outbox
    ensures Looped(start, c, run + [last], clock, steady)
  {
    hide Starvation.Valid, Starvation.Healthy, Chain;
    if steady && Unreset(start, c) {
      UnresetBetween(start, a, c);
      UnresetBetween(a, b, c);
      ChainGrows(run, a.outbox, last, c.outbox);
    }
  }

  lemma OthersOnlyAdd(a: S.State, b: S.State)
    requires T.WorkerUndisturbed(a, b)
    ensures ResetsGrow(a.out, b.out) && (NoResets(a.out, b.out) ==> a.out.outbox <= b.out.outbox)
  {
  }

  lemma PassedOn(p: Pass, now: State, k: nat)
    requires p.Valid() && k <= |p.batch| && Progress(p, now, k)
    ensures ResetsGrow(p.from, now)
  {
  }

  // ---------------------------------------------------------------- until nothing is left to do

  /** Every live event's time has come. */
  ghost predicate AllDue(outbox: seq<Event>, now: real) {
    forall i :: 0 <= i < |outbox| && outbox[i].Live() ==> outbox[i].nextAttemptAt <= now
  }

  /** By `next`, all waits that a pass in this world can impose are over. */
  ghost predicate Outwaits(next: real, world: nat -> Circumstances) {
    forall j :: world(j).doneAt + Backoff.MAX_WAIT <= next && world(j).bookedAt + 10.0 <= next
  }

  lemma {:induction false} TotalShrinks(a: seq<Event>, b: seq<Event>, f: nat)
    requires |a| == |b| && forall i :: 0 <= i < |a| ==> b[i].Remaining() <= a[i].Remaining()
    requires f < |a| ==> b[f].Remaining() < a[f].Remaining()
    ensures S.TotalRemaining(b) <= S.TotalRemaining(a)
    ensures f < |a| ==> S.TotalRemaining(b) < S.TotalRemaining(a)
  {
    if a != [] {
      assert forall i :: 0 <= i < |a| - 1 ==> b[1..][i] == b[i + 1] && a[1..][i] == a[i + 1];
      TotalShrinks(a[1..], b[1..], if f == 0 then |a| else f - 1);
    }
  }

  lemma {:induction false} NoneRemaining(outbox: seq<Event>)
    ensures S.TotalRemaining(outbox) == 0 <==> forall i :: 0 <= i < |outbox| ==> outbox[i].Remaining() == 0
  {
    if outbox != [] {
      NoneRemaining(outbox[1..]);
      assert forall i :: 0 < i < |outbox| ==> outbox[1..][i - 1] == outbox[i];
    }
  }

  /** A round leaves its event with fewer attempts, and a wait that the next pass outwaits. */
  lemma RoundOutwaited(e: Event, at: real, w: Circumstances, next: real)
    requires I.EventOk(e) && e.Live() && w.doneAt + Backoff.MAX_WAIT <= next && w.bookedAt + 10.0 <= next
    ensures var e' := AfterRound(e, at, w);
            e'.Remaining() < e.Remaining() && (e'.Live() ==> e'.nextAttemptAt <= next)
  {
    hide Raises;
  }

  /** A pass over a table whose live events are all due takes away at least one attempt, if any is left. */
  lemma PassDrains(p: Pass, now: State, k: nat, next: real)
    requires p.Valid() && k <= |p.batch| && Progress(p, now, k) && IsBatch(p.from.outbox, p.at, BATCH_SIZE, p.batch)
    requires NoResets(p.from, now) && |now.outbox| == |p.from.outbox| && Starvation.Healthy(p.from.outbox)
    requires AllDue(p.from.outbox, p.at) && p.at <= next && Outwaits(next, p.world) && (p.batch != [] ==> k >= 1)
    ensures AllDue(now.outbox, next)
    ensures S.TotalRemaining(now.outbox) == 0 || S.TotalRemaining(now.outbox) < S.TotalRemaining(p.from.outbox)
  {
    hide AfterRound, IsBatch;
    forall i | 0 <= i < |now.outbox|
      ensures now.outbox[i].Remaining() <= p.from.outbox[i].Remaining()
      ensures now.outbox[i].Live() ==> now.outbox[i].nextAttemptAt <= next
      ensures k > 0 && i == p.batch[0] ==> now.outbox[i].Remaining() < p.from.outbox[i].Remaining()
    {
      if i in p.batch {
        var j :| 0 <= j < |p.batch| && p.batch[j] == i;
        RoundOutwaited(p.from.outbox[i], p.at, p.world(j), next);
      }
    }
    if p.batch == [] {
      NothingDue(p.from.outbox, p.at);
      TotalShrinks(p.from.outbox, now.outbox, |now.outbox|);
    } else {
      TotalShrinks(p.from.outbox, now.outbox, p.batch[0]);
    }
  }

  /** The select picks nothing only if no attempt is left. */
  lemma NothingDue(outbox: seq<Event>, now: real)
    requires IsBatch(outbox, now, BATCH_SIZE, []) && AllDue(outbox, now)
    ensures S.TotalRemaining(outbox) == 0
  {
    forall i | 0 <= i < |outbox| ensures outbox[i].Remaining() == 0 {
      if outbox[i].Live() { assert outbox[i].Due(now) && i !in []; }
    }
    NoneRemaining(outbox);
  }

  /** Every event is due at the start, the database is steady, and each pass outwaits the one before. */
  ghost predicate Calm(start: State, clock: nat -> real, worlds: nat -> nat -> Circumstances) {
    && AllDue(start.outbox, clock(0))
    && forall n: nat :: Steady(worlds(n)) && Outwaits(clock(n + 1), worlds(n))
  }

  /** After n passes, as long as nothing is reset or added: n attempts are used up, or none is left. */
  ghost predicate Drained(start: State, now: State, n: nat, at: real, calm: bool) {
    calm && Unreset(start, now) && |now.outbox| == |start.outbox| ==>
      && AllDue(now.outbox, at)
      && (S.TotalRemaining(now.outbox) == 0 || S.TotalRemaining(now.outbox) + n <= S.TotalRemaining(start.outbox))
  }

  lemma DrainedMore(start: State, b: State, c: State, p: Pass, k: nat, n: nat, next: real, calm: bool)
    requires Drained(start, p.from, n, p.at, calm) && ResetsGrow(start, p.from) && |start.outbox| == |start.resets|
    requires p.Valid() && k <= |p.batch| && Progress(p, b, k) && IsBatch(p.from.outbox, p.at, BATCH_SIZE, p.batch)
    requires Starvation.Healthy(p.from.outbox) && p.at <= next
    requires calm ==> Outwaits(next, p.world) && (p.batch != [] ==> k >= 1)
    requires |c.outbox| == |c.resets| && ResetsGrow(b, c) && (NoResets(b, c) ==> b.outbox <= c.outbox)
    ensures Drained(start, c, n + 1, next, calm)
  {
    PassedOn(p, b, k);
    if calm && Unreset(start, c) && |c.outbox| == |start.outbox| {
      UnresetBetween(start, p.from, c);
      UnresetBetween(p.from, b, c);
      assert c.outbox == b.outbox;
      PassDrains(p, b, k, next);
    }
  }

  /** Nothing was reset or added, and there were as many passes as the table had attempts left. */
  ghost predicate Undisturbed(start: State, now: State, passes: nat) {
    Unreset(start, now) && |now.outbox| == |start.outbox| && passes >= S.TotalRemaining(start.outbox)
  }

  /** Every event has come to its end. */
  ghost predicate AllEnded(outbox: seq<Event>) {
    forall i :: 0 <= i < |outbox| ==> outbox[i].status == Delivered || outbox[i].status == Failed
  }

  lemma NothingLeft(outbox: seq<Event>)
    requires Starvation.Healthy(outbox) && S.TotalRemaining(outbox) == 0
    ensures AllEnded(outbox)
  {
    NoneRemaining(outbox);
    assert forall i :: 0 <= i < |outbox| ==> I.EventOk(outbox[i]) && outbox[i].Remaining() == 0;
  }

  /** A pass over a steady database has a round, unless nothing was picked. */
  lemma SteadyReaches(p: Pass, k: nat)
    requires p.Valid() && k <= |p.batch| && p.Reaches(k) && Steady(p.world) && p.batch != []
    ensures k >= 1
  {
    assert p.world(0).claims && p.world(0).books;
  }

  lemma Bookkept(s: S.State)
    requires S.Inv(s)
    ensures Starvation.Healthy(s.out.outbox) && I.HistoryOk(s.out)
  {
  }
}
