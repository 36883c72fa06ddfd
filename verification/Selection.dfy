/** The worker's select: due events, oldest first, limited. */
module Selection {
  import opened Outbox

  /** Insert an event behind all events not younger than it. */
  function Insert(outbox: seq<Event>, order: seq<nat>, e: nat): seq<nat>
    requires e < |outbox| && forall i :: 0 <= i < |order| ==> order[i] < |outbox|
  {
    if order == [] || outbox[order[|order| - 1]].createdAt <= outbox[e].createdAt then order + [e]
    else Insert(outbox, order[..|order| - 1], e) + [order[|order| - 1]]
  }

  predicate Ordered(outbox: seq<Event>, order: seq<nat>) {
    && (forall i :: 0 <= i < |order| ==> order[i] < |outbox|)
    && forall i, j :: 0 <= i < j < |order| ==>
         order[i] != order[j] && outbox[order[i]].createdAt <= outbox[order[j]].createdAt
  }

  lemma {:induction false} InsertMembers(outbox: seq<Event>, order: seq<nat>, e: nat)
    requires e < |outbox| && forall i :: 0 <= i < |order| ==> order[i] < |outbox|
    ensures forall x :: x in Insert(outbox, order, e) <==> x == e || x in order
    ensures forall i :: 0 <= i < |Insert(outbox, order, e)| ==> Insert(outbox, order, e)[i] < |outbox|
  {
    if order != [] {
      var init, last := order[..|order| - 1], order[|order| - 1];
      assert order == init + [last];
      InsertMembers(outbox, init, e);
    }
  }

  lemma OrderedSnoc(outbox: seq<Event>, init: seq<nat>, last: nat)
    requires Ordered(outbox, init) && last < |outbox| && last !in init
    requires forall x :: x in init ==> x < |outbox| && outbox[x].createdAt <= outbox[last].createdAt
    ensures Ordered(outbox, init + [last])
  {
  }

  lemma {:induction false} InsertKeepsOrder(outbox: seq<Event>, order: seq<nat>, e: nat)
    requires e < |outbox| && Ordered(outbox, order) && e !in order
    ensures Ordered(outbox, Insert(outbox, order, e))
    ensures forall x :: x in Insert(outbox, order, e) <==> x == e || x in order
  {
    InsertMembers(outbox, order, e);
    if order == [] {
      assert Insert(outbox, order, e) == [e];
    } else {
      var init, last := order[..|order| - 1], order[|order| - 1];
      forall x | x in init
        ensures x in order && x != last && x < |outbox| && outbox[x].createdAt <= outbox[last].createdAt
      {
        var k :| 0 <= k < |init| && init[k] == x;
        assert order[k] == x;
      }
      if outbox[last].createdAt <= outbox[e].createdAt {
        forall x | x in order ensures x < |outbox| && outbox[x].createdAt <= outbox[e].createdAt {
          assert x == last || x in init;
        }
        OrderedSnoc(outbox, order, e);
      } else {
        InsertKeepsOrder(outbox, init, e);
        InsertMembers(outbox, init, e);
        OrderedSnoc(outbox, Insert(outbox, init, e), last);
      }
    }
  }

  /** The due ones among the first n events, in order of creation. */
  function DueInOrder(outbox: seq<Event>, now: real, n: nat): (order: seq<nat>)
    requires n <= |outbox|
    ensures Ordered(outbox, order)
    ensures forall e: nat :: e in order <==> e < n && outbox[e].Due(now)
  {
    if n == 0 then []
    else
      var rest := DueInOrder(outbox, now, n - 1);
      if outbox[n - 1].Due(now) then
        InsertKeepsOrder(outbox, rest, n - 1);
        Insert(outbox, rest, n - 1)
      else rest
  }

  /**
   What the select may answer, in the columns it reads: pending or retrying events whose time has
   come, each once, oldest first, at most `size`, and as many of the oldest as there are.
   */
  lemma SelectMeans(outbox: seq<Event>, now: real, size: nat, batch: seq<nat>)
    ensures IsBatch(outbox, now, size, batch) <==>
      && |batch| <= size
      && (forall i :: 0 <= i < |batch| ==> batch[i] < |outbox| && Ready(outbox[batch[i]], now))
      && (forall i, j :: 0 <= i < j < |batch| ==> batch[i] != batch[j])
      && (forall i, j :: 0 <= i < j < |batch| ==> !(outbox[batch[j]].createdAt < outbox[batch[i]].createdAt))
      && (forall e :: 0 <= e < |outbox| && Ready(outbox[e], now) && e !in batch ==>
           |batch| == size && forall i :: 0 <= i < |batch| ==> !(outbox[e].createdAt < outbox[batch[i]].createdAt))
  {
    assert forall e :: 0 <= e < |outbox| ==> (Ready(outbox[e], now) <==> outbox[e].Due(now));
  }

  predicate Ready(e: Event, now: real) {
    (e.status == Pending || e.status == Retrying) && e.nextAttemptAt <= now
  }

  /** A batch exists for every table, time and limit; no limit picks a batch empty while an event is due. */
  lemma BatchExists(outbox: seq<Event>, now: real, size: nat) returns (batch: seq<nat>)
    ensures IsBatch(outbox, now, size, batch)
    ensures size >= 1 ==> (batch == [] <==> forall e :: 0 <= e < |outbox| ==> !outbox[e].Due(now))
  {
    var order := DueInOrder(outbox, now, |outbox|);
    batch := if size < |order| then order[..size] else order;
    PrefixIsBatch(outbox, now, size, order, batch);
    if size >= 1 && order != [] { assert order[0] in order; }
    hide IsBatch, Ordered;
  }

  /** The first events of the ordered due ones are what the select may answer. */
  lemma PrefixIsBatch(outbox: seq<Event>, now: real, size: nat, order: seq<nat>, batch: seq<nat>)
    requires Ordered(outbox, order) && forall e: nat :: e in order <==> e < |outbox| && outbox[e].Due(now)
    requires batch == if size < |order| then order[..size] else order
    ensures IsBatch(outbox, now, size, batch)
  {
    forall i | 0 <= i < |batch| ensures batch[i] == order[i] && batch[i] < |outbox| && outbox[batch[i]].Due(now) {
      assert order[i] in order;
    }
    forall e: nat | e < |outbox| && outbox[e].Due(now) && e !in batch
      ensures |batch| == size && forall i :: 0 <= i < |batch| ==> outbox[batch[i]].createdAt <= outbox[e].createdAt
    {
      assert e in order;
      var k :| 0 <= k < |order| && order[k] == e;
      assert k >= |batch|;
    }
  }
}
