/** The router in the form the program has it: an object that sends, collects results and updates rows one by one. */
module Router {
  import opened Wrappers
  import opened Outbox
  import C = Contacts
  import I = OutboxInvariant

  /** What an adapter does with one send. */
  datatype Reply = Answer(success: bool, externalId: Option<string>, error: Option<string>) | Broken

  function Answered(name: string, reply: Reply): Result
    requires reply.Answer?
  {
    Result(name, reply.success, reply.externalId, reply.error)
  }

  /** The results list when the i-th send is answered by replies(i). */
  function Answers(targets: seq<string>, replies: nat -> Reply): (r: seq<Result>)
    requires forall i: nat :: i < |targets| ==> replies(i).Answer?
    ensures |r| == |targets|
    ensures forall i :: 0 <= i < |targets| ==> r[i] == Answered(targets[i], replies(i))
  {
    seq(|targets|, i requires 0 <= i < |targets| => Answered(targets[i], replies(i)))
  }

  lemma AnswersNameTargets(targets: seq<string>, replies: nat -> Reply)
    requires forall i: nat :: i < |targets| ==> replies(i).Answer?
    ensures Names(Answers(targets, replies)) == targets
  {
  }

  /** One IntegrationRouter call's view of the delivery table. */
  class IntegrationRouter {
    var rows: seq<Delivery>
    var results: seq<Result>

    constructor (rows: seq<Delivery>)
      ensures this.rows == rows && results == []
    {
      this.rows := rows;
      results := [];
    }

    static lemma FoundFirst(rows: seq<Delivery>, m: string, i: string, found: nat, raised: bool)
      requires found <= |rows| && forall j :: 0 <= j < found ==> !rows[j].Is(m, i)
      requires found < |rows| ==> rows[found].Is(m, i)
      requires raised <==> exists j :: found < j < |rows| && rows[j].Is(m, i)
      ensures found == RowIndex(rows, m, i) && (raised <==> Ambiguous(rows, m, i))
    {
      if raised {
        var j :| found < j < |rows| && rows[j].Is(m, i);
        assert rows[found + 1..][j - found - 1] == rows[j];
        assert HasRow(rows, m, i);
      }
    }

    /** _update_delivery: find the row, create it if missing, book the attempt; two rows raise. */
    method UpdateDelivery(m: string, r: Result) returns (raised: bool)
      modifies this`rows
      ensures raised <==> Outbox.UpdateDelivery(old(rows), m, r).None?
      ensures rows == if raised then old(rows) else Outbox.UpdateDelivery(old(rows), m, r).value
      ensures raised <==>
        exists j, k :: 0 <= j < k < |rows| && rows[j].Is(m, r.integration) && rows[k].Is(m, r.integration)
      ensures !raised ==> exists k: nat :: Booked(old(rows), rows, m, r, k)
    {
      hide Booked;
      var found: nat, k: nat := |rows|, 0;
      raised := false;
      while k < |rows|
        invariant k <= |rows| && rows == old(rows) && found <= |rows|
        invariant forall j :: 0 <= j < k && j < found ==> !rows[j].Is(m, r.integration)
        invariant found < |rows| ==> found < k && rows[found].Is(m, r.integration)
        invariant raised ==> found < |rows|
        invariant raised <==> exists j :: found < j < k && rows[j].Is(m, r.integration)
      {
        if rows[k].Is(m, r.integration) {
          if found < |rows| { raised := true; } else { found := k; }
        }
        k := k + 1;
      }
      FoundFirst(rows, m, r.integration, found, raised);
      AmbiguousMeans(rows, m, r.integration);
      if raised { return; }
      if found == |rows| {
        rows := rows + [Delivery(m, r.integration, Queued, 0, None, None)];
      }
      assert rows[..|old(rows)|] == old(rows);
      var row := rows[found];
      row := row.(attempts := row.attempts + 1);
      if r.success {
        row := row.(status := Sent, externalId := r.externalId, failureReason := None);
      } else {
        row := row.(status := NotSent, failureReason := r.error);
      }
      rows := rows[found := row];
      UpdateBooks(old(rows), m, r);
    }

    /** Row k, created if there was none for the pair, has one attempt more and says how it went; all others stand. */
    static ghost predicate Booked(was: seq<Delivery>, now: seq<Delivery>, m: string, r: Result, k: nat) {
      && |now| == (if k < |was| then |was| else |was| + 1) && k < |now|
      && (forall j :: 0 <= j < |was| && j != k ==> now[j] == was[j] && !was[j].Is(m, r.integration))
      && (k < |was| ==> was[k].Is(m, r.integration)) && now[k].Is(m, r.integration)
      && now[k].attempts == (if k < |was| then was[k].attempts else 0) + 1
      && if r.success then
           now[k].status == Sent && now[k].externalId == r.externalId && now[k].failureReason.None?
         else
           && now[k].status == NotSent && now[k].failureReason == r.error
           && now[k].externalId == if k < |was| then was[k].externalId else None
    }

    static lemma UpdateBooks(was: seq<Delivery>, m: string, r: Result)
      requires Outbox.UpdateDelivery(was, m, r).Some?
      ensures Booked(was, Outbox.UpdateDelivery(was, m, r).value, m, r, RowIndex(was, m, r.integration))
    {
      var k := RowIndex(was, m, r.integration);
      forall j | k < j < |was| ensures !was[j].Is(m, r.integration) {
        assert was[k + 1..][j - k - 1] == was[j];
      }
    }

    static lemma AmbiguousMeans(rows: seq<Delivery>, m: string, i: string)
      ensures Ambiguous(rows, m, i) <==> exists j, k :: 0 <= j < k < |rows| && rows[j].Is(m, i) && rows[k].Is(m, i)
    {
      var n := RowIndex(rows, m, i);
      if j, k :| 0 <= j < k < |rows| && rows[j].Is(m, i) && rows[k].Is(m, i) {
        assert rows[n + 1..][k - n - 1] == rows[k];
      }
      if Ambiguous(rows, m, i) {
        var k :| 0 <= k < |rows[n + 1..]| && rows[n + 1..][k].Is(m, i);
        assert rows[n + 1 + k].Is(m, i);
      }
    }

    /** Send to one integration, append the result, update its row. */
    method Deliver(m: string, name: string, reply: Reply) returns (raised: bool)
      modifies this
      ensures raised <==> reply.Broken? || Outbox.UpdateDelivery(old(rows), m, Answered(name, reply)).None?
      ensures !raised ==> results == old(results) + [Answered(name, reply)]
      ensures !raised ==> rows == Outbox.UpdateDelivery(old(rows), m, Answered(name, reply)).value
    {
      if reply.Broken? { return true; }
      results := results + [Answered(name, reply)];
      raised := UpdateDelivery(m, Answered(name, reply));
    }

    /** The state after sending to a prefix of the targets without an exception. */
    ghost predicate Reached(before: seq<Delivery>, m: string, targets: seq<string>, replies: nat -> Reply)
      reads this
    {
      && |results| <= |targets|
      && (forall i: nat :: i < |results| ==> replies(i).Answer?)
      && results == Answers(targets[..|results|], replies)
      && UpdateAll(before, m, results) == Some(rows)
    }

    /** Why route_event raises: an adapter did, or the row lookup of some prefix did. */
    static ghost predicate Stuck(before: seq<Delivery>, m: string, targets: seq<string>, replies: nat -> Reply) {
      exists n: nat :: n < |targets| && StuckAt(before, m, targets, replies, n)
    }

    static ghost predicate StuckAt(before: seq<Delivery>, m: string, targets: seq<string>, replies: nat -> Reply,
                                   n: nat)
      requires n < |targets|
    {
      replies(n).Broken?
      || ((forall i: nat :: i <= n ==> replies(i).Answer?)
          && UpdateAll(before, m, Answers(targets[..n + 1], replies)).None?)
    }

    lemma DeliverNext(before: seq<Delivery>, m: string, targets: seq<string>, replies: nat -> Reply)
      requires Reached(before, m, targets, replies) && |results| < |targets|
      ensures var n := |results|;
              replies(n).Answer? ==>
                && results + [Answered(targets[n], replies(n))] == Answers(targets[..n + 1], replies)
                && UpdateAll(before, m, Answers(targets[..n + 1], replies))
                   == Outbox.UpdateDelivery(rows, m, Answered(targets[n], replies(n)))
    {
      var n := |results|;
      if replies(n).Answer? {
        assert results + [Answered(targets[n], replies(n))] == Answers(targets[..n + 1], replies);
        I.UpdateAllSnoc(before, m, results, Answered(targets[n], replies(n)));
      }
    }

    /** One more target, in the order of the list. */
    method DeliverTo(m: string, ghost before: seq<Delivery>, ghost targets: seq<string>, name: string,
                     replies: nat -> Reply)
      returns (raised: bool)
      requires Reached(before, m, targets, replies)
      requires |results| < |targets| && targets[|results|] == name
      modifies this
      ensures !raised ==> Reached(before, m, targets, replies) && |results| == |old(results)| + 1
      ensures raised ==> Stuck(before, m, targets, replies)
    {
      DeliverNext(before, m, targets, replies);
      ghost var n := |results|;
      raised := Deliver(m, name, replies(|results|));
      assert raised ==> StuckAt(before, m, targets, replies, n);
      assert !raised ==> targets[..|results|] == targets[..n + 1];
    }

    static lemma NextTarget(endpoints: seq<Endpoint>, k: nat)
      requires k < |endpoints|
      ensures WebhookTargets(endpoints[k..]) ==
        (if Wants(endpoints[k]) then [WEBHOOK + ":" + endpoints[k].name] else []) + WebhookTargets(endpoints[k + 1..])
    {
      assert endpoints[k..][1..] == endpoints[k + 1..];
    }

    /** The endpoint loop of route_event. */
    method DeliverWebhooks(endpoints: seq<Endpoint>, m: string, ghost before: seq<Delivery>, ghost targets: seq<string>,
                           ghost rest: seq<string>, replies: nat -> Reply)
      returns (raised: bool)
      requires Reached(before, m, targets, replies) && targets[|results|..] == WebhookTargets(endpoints) + rest
      modifies this
      ensures raised ==> Stuck(before, m, targets, replies)
      ensures !raised ==> Reached(before, m, targets, replies) && targets[|results|..] == rest
    {
      hide Stuck, Answers, UpdateAll, WebhookTargets, Wants;
      raised := false;
      var k := 0;
      assert endpoints[0..] == endpoints;
      while k < |endpoints|
        invariant 0 <= k <= |endpoints|
        invariant Reached(before, m, targets, replies)
        invariant targets[|results|..] == WebhookTargets(endpoints[k..]) + rest
      {
        NextTarget(endpoints, k);
        ghost var todo, next := targets[|results|..], WebhookTargets(endpoints[k + 1..]) + rest;
        if Wants(endpoints[k]) {
          var name := WEBHOOK + ":" + endpoints[k].name;
          assert todo == [name] + next;
          assert targets[|results|] == todo[0];
          raised := DeliverTo(m, before, targets, name, replies);
          if raised { return; }
          assert targets[|results|..] == todo[1..] == next;
        } else {
          assert todo == next;
        }
        k := k + 1;
      }
      NoTargetLeft(endpoints);
      assert targets[|results|..] == [] + rest;
    }

    static lemma NoTargetLeft(endpoints: seq<Endpoint>)
      ensures WebhookTargets(endpoints[|endpoints|..]) == []
    {
    }

    lemma NothingSent(m: string, targets: seq<string>, replies: nat -> Reply)
      requires results == []
      ensures Reached(rows, m, targets, replies)
    {
    }

    /** What the results list says, without an exception: who was contacted, and each adapter's answer. */
    ghost predicate Reports(settings: Settings, endpoints: seq<Endpoint>, origin: string, replies: nat -> Reply)
      reads this
    {
      && C.Contacted(settings, endpoints, origin, results)
      && forall i: nat :: i < |results| ==>
           && replies(i).Answer? && results[i].success == replies(i).success
           && results[i].externalId == replies(i).externalId && results[i].error == replies(i).error
    }

    lemma ReportsAnswers(settings: Settings, endpoints: seq<Endpoint>, origin: string, replies: nat -> Reply)
      requires forall i: nat :: i < |Targets(settings, endpoints, origin)| ==> replies(i).Answer?
      requires results == Answers(Targets(settings, endpoints, origin), replies)
      ensures Reports(settings, endpoints, origin, replies)
    {
      AnswersNameTargets(Targets(settings, endpoints, origin), replies);
      C.NamesAreContacts(settings, endpoints, origin, results);
    }

    /** route_event: Discord, then the matching endpoints, then Signal. */
    method RouteEvent(settings: Settings, endpoints: seq<Endpoint>, m: string, origin: string, replies: nat -> Reply)
      returns (raised: bool)
      requires results == []
      modifies this
      ensures raised ==> Stuck(old(rows), m, Targets(settings, endpoints, origin), replies)
      ensures !raised ==>
        var targets := Targets(settings, endpoints, origin);
        && (forall i: nat :: i < |targets| ==> replies(i).Answer?)
        && results == Answers(targets, replies)
        && UpdateAll(old(rows), m, results) == Some(rows)
      ensures !raised ==> Reports(settings, endpoints, origin, replies)
    {
      hide Reports;
      hide Stuck, UpdateAll, WebhookTargets, Answers;
      ghost var before, targets := rows, Targets(settings, endpoints, origin);
      NothingSent(m, targets, replies);
      ghost var last := if settings.signalEnabled then [SIGNAL] else [];
      ghost var rest := WebhookTargets(endpoints) + last;
      assert targets == (if settings.discordEnabled && origin != DISCORD then [DISCORD] else []) + rest;
      raised := false;
      if settings.discordEnabled && origin != DISCORD {
        raised := DeliverTo(m, before, targets, DISCORD, replies);
        if raised { return; }
      }
      assert targets[|results|..] == rest;
      raised := DeliverWebhooks(endpoints, m, before, targets, last, replies);
      if raised { return; }
      if settings.signalEnabled {
        assert targets[|results|] == targets[|results|..][0];
        raised := DeliverTo(m, before, targets, SIGNAL, replies);
        if raised { return; }
      }
      assert targets[..|results|] == targets;
      ReportsAnswers(settings, endpoints, origin, replies);
    }
  }
}
