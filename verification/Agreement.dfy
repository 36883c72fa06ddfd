/** When the delivery rows of a round tell what became of its event. */
module Agreement {
  import Backoff
  import C = Contacts
  import opened Wrappers
  import I = OutboxInvariant
  import opened Outbox
  import S = System

  /** Every contacted integration's row shows a delivery. */
  ghost predicate AllShown(rows: seq<Delivery>, m: string, results: seq<Result>) {
    forall i :: 0 <= i < |results| ==> I.Shows(rows, m, results[i].integration, true)
  }

  /** The last entry for the same integration. */
  function LastIndex(results: seq<Result>, i: nat): (j: nat)
    requires i < |results|
    ensures i <= j < |results| && results[j].integration == results[i].integration
    ensures forall k :: j < k < |results| ==> results[k].integration != results[i].integration
    decreases |results|
  {
    var n := |results| - 1;
    if results[n].integration == results[i].integration then n else LastIndex(results[..n], i)
  }

  /** The last send to every contacted integration succeeded. */
  predicate LastOnesOk(results: seq<Result>) {
    forall i :: 0 <= i < |results| ==> results[LastIndex(results, i)].success
  }

  lemma ShowsOnlyOne(rows: seq<Delivery>, m: string, i: string)
    requires I.UniqueRows(rows) && I.Shows(rows, m, i, false)
    ensures !I.Shows(rows, m, i, true)
  {
    var k :| 0 <= k < |rows| && rows[k].Is(m, i) && rows[k].status == NotSent;
  }

  /** After routing every contacted row shows a delivery exactly if the last send to each integration succeeded. */
  lemma AllShownIff(rows: seq<Delivery>, attempts: seq<Attempt>, m: string, results: seq<Result>)
    requires I.UniqueRows(rows) && I.Counted(rows, attempts)
    ensures UpdateAll(rows, m, results).Some?
    ensures AllShown(UpdateAll(rows, m, results).value, m, results) <==> LastOnesOk(results)
  {
    hide UpdateAll, I.Counted;
    I.UpdateAllKeeps(rows, attempts, m, results);
    var rows' := UpdateAll(rows, m, results).value;
    forall i | 0 <= i < |results|
      ensures I.Shows(rows', m, results[i].integration, true) <==> results[LastIndex(results, i)].success
    {
      I.LastResultStands(rows, attempts, m, results, LastIndex(results, i));
      if !results[LastIndex(results, i)].success { ShowsOnlyOne(rows', m, results[i].integration); }
    }
  }

  // ---------------------------------------------------------------- one round

  /** The event of the round is delivered exactly if every contacted row is. */
  ghost predicate Agree(s: S.State, work: Step)
    requires Enabled(s.out, work) && work.Conclude?
  {
    var t := Do(s.out, work);
    var e := t.outbox[s.out.worker.cur.index];
    e.status == Delivered <==> AllShown(t.rows, e.messageId, work.results)
  }

  /**
   After a committed round the event is delivered exactly if every send succeeded, and every
   contacted row is exactly if the last send to each integration did. So a delivered event never
   has an undelivered contacted row, and the converse fails exactly if a success hides a failure.
   */
  lemma EventRowAgreement(s: S.State, work: Step)
    requires S.Inv(s) && Enabled(s.out, work) && work.Conclude?
    ensures var t := Do(s.out, work);
            var e := t.outbox[s.out.worker.cur.index];
            && (e.status == Delivered <==> AllOk(work.results))
            && (AllShown(t.rows, e.messageId, work.results) <==> LastOnesOk(work.results))
            && (e.status == Delivered ==> AllShown(t.rows, e.messageId, work.results))
            && (Agree(s, work) <==> AllOk(work.results) || !LastOnesOk(work.results))
  {
    AllShownIff(s.out.rows, s.out.attempts, s.out.worker.cur.event.messageId, work.results);
  }

  /** The step `work` delivered event e: a committed round in which everyone contacted succeeded. */
  ghost predicate DeliveredBy(s: S.State, t: S.State, e: nat, work: Step) {
    && work.Conclude? && Enabled(s.out, work) && t == S.Do(s, S.Work(work))
    && s.out.worker.cur.index == e && e < |s.out.outbox|
    && C.Contacted(work.settings, work.endpoints, s.out.outbox[e].origin, work.results)
    && (forall i :: 0 <= i < |work.results| ==> work.results[i].success)
    && AllShown(t.out.rows, s.out.outbox[e].messageId, work.results)
  }

  lemma DeliversOnly(s: S.State, step: S.Step, e: nat)
    requires S.Inv(s) && S.Enabled(s, step) && e < |S.Do(s, step).out.outbox|
    requires S.Do(s, step).out.outbox[e].status == Delivered
    requires e < |s.out.outbox| ==> s.out.outbox[e].status != Delivered
    ensures step.Work? && DeliveredBy(s, S.Do(s, step), e, step.work)
  {
    if step.Work? {
      var work := step.work;
      if work.Conclude? {
        assert I.Current(s.out.outbox, s.out.worker.cur.index, s.out.worker.todo);
        EventRowAgreement(s, work);
        C.NamesAreContacts(work.settings, work.endpoints, s.out.worker.cur.event.origin, work.results);
      }
    }
  }

  /**
   An event becomes delivered in one way only: by a round that contacts exactly whom it should,
   with a success from everyone, and commits.
   */
  lemma DeliveredBySuccess(tr: seq<S.State>, i: nat, e: nat) returns (work: Step)
    requires S.Run(tr) && 0 < i < |tr| && e < |tr[i].out.outbox| && tr[i].out.outbox[e].status == Delivered
    requires e < |tr[i - 1].out.outbox| ==> tr[i - 1].out.outbox[e].status != Delivered
    ensures DeliveredBy(tr[i - 1], tr[i], e, work)
  {
    hide S.Inv, S.Enabled, S.Do, DeliveredBy;
    S.RunKeepsInv(tr, i - 1);
    assert S.StepAt(tr, i);
    var step :| S.Enabled(tr[i - 1], step) && tr[i] == S.Do(tr[i - 1], step);
    DeliversOnly(tr[i - 1], step, e);
    work := step.work;
  }

  // ---------------------------------------------------------------- repeated names

  predicate Distinct(names: seq<string>) {
    forall i, j :: 0 <= i < j < |names| ==> names[i] != names[j]
  }

  /** With distinct names the last send to an integration is the only one. */
  lemma DistinctHidesNothing(results: seq<Result>)
    requires Distinct(Names(results)) && LastOnesOk(results)
    ensures AllOk(results)
  {
    var names := Names(results);
    forall r | r in results ensures r.success {
      var i :| 0 <= i < |results| && results[i] == r;
      var j := LastIndex(results, i);
      assert names[i] == names[j];
    }
  }

  /** Answers under which a repeated name hides a failure: only the first of the two sends fails. */
  function Masking(names: seq<string>, i: nat): (r: seq<Result>)
    ensures |r| == |names| && Names(r) == names
    ensures forall k :: 0 <= k < |r| ==> (r[k].success <==> k != i)
  {
    var r := seq(|names|, k requires 0 <= k < |names| =>
               if k == i then Result(names[k], false, None, Some("500")) else Result(names[k], true, Some("1"), None));
    assert Names(r) == names;
    r
  }

  lemma MaskingHides(names: seq<string>, i: nat, j: nat)
    requires i < j < |names| && names[i] == names[j]
    ensures LastOnesOk(Masking(names, i)) && !AllOk(Masking(names, i))
  {
    var r := Masking(names, i);
    assert forall k :: 0 <= k < |r| ==> r[k].integration == names[k] by {
      assert forall k :: 0 <= k < |r| ==> Names(r)[k] == r[k].integration;
    }
    assert r[j].integration == r[i].integration;
    forall k | 0 <= k < |r| ensures r[LastIndex(r, k)].success {
      var n := LastIndex(r, k);
    }
    assert r[i] in r && !r[i].success;
  }

  /**
   In any state of the worker in the middle of a round: event and rows agree whatever the
   integrations answer exactly if no target is named twice.
   */
  lemma AgreesIffDistinct(s: S.State, settings: Settings, endpoints: seq<Endpoint>, now: real, jitter: real)
    requires S.Inv(s) && s.out.worker.Busy? && Backoff.IsJitter(jitter)
    ensures var targets := Targets(settings, endpoints, s.out.worker.cur.event.origin);
            Distinct(targets) <==>
              forall results :: Names(results) == targets ==>
                Enabled(s.out, Conclude(settings, endpoints, results, now, jitter))
                && Agree(s, Conclude(settings, endpoints, results, now, jitter))
  {
    var targets := Targets(settings, endpoints, s.out.worker.cur.event.origin);
    forall results | Names(results) == targets
      ensures Enabled(s.out, Conclude(settings, endpoints, results, now, jitter))
      ensures Agree(s, Conclude(settings, endpoints, results, now, jitter)) <==> AllOk(results) || !LastOnesOk(results)
      ensures Distinct(targets) && LastOnesOk(results) ==> AllOk(results)
    {
      CanConclude(s, settings, endpoints, results, now, jitter);
      EventRowAgreement(s, Conclude(settings, endpoints, results, now, jitter));
      if Distinct(targets) && LastOnesOk(results) { DistinctHidesNothing(results); }
    }
    if !Distinct(targets) {
      var i, j :| 0 <= i < j < |targets| && targets[i] == targets[j];
      MaskingHides(targets, i, j);
      assert Names(Masking(targets, i)) == targets;
    }
  }

  lemma CanConclude(s: S.State, settings: Settings, endpoints: seq<Endpoint>, results: seq<Result>,
                    now: real, jitter: real)
    requires S.Inv(s) && s.out.worker.Busy? && Backoff.IsJitter(jitter)
    requires Names(results) == Targets(settings, endpoints, s.out.worker.cur.event.origin)
    ensures Enabled(s.out, Conclude(settings, endpoints, results, now, jitter))
  {
    S.RoutingNeverRaises(s, results);
  }

  /** The names of the endpoints that an event goes to. */
  function WantedNames(endpoints: seq<Endpoint>): seq<string> {
    if endpoints == [] then []
    else (if Wants(endpoints[0]) then [endpoints[0].name] else []) + WantedNames(endpoints[1..])
  }

  function Prefixed(names: seq<string>): (r: seq<string>)
    ensures |r| == |names|
    ensures forall i :: 0 <= i < |r| ==> r[i] == WEBHOOK + ":" + names[i]
  {
    seq(|names|, i requires 0 <= i < |names| => WEBHOOK + ":" + names[i])
  }

  lemma {:induction false} TargetsArePrefixed(endpoints: seq<Endpoint>)
    ensures WebhookTargets(endpoints) == Prefixed(WantedNames(endpoints))
  {
    if endpoints != [] { TargetsArePrefixed(endpoints[1..]); }
  }

  lemma PrefixedDistinctIff(names: seq<string>)
    ensures Distinct(Prefixed(names)) <==> Distinct(names)
  {
    var r := Prefixed(names);
    forall i, j | 0 <= i < j < |names| ensures r[i] == r[j] <==> names[i] == names[j] {
      assert r[i][|WEBHOOK| + 1..] == names[i] && r[j][|WEBHOOK| + 1..] == names[j];
    }
  }

  /** One name in front and one behind, each of a kind of its own, do not matter. */
  lemma DistinctAround(first: seq<string>, hooks: seq<string>, last: seq<string>)
    requires |first| <= 1 && |last| <= 1
    requires forall n :: n in first ==> n !in hooks && n !in last
    requires forall n :: n in last ==> n !in hooks
    ensures Distinct(first + hooks + last) <==> Distinct(hooks)
  {
    var all, k := first + hooks + last, |first|;
    forall i | 0 <= i < |hooks| ensures all[k + i] == hooks[i] {
    }
    if Distinct(all) {
      forall i, j | 0 <= i < j < |hooks| ensures hooks[i] != hooks[j] {
        assert all[k + i] != all[k + j];
      }
    }
    if Distinct(hooks) {
      forall i, j | 0 <= i < j < |all| ensures all[i] != all[j] {
        assert i < k ==> all[i] in first;
        assert k <= i < k + |hooks| ==> hooks[i - k] == all[i] && all[i] in hooks;
        assert k <= j < k + |hooks| ==> hooks[j - k] == all[j] && all[j] in hooks;
        assert j >= k + |hooks| ==> all[j] in last;
      }
    }
  }

  /** The names are those of the chosen endpoints. */
  lemma NamesOfChosen(endpoints: seq<Endpoint>) returns (ks: seq<nat>)
    ensures C.Chosen(endpoints, ks) && |WantedNames(endpoints)| == |ks|
    ensures forall i :: 0 <= i < |ks| ==> WantedNames(endpoints)[i] == endpoints[ks[i]].name
  {
    hide C.Chosen;
    ks := C.HooksAreChosen(endpoints);
    TargetsArePrefixed(endpoints);
    var names := WantedNames(endpoints);
    forall i | 0 <= i < |ks| ensures names[i] == endpoints[ks[i]].name {
      SamePrefix(names[i], endpoints[ks[i]].name);
    }
  }

  lemma SamePrefix(a: string, b: string)
    requires WEBHOOK + ":" + a == "webhook:" + b
    ensures a == b
  {
    assert (WEBHOOK + ":" + a)[|WEBHOOK| + 1..] == a && ("webhook:" + b)[|WEBHOOK| + 1..] == b;
  }

  /** A target is named twice exactly if two of the chosen endpoints share their name. */
  lemma TargetsDistinctIff(settings: Settings, endpoints: seq<Endpoint>, origin: string) returns (ks: seq<nat>)
    ensures C.Chosen(endpoints, ks)
    ensures Distinct(Targets(settings, endpoints, origin)) <==>
      forall i, j :: 0 <= i < j < |ks| ==> endpoints[ks[i]].name != endpoints[ks[j]].name
  {
    ks := NamesOfChosen(endpoints);
    DistinctTargets(settings, endpoints, origin);
    hide C.Chosen, Targets;
  }

  lemma DistinctTargets(settings: Settings, endpoints: seq<Endpoint>, origin: string)
    ensures Distinct(Targets(settings, endpoints, origin)) <==> Distinct(WantedNames(endpoints))
  {
    hide Distinct, WebhookTargets;
    var hooks := WebhookTargets(endpoints);
    TargetsArePrefixed(endpoints);
    PrefixedDistinctIff(WantedNames(endpoints));
    assert forall n :: n in hooks ==> n[0] == 'w';
    assert DISCORD[0] == 'd' && SIGNAL[0] == 's';
    DistinctAround(if settings.discordEnabled && origin != DISCORD then [DISCORD] else [], hooks,
                   if settings.signalEnabled then [SIGNAL] else []);
  }
}
