/** Whom route_event contacts, said of the results it returns. */
module Contacts {
  import opened Outbox

  /**
   The positions, in order, of the endpoints that are enabled and whose filters do not parse, name
   "message.created" or hold "*".
   */
  ghost predicate Chosen(endpoints: seq<Endpoint>, ks: seq<nat>) {
    && (forall i :: 0 <= i < |ks| ==> ks[i] < |endpoints|)
    && (forall i, j :: 0 <= i < j < |ks| ==> ks[i] < ks[j])
    && forall k: nat :: k < |endpoints| ==>
         var e := endpoints[k];
         (k in ks <==>
           e.enabled && (e.filters.None? || "message.created" in e.filters.value || "*" in e.filters.value))
  }

  /** Discord first, unless the message came from it; then the chosen endpoints; then Signal; and nobody else. */
  ghost predicate ContactedVia(settings: Settings, endpoints: seq<Endpoint>, origin: string,
                               results: seq<Result>, ks: seq<nat>) {
    var front := if settings.discordEnabled && origin != "discord" then 1 else 0;
    var back := if settings.signalEnabled then 1 else 0;
    && Chosen(endpoints, ks) && |results| == front + |ks| + back
    && (front == 1 ==> results[0].integration == "discord")
    && (forall i :: 0 <= i < |ks| ==> results[front + i].integration == "webhook:" + endpoints[ks[i]].name)
    && (back == 1 ==> results[|results| - 1].integration == "signal")
  }

  ghost predicate Contacted(settings: Settings, endpoints: seq<Endpoint>, origin: string, results: seq<Result>) {
    exists ks :: ContactedVia(settings, endpoints, origin, results, ks)
  }

  function Shifted(ks: seq<nat>): (r: seq<nat>)
    ensures |r| == |ks|
    ensures forall i :: 0 <= i < |ks| ==> r[i] == ks[i] + 1
  {
    seq(|ks|, i requires 0 <= i < |ks| => ks[i] + 1)
  }

  lemma ShiftedMembers(ks: seq<nat>, k: nat)
    ensures k in Shifted(ks) <==> k > 0 && k - 1 in ks
  {
    if k in Shifted(ks) {
      var i :| 0 <= i < |ks| && Shifted(ks)[i] == k;
      assert ks[i] == k - 1;
    }
    if k > 0 && k - 1 in ks {
      var i :| 0 <= i < |ks| && ks[i] == k - 1;
      assert Shifted(ks)[i] == k;
    }
  }

  /** One endpoint more in front. */
  lemma ChosenNext(endpoints: seq<Endpoint>, rest: seq<nat>) returns (ks: seq<nat>)
    requires endpoints != [] && Chosen(endpoints[1..], rest)
    ensures Chosen(endpoints, ks) && ks == (if Wants(endpoints[0]) then [0] else []) + Shifted(rest)
  {
    ks := (if Wants(endpoints[0]) then [0] else []) + Shifted(rest);
    forall k: nat | k < |endpoints| ensures k in ks <==> Wants(endpoints[k]) {
      ShiftedMembers(rest, k);
      if k > 0 { assert endpoints[k] == endpoints[1..][k - 1]; }
    }
  }

  /** The targets among the endpoints are the chosen ones. */
  lemma {:induction false} HooksAreChosen(endpoints: seq<Endpoint>) returns (ks: seq<nat>)
    ensures Chosen(endpoints, ks) && |WebhookTargets(endpoints)| == |ks|
    ensures forall i :: 0 <= i < |ks| ==> WebhookTargets(endpoints)[i] == "webhook:" + endpoints[ks[i]].name
  {
    if endpoints == [] {
      ks := [];
    } else {
      var rest := HooksAreChosen(endpoints[1..]);
      ks := ChosenNext(endpoints, rest);
      var first := if Wants(endpoints[0]) then [WEBHOOK + ":" + endpoints[0].name] else [];
      assert WebhookTargets(endpoints) == first + WebhookTargets(endpoints[1..]);
      assert WEBHOOK + ":" == "webhook:";
      forall i | 0 <= i < |ks| ensures WebhookTargets(endpoints)[i] == "webhook:" + endpoints[ks[i]].name {
        if i >= |first| {
          assert ks[i] == rest[i - |first|] + 1;
          assert endpoints[ks[i]] == endpoints[1..][rest[i - |first|]];
        }
      }
    }
  }

  /** The targets in three parts. */
  lemma TargetParts(settings: Settings, endpoints: seq<Endpoint>, origin: string)
    ensures
      var front := if settings.discordEnabled && origin != "discord" then 1 else 0;
      var back := if settings.signalEnabled then 1 else 0;
      var (names, hooks) := (Targets(settings, endpoints, origin), WebhookTargets(endpoints));
      && |names| == front + |hooks| + back
      && (front == 1 ==> names[0] == "discord")
      && (forall i :: 0 <= i < |hooks| ==> names[front + i] == hooks[i])
      && (back == 1 ==> names[|names| - 1] == "signal")
  {
    hide WebhookTargets;
  }

  /** Results that name the targets in order contact exactly those. */
  lemma NamesAreContacts(settings: Settings, endpoints: seq<Endpoint>, origin: string, results: seq<Result>)
    requires Names(results) == Targets(settings, endpoints, origin)
    ensures Contacted(settings, endpoints, origin, results)
  {
    hide Chosen, WebhookTargets, Targets;
    var ks := HooksAreChosen(endpoints);
    var names := Targets(settings, endpoints, origin);
    TargetParts(settings, endpoints, origin);
    assert |results| == |names|;
    assert forall i :: 0 <= i < |results| ==> Names(results)[i] == results[i].integration;
    var front := if settings.discordEnabled && origin != "discord" then 1 else 0;
    forall i | 0 <= i < |ks| ensures results[front + i].integration == "webhook:" + endpoints[ks[i]].name {
      assert names[front + i] == WebhookTargets(endpoints)[i];
    }
    assert ContactedVia(settings, endpoints, origin, results, ks);
  }
}
