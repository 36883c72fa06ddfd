/** Runs of the write path on which a promise fails; when exactly it does is proved elsewhere. */
module Counterexamples {
  import opened Wrappers
  import A = Agreement
  import L = MessageLog
  import O = Outbox
  import opened System
  import T = Tasks

  const NO_EXTRAS := Extras("chat", 5, 0.0, 0.0)
  const M1 := L.Message("m", "c", "a", "u", 1, "hi", false)

  function Sent(step: L.SendStep): Step { Send(step, NO_EXTRAS) }

  /** One more step at the end of a run from the initial state. */
  lemma Extend(steps: seq<Step>, step: Step) returns (r: seq<Step>)
    requires T.Legal(INITIAL, steps) && Enabled(T.Exec(INITIAL, steps), step)
    ensures r == steps + [step] && T.Legal(INITIAL, r) && T.Exec(INITIAL, r) == Do(T.Exec(INITIAL, steps), step)
  {
    r := steps + [step];
    T.ExecSnoc(INITIAL, steps, step);
  }

  /** The states of a run. */
  lemma Trace(steps: seq<Step>) returns (tr: seq<State>)
    requires T.Legal(INITIAL, steps)
    ensures Run(tr) && tr[|tr| - 1] == T.Exec(INITIAL, steps)
  {
    tr := T.StretchOfRun([INITIAL], steps);
  }

  /** While nothing is committed and the lock is free, a send gets as far as number 1. */
  lemma SendNumbers(before: seq<Step>, k: nat, clientId: string) returns (steps: seq<Step>)
    requires T.Legal(INITIAL, before)
    requires var log := T.Exec(INITIAL, before).log; log.messages == [] && log.locks == map[] && k !in log.calls
    ensures T.Legal(INITIAL, steps)
    ensures var s := T.Exec(INITIAL, before);
            T.Exec(INITIAL, steps) ==
            s.(log := s.log.(calls := s.log.calls[k := L.Call("c", clientId, "u", "hi", 0, L.Allocated(1))],
                             locks := map[L.Lock(0, "c") := k]))
  {
    hide T.Legal, T.Exec, O.Do, O.Enabled, O.Publish, L.ConvLog, L.HasClientId;
    steps := before;
    steps := Extend(steps, Sent(L.Start(k, "c", clientId, "u", "hi", 0)));
    steps := Extend(steps, Sent(L.Acquire(k)));
    assert L.FindByClientId([], "c", clientId) == None;
    steps := Extend(steps, Sent(L.Lookup(k)));
    steps := Extend(steps, Sent(L.ReadMax(k)));
  }

  lemma FirstSendReturns() returns (steps: seq<Step>)
    ensures T.Legal(INITIAL, steps)
    ensures T.Exec(INITIAL, steps) ==
            State(L.Log([], map[0 := L.Call("c", "a", "u", "hi", 0, L.Returned(M1, true))], map[]), O.EMPTY)
  {
    assert T.Legal(INITIAL, []) && T.Exec(INITIAL, []) == INITIAL;
    hide T.Legal, T.Exec;
    steps := SendNumbers([], 0, "a");
    steps := Extend(steps, Sent(L.Flush(0, "m")));
    steps := Extend(steps, Sent(L.Release(0)));
  }

  // ---------------------------------------------------------------- a conflict despite the lock

  const OVERTAKEN := L.Log([M1],
                           map[0 := L.Call("c", "a", "u", "hi", 0, L.Done(M1, true)),
                               1 := L.Call("c", "b", "u", "hi", 0, L.Allocated(1))],
                           map[L.Lock(0, "c") := 1])

  lemma SecondSendOvertaken() returns (steps: seq<Step>)
    ensures T.Legal(INITIAL, steps) && T.Exec(INITIAL, steps).log == OVERTAKEN
  {
    hide T.Legal, T.Exec;
    steps := FirstSendReturns();
    steps := SendNumbers(steps, 1, "b");
    steps := Extend(steps, Sent(L.Commit(0)));
    assert T.Exec(INITIAL, steps).log.messages == [M1];
  }

  /**
   The documentation promises that concurrent sends never meet a sequence conflict. They can,
   within one process: the lock is free before the first send commits, so the second reads the
   old maximum, and its IntegrityError is re-raised although its client id is new.
   */
  lemma ConflictDespiteLock() returns (tr: seq<State>)
    ensures Run(tr)
    ensures var log := tr[|tr| - 1].log;
            && L.At(log, 0, L.Done(M1, true)) && L.At(log, 1, L.Raised)
            && log.calls[0].LockKey() == log.calls[1].LockKey()
            && !L.HasClientId(log.messages, log.calls[1].conv, log.calls[1].clientId)
  {
    hide T.Legal, T.Exec;
    var steps := SecondSendOvertaken();
    assert L.HasSequence([M1], "c", 1) by { assert [M1][0].sequence == 1; }
    steps := Extend(steps, Sent(L.Flush(1, "n")));
    steps := Extend(steps, Sent(L.Requery(1)));
    tr := Trace(steps);
  }

  // ---------------------------------------------------------------- a failure hidden by a name

  const HOOK := O.Endpoint("x", true, None)
  const SETTINGS := O.Settings(false, false)

  lemma FirstEventClaimed() returns (steps: seq<Step>)
    ensures T.Legal(INITIAL, steps) && T.Exec(INITIAL, steps).out.worker.Busy?
    ensures T.Exec(INITIAL, steps).out.worker.cur.event.origin == "chat"
  {
    hide T.Legal, T.Exec;
    steps := FirstSendReturns();
    steps := Extend(steps, Sent(L.Commit(0)));
    var s := T.Exec(INITIAL, steps);
    assert s.out.outbox == [O.Event("m", 1, "chat", O.Pending, 0, 5, 0.0, 0.0, None, None)];
    assert O.IsBatch(s.out.outbox, 1.0, 1, [0]);
    steps := Extend(steps, Work(O.Select(1.0, 1, [0])));
    steps := Extend(steps, Work(O.Claim));
  }

  /**
   Two endpoints named "x": the first send of a round fails, the second succeeds. The round ends
   with its event not delivered, but every contacted row reads delivered.
   */
  lemma RepeatedNameHidesFailure() returns (tr: seq<State>, results: seq<O.Result>)
    ensures Run(tr) && |tr| >= 2 && tr[|tr| - 2].out.worker.Busy?
    ensures var s, work := tr[|tr| - 2], O.Conclude(SETTINGS, [HOOK, HOOK], results, 1.0, 1.0);
            && O.Enabled(s.out, work) && tr[|tr| - 1] == Do(s, Work(work))
            && !O.AllOk(results)
            && A.AllShown(tr[|tr| - 1].out.rows, s.out.worker.cur.event.messageId, results)
  {
    hide T.Legal, T.Exec, A.LastOnesOk, A.AllShown, O.UpdateAll, O.AllOk;
    var steps := FirstEventClaimed();
    var before := Trace(steps);
    var s := before[|before| - 1];
    RunKeepsInv(before, |before| - 1);
    var name := O.WEBHOOK + ":" + HOOK.name;
    TwoTargets(name);
    results := A.Masking([name, name], 0);
    A.MaskingHides([name, name], 0, 1);
    var work := O.Conclude(SETTINGS, [HOOK, HOOK], results, 1.0, 1.0);
    A.CanConclude(s, SETTINGS, [HOOK, HOOK], results, 1.0, 1.0);
    A.EventRowAgreement(s, work);
    tr := T.RunOn(before, Work(work));
  }

  lemma TwoTargets(name: string)
    requires name == O.WEBHOOK + ":" + HOOK.name
    ensures O.Targets(SETTINGS, [HOOK, HOOK], "chat") == [name, name]
  {
    var one := [HOOK, HOOK][1..];
    assert one == [HOOK] && one[1..] == [];
    assert O.WebhookTargets(one) == [name];
  }
}
