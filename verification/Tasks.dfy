/** Stretches of a run: what other tasks may do between two statements of one task. */
module Tasks {
  import I = OutboxInvariant
  import opened System

  predicate Legal(s: State, steps: seq<Step>)
    decreases steps
  {
    steps == [] || (Enabled(s, steps[0]) && Legal(Do(s, steps[0]), steps[1..]))
  }

  function Exec(s: State, steps: seq<Step>): State
    requires Legal(s, steps)
    decreases steps
  {
    if steps == [] then s else Exec(Do(s, steps[0]), steps[1..])
  }

  predicate AnyStep(step: Step) { true }

  /** Everything but the worker's own steps. */
  predicate NotWorker(step: Step) { step.Work? ==> step.work.AdminRetry? }

  /** Everything but the steps of call k and a crash of the process it runs in. */
  predicate NotCall(step: Step, k: nat, process: nat) {
    step.Send? ==>
      match step.send
      case Crash(p) => p != process
      case other => other.k != k
  }

  ghost predicate Leads(s: State, t: State, allowed: Step -> bool) {
    exists steps :: LeadsBy(s, t, allowed, steps)
  }

  ghost predicate LeadsBy(s: State, t: State, allowed: Step -> bool, steps: seq<Step>) {
    (forall i :: 0 <= i < |steps| ==> allowed(steps[i])) && Legal(s, steps) && Exec(s, steps) == t
  }

  lemma LeadsNowhere(s: State, allowed: Step -> bool)
    ensures Leads(s, s, allowed)
  {
    assert LeadsBy(s, s, allowed, []);
  }

  lemma {:induction false} ExecSnoc(s: State, steps: seq<Step>, step: Step)
    requires Legal(s, steps) && Enabled(Exec(s, steps), step)
    ensures Legal(s, steps + [step]) && Exec(s, steps + [step]) == Do(Exec(s, steps), step)
    decreases steps
  {
    if steps == [] {
      assert Legal(Do(s, step), []);
      assert (steps + [step])[1..] == [];
    } else {
      assert (steps + [step])[1..] == steps[1..] + [step];
      ExecSnoc(Do(s, steps[0]), steps[1..], step);
    }
  }

  lemma {:induction false} ExecConcat(s: State, a: seq<Step>, b: seq<Step>)
    requires Legal(s, a) && Legal(Exec(s, a), b)
    ensures Legal(s, a + b) && Exec(s, a + b) == Exec(Exec(s, a), b)
    decreases a
  {
    if a == [] {
      assert a + b == b;
    } else {
      assert (a + b)[1..] == a[1..] + b;
      ExecConcat(Do(s, a[0]), a[1..], b);
    }
  }

  lemma LeadsOn(s: State, t: State, step: Step)
    requires Leads(s, t, AnyStep) && Enabled(t, step)
    ensures Leads(s, Do(t, step), AnyStep)
  {
    var steps :| LeadsBy(s, t, AnyStep, steps);
    ExecSnoc(s, steps, step);
    assert LeadsBy(s, Do(t, step), AnyStep, steps + [step]);
  }

  lemma LeadsThrough(s: State, t: State, u: State, allowed: Step -> bool)
    requires Leads(s, t, AnyStep) && Leads(t, u, allowed)
    ensures Leads(s, u, AnyStep)
  {
    var a :| LeadsBy(s, t, AnyStep, a);
    var b :| LeadsBy(t, u, allowed, b);
    ExecConcat(s, a, b);
    assert LeadsBy(s, u, AnyStep, a + b);
  }

  /** One more state at the end of a run. */
  lemma RunOn(tr: seq<State>, step: Step) returns (tr': seq<State>)
    requires Run(tr) && Enabled(tr[|tr| - 1], step)
    ensures tr' == tr + [Do(tr[|tr| - 1], step)] && Run(tr')
  {
    tr' := tr + [Do(tr[|tr| - 1], step)];
    forall i | 0 < i < |tr'| ensures StepAt(tr', i) {
      if i < |tr| { assert StepAt(tr, i); }
    }
  }

  /** A stretch of a run of the machine is a run, if what precedes it is. */
  lemma {:induction false} StretchOfRun(tr: seq<State>, steps: seq<Step>) returns (tr': seq<State>)
    requires Run(tr) && Legal(tr[|tr| - 1], steps)
    ensures Run(tr') && |tr'| >= |tr| && tr'[|tr'| - 1] == Exec(tr[|tr| - 1], steps)
    decreases steps
  {
    if steps == [] {
      tr' := tr;
    } else {
      var longer := RunOn(tr, steps[0]);
      tr' := StretchOfRun(longer, steps[1..]);
    }
  }

  // ---------------------------------------------------------------- what others leave alone

  /** As seen by the worker: its own state stands, events are only appended, and one changes only by a reset. */
  ghost predicate WorkerUndisturbed(s: State, t: State) {
    && t.out.worker == s.out.worker
    && |s.out.outbox| <= |t.out.outbox| && |s.out.resets| == |s.out.outbox| && |t.out.resets| == |t.out.outbox|
    && forall i :: 0 <= i < |s.out.outbox| ==>
         && s.out.resets[i] <= t.out.resets[i]
         && (s.out.resets[i] == t.out.resets[i] || s.out.outbox[i].Live() ==> t.out.outbox[i] == s.out.outbox[i])
  }

  /** As seen by a call: its own record stands and committed rows are only appended. */
  ghost predicate CallUndisturbed(s: State, t: State, k: nat) {
    && k in s.log.calls && k in t.log.calls && t.log.calls[k] == s.log.calls[k]
    && s.log.messages <= t.log.messages
  }

  lemma NotWorkerStep(s: State, step: Step)
    requires Inv(s) && Enabled(s, step) && NotWorker(step)
    ensures Inv(Do(s, step)) && WorkerUndisturbed(s, Do(s, step))
  {
    StepKeepsInv(s, step);
    AppendsOrResets(s, step);
  }

  lemma AppendsOrResets(s: State, step: Step)
    requires I.HistoryOk(s.out) && Enabled(s, step) && NotWorker(step)
    ensures WorkerUndisturbed(s, Do(s, step))
  {
  }

  lemma {:induction false} NotWorkerSteps(s: State, steps: seq<Step>)
    requires Inv(s) && Legal(s, steps) && forall i :: 0 <= i < |steps| ==> NotWorker(steps[i])
    ensures Inv(Exec(s, steps)) && WorkerUndisturbed(s, Exec(s, steps))
    decreases steps
  {
    if steps != [] {
      NotWorkerStep(s, steps[0]);
      NotWorkerSteps(Do(s, steps[0]), steps[1..]);
      UndisturbedTwice(s, Do(s, steps[0]), Exec(s, steps));
    } else {
      assert WorkerUndisturbed(s, s);
    }
  }

  lemma UndisturbedTwice(a: State, b: State, c: State)
    requires WorkerUndisturbed(a, b) && WorkerUndisturbed(b, c)
    ensures WorkerUndisturbed(a, c)
  {
    forall i | 0 <= i < |a.out.outbox|
      ensures a.out.resets[i] <= c.out.resets[i]
      ensures a.out.resets[i] == c.out.resets[i] || a.out.outbox[i].Live() ==> c.out.outbox[i] == a.out.outbox[i]
    {
      assert a.out.resets[i] <= b.out.resets[i] <= c.out.resets[i];
    }
  }

  lemma NotCallStep(s: State, step: Step, k: nat)
    requires k in s.log.calls && Enabled(s, step) && NotCall(step, k, s.log.calls[k].process)
    ensures CallUndisturbed(s, Do(s, step), k)
  {
  }

  lemma {:induction false} NotCallSteps(s: State, steps: seq<Step>, k: nat)
    requires Inv(s) && Legal(s, steps) && k in s.log.calls
    requires forall i :: 0 <= i < |steps| ==> NotCall(steps[i], k, s.log.calls[k].process)
    ensures Inv(Exec(s, steps)) && CallUndisturbed(s, Exec(s, steps), k)
    decreases steps
  {
    if steps != [] {
      StepKeepsInv(s, steps[0]);
      NotCallStep(s, steps[0], k);
      NotCallSteps(Do(s, steps[0]), steps[1..], k);
    }
  }
}
