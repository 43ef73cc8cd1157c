/** Without new input every run is finite, with a bound that can be read off the
    state, and it ends with nothing left but undrained snoop queues. */
module Termination {
  import opened Machine

  function Sum(procs: seq<Proc>, f: Proc -> nat): nat {
    if procs == [] then 0 else Sum(procs[..|procs| - 1], f) + f(procs[|procs| - 1])
  }

  lemma {:induction false} SumUpdate(procs: seq<Proc>, f: Proc -> nat, i: nat, p: Proc)
    requires i < |procs|
    ensures Sum(procs[i := p], f) == Sum(procs, f) - f(procs[i]) + f(p)
  {
    var init, last := procs[..|procs| - 1], |procs| - 1;
    if i == last {
      assert procs[i := p][..last] == init;
    } else {
      assert procs[i := p][..last] == init[i := p];
      SumUpdate(init, f, i, p);
    }
  }

  /** Steps that one queued transaction still costs with `n` processors. */
  function TxnCost(n: nat): nat {
    2 * n + 2
  }

  function ProcCost(p: Proc, n: nat): nat {
    |p.requests| + |p.traces| * (3 + TxnCost(n)) +
    match p.phase
    case Idle => 0
    case Snooping(_) => 2 + TxnCost(n)
    case Ready(_) => 1 + TxnCost(n)
  }

  function CostWith(n: nat): Proc -> nat {
    p => ProcCost(p, n)
  }

  function SendCost(s: Sys): nat {
    if s.sending.Free? then 0
    else if s.sending.next <= |s.procs| then 2 * (|s.procs| - s.sending.next) + 1
    else 1
  }

  /** An upper bound on the steps a state can still take. */
  function Cost(s: Sys): nat {
    Sum(s.procs, CostWith(|s.procs|)) + |s.bus| * TxnCost(|s.procs|) + SendCost(s)
  }

  lemma TakeCost(p: Proc, n: nat, phase: Phase)
    requires p.phase.Idle? && p.traces != [] && !phase.Ready?
    ensures ProcCost(p.(traces := p.traces[1..], phase := phase), n) < ProcCost(p, n)
  {
  }

  lemma ProcStepCost(s: Sys, step: Step, i: nat)
    requires CapsOk(s) && Enabled(s, step) && i < |s.procs|
    requires step == Take(i) || step == SnoopOne(i) || step == SnoopDone(i)
    ensures Cost(Next(s, step)) < Cost(s)
  {
    var s', n := Next(s, step), |s.procs|;
    SumUpdate(s.procs, CostWith(n), i, s'.procs[i]);
    if step.Take? {
      TakeCost(s.procs[i], n, s'.procs[i].phase);
    }
    assert ProcCost(s'.procs[i], n) < ProcCost(s.procs[i], n);
  }

  lemma CommitCost(s: Sys, i: nat)
    requires CapsOk(s) && Enabled(s, CommitStep(i))
    ensures Cost(Next(s, CommitStep(i))) < Cost(s)
  {
    var s', n := Next(s, CommitStep(i)), |s.procs|;
    SumUpdate(s.procs, CostWith(n), i, s'.procs[i]);
    assert |s'.bus| <= |s.bus| + 1;
    assert (|s.bus| + 1) * TxnCost(n) == |s.bus| * TxnCost(n) + TxnCost(n);
  }

  lemma BusStepCost(s: Sys, step: Step)
    requires CapsOk(s) && Enabled(s, step) && (step.Pop? || step.Deliver? || step.Finish?)
    ensures Cost(Next(s, step)) < Cost(s)
  {
    var s', n := Next(s, step), |s.procs|;
    if step.Pop? {
      assert |s.bus| * TxnCost(n) == (|s.bus| - 1) * TxnCost(n) + TxnCost(n);
    } else if step.Deliver? && s.sending.next != s.sending.r.tid {
      SumUpdate(s.procs, CostWith(n), s.sending.next, s'.procs[s.sending.next]);
    }
  }

  lemma StepCost(s: Sys, step: Step)
    requires CapsOk(s) && Enabled(s, step) && !step.Enqueue?
    ensures Cost(Next(s, step)) < Cost(s)
  {
    if step.CommitStep? {
      CommitCost(s, step.i);
    } else if step.Pop? || step.Deliver? || step.Finish? {
      BusStepCost(s, step);
    } else {
      ProcStepCost(s, step, step.i);
    }
  }

  ghost predicate NoInput(steps: seq<Step>) {
    forall step | step in steps :: !step.Enqueue?
  }

  /** No run without new input is longer than the cost of the state it starts from. */
  lemma {:induction false} RunsAreBounded(s: Sys, steps: seq<Step>)
    requires CapsOk(s) && Exec(s, steps).Some? && NoInput(steps)
    ensures |steps| + Cost(Exec(s, steps).value) <= Cost(s)
  {
    if steps != [] {
      var before := steps[..|steps| - 1];
      RunsAreBounded(s, before);
      StepCost(Exec(s, before).value, steps[|steps| - 1]);
    }
  }

  // ---- The bound on accesses and bus transfers ----

  function Outstanding(p: Proc): nat {
    2 * |p.traces| + if p.phase.Idle? then 0 else 2
  }

  function OutstandingOf(): Proc -> nat {
    p => Outstanding(p)
  }

  /** Twice the traces not yet committed, plus the bus queue. */
  function Work(s: Sys): nat {
    Sum(s.procs, OutstandingOf()) + |s.bus|
  }

  /** The steps that complete an access or move the bus queue. */
  predicate IsProgress(step: Step) {
    step.CommitStep? || step.Pop?
  }

  lemma StepWork(s: Sys, step: Step)
    requires CapsOk(s) && Enabled(s, step) && !step.Enqueue?
    ensures Work(Next(s, step)) + (if IsProgress(step) then 1 else 0) <= Work(s)
  {
    var s' := Next(s, step);
    if step.Deliver? && s.sending.next != s.sending.r.tid {
      SumUpdate(s.procs, OutstandingOf(), s.sending.next, s'.procs[s.sending.next]);
    } else if !step.Pop? && !step.Deliver? && !step.Finish? {
      SumUpdate(s.procs, OutstandingOf(), step.i, s'.procs[step.i]);
    }
  }

  function ProgressCount(steps: seq<Step>): nat {
    if steps == [] then 0
    else ProgressCount(steps[..|steps| - 1]) + if IsProgress(steps[|steps| - 1]) then 1 else 0
  }

  /** Accesses completed and transactions sent never exceed the work at the start. */
  lemma {:induction false} ProgressIsBounded(s: Sys, steps: seq<Step>)
    requires CapsOk(s) && Exec(s, steps).Some? && NoInput(steps)
    ensures ProgressCount(steps) + Work(Exec(s, steps).value) <= Work(s)
  {
    if steps != [] {
      var before := steps[..|steps| - 1];
      ProgressIsBounded(s, before);
      StepWork(Exec(s, before).value, steps[|steps| - 1]);
    }
  }

  /** All traces served, nothing on the bus; snoop queues may still hold transactions. */
  predicate Finished(s: Sys) {
    && s.sending.Free? && s.bus == []
    && forall i :: 0 <= i < |s.procs| ==> s.procs[i].phase.Idle? && s.procs[i].traces == []
  }

  /** Without input a state is stuck exactly when it is finished. */
  lemma StuckIffFinished(s: Sys)
    ensures (forall step :: Enabled(s, step) ==> step.Enqueue?) <==> Finished(s)
  {
    if forall step :: Enabled(s, step) ==> step.Enqueue? {
      assert !Enabled(s, Pop) && !Enabled(s, Deliver) && !Enabled(s, Finish);
      forall i | 0 <= i < |s.procs| ensures s.procs[i].phase.Idle? && s.procs[i].traces == [] {
        assert !Enabled(s, Take(i)) && !Enabled(s, SnoopOne(i)) && !Enabled(s, SnoopDone(i))
               && !Enabled(s, CommitStep(i));
      }
    }
  }
}
