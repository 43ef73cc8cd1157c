/** The order inside an access, over every run: a processor takes a trace, snoops until its
    queue is empty, and then commits on the cache as the drain left it, while the bus is
    not broadcasting. */
module AccessOrder {
  import opened Msi
  import opened Machine

  /** A run with all its states: step `k` leads from state `k` to the next. */
  ghost predicate IsRun(states: seq<Sys>, steps: seq<Step>) {
    && |states| == |steps| + 1
    && (forall k :: 0 <= k < |states| ==> CapsOk(states[k]))
    && (forall k :: 0 <= k < |steps| ==> Enabled(states[k], steps[k]) && states[k + 1] == Next(states[k], steps[k]))
  }

  /** Every execution is such a run. */
  lemma {:induction false} StatesOf(s: Sys, steps: seq<Step>) returns (states: seq<Sys>)
    requires CapsOk(s) && Exec(s, steps).Some?
    ensures IsRun(states, steps) && states[0] == s && states[|steps|] == Exec(s, steps).value
  {
    if steps == [] {
      states := [s];
    } else {
      var before := StatesOf(s, steps[..|steps| - 1]);
      states := before + [Exec(s, steps).value];
    }
  }

  lemma {:induction false} RunSize(states: seq<Sys>, steps: seq<Step>, k: nat)
    requires IsRun(states, steps) && k < |states|
    ensures |states[k].procs| == |states[0].procs|
  {
    if k > 0 {
      RunSize(states, steps, k - 1);
    }
  }

  /** A step that processor `i` takes for itself. */
  predicate OwnStep(step: Step, i: nat) {
    step == Take(i) || step == SnoopOne(i) || step == SnoopDone(i) || step == CommitStep(i)
  }

  lemma SnoopingStep(s: Sys, step: Step, i: nat)
    requires CapsOk(s) && Enabled(s, step) && i < |s.procs| && Next(s, step).procs[i].phase.Snooping?
    ensures var p, p' := s.procs[i], Next(s, step).procs[i];
            if step == Take(i) then p.traces != [] && p'.phase == Snooping(p.traces[0])
            else p.phase == p'.phase && (OwnStep(step, i) ==> step == SnoopOne(i))
  {
  }

  lemma ReadyStep(s: Sys, step: Step, i: nat)
    requires CapsOk(s) && Enabled(s, step) && i < |s.procs| && Next(s, step).procs[i].phase.Ready?
    ensures var p, p' := s.procs[i], Next(s, step).procs[i];
            && p'.core == p.core
            && if step == SnoopDone(i) then p.phase == Snooping(p'.phase.t) && p.requests == []
               else p.phase == p'.phase && !OwnStep(step, i)
  {
  }

  /** Where the processor took the trace it is serving. */
  lemma {:induction false} TookAt(states: seq<Sys>, steps: seq<Step>, k: nat, i: nat) returns (a: nat)
    requires IsRun(states, steps) && k < |states| && i < |states[0].procs| && i < |states[k].procs|
    requires states[0].procs[i].phase.Idle? && states[k].procs[i].phase.Snooping?
    ensures a < k && steps[a] == Take(i) && i < |states[a].procs|
    ensures states[a].procs[i].traces != [] && states[a].procs[i].traces[0] == states[k].procs[i].phase.t
    ensures forall m :: a < m < k && OwnStep(steps[m], i) ==> steps[m] == SnoopOne(i)
  {
    RunSize(states, steps, k);
    RunSize(states, steps, k - 1);
    SnoopingStep(states[k - 1], steps[k - 1], i);
    if steps[k - 1] == Take(i) {
      a := k - 1;
    } else {
      a := TookAt(states, steps, k - 1, i);
    }
  }

  /** Where it found its snoop queue empty. */
  lemma {:induction false} DrainedAt(states: seq<Sys>, steps: seq<Step>, k: nat, i: nat) returns (d: nat)
    requires IsRun(states, steps) && k < |states| && i < |states[0].procs| && i < |states[k].procs|
    requires states[0].procs[i].phase.Idle? && states[k].procs[i].phase.Ready?
    ensures d < k && steps[d] == SnoopDone(i) && i < |states[d].procs|
    ensures states[d].procs[i].phase == Snooping(states[k].procs[i].phase.t) && states[d].procs[i].requests == []
    ensures states[d].procs[i].core == states[k].procs[i].core
    ensures forall m :: d < m < k ==> !OwnStep(steps[m], i)
  {
    RunSize(states, steps, k);
    RunSize(states, steps, k - 1);
    ReadyStep(states[k - 1], steps[k - 1], i);
    if steps[k - 1] == SnoopDone(i) {
      d := k - 1;
    } else {
      d := DrainedAt(states, steps, k - 1, i);
    }
  }

  /** In every run, when processor `i` commits `t` at step `k`: the bus is not broadcasting;
      at a step `d` before, its snoop queue was empty, and it has done nothing to its cache
      since; and at a step `a` before that it took `t`, and only snooped in between. */
  lemma AccessIsWhole(states: seq<Sys>, steps: seq<Step>, k: nat, i: nat) returns (t: Trace, a: nat, d: nat)
    requires IsRun(states, steps) && i < |states[0].procs| && states[0].procs[i].phase.Idle?
    requires k < |steps| && steps[k] == CommitStep(i)
    ensures a < d < k && i < |states[a].procs| == |states[d].procs| == |states[k].procs|
    ensures states[k].sending.Free? && states[k].procs[i].phase == Ready(t)
    ensures steps[d] == SnoopDone(i) && states[d].procs[i].requests == []
    ensures states[d].procs[i].core == states[k].procs[i].core && forall m :: d < m < k ==> !OwnStep(steps[m], i)
    ensures steps[a] == Take(i) && states[a].procs[i].traces != [] && states[a].procs[i].traces[0] == t
    ensures forall m :: a < m < d && OwnStep(steps[m], i) ==> steps[m] == SnoopOne(i)
  {
    RunSize(states, steps, k);
    t := states[k].procs[i].phase.t;
    d := DrainedAt(states, steps, k, i);
    a := TookAt(states, steps, d, i);
    RunSize(states, steps, d);
    RunSize(states, steps, a);
  }
}
