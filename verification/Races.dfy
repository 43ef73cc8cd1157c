/** Where the actual states fall short of the effective ones: concrete runs, and the
    one line for which even the effective property fails. */
module Races {
  import opened Msi
  import opened Protocol
  import opened Machine
  import opened Coherence
  import opened Schedules
  import opened Eager

  lemma ReachInit(n: nat, cap: nat)
    requires 1 <= cap
    ensures Reachable(n, cap, Init(n, cap))
  {
    assert Exec(Init(n, cap), []) == Some(Init(n, cap));
  }

  lemma ReachRun(n: nat, cap: nat, s: Sys, steps: seq<Step>)
    requires Reachable(n, cap, s) && CapsOk(s) && Exec(s, steps).Some?
    ensures Reachable(n, cap, Exec(s, steps).value)
  {
    var before :| Exec(Init(n, cap), before) == Some(s);
    ExecAppend(Init(n, cap), before, steps);
  }

  lemma ReachStep(n: nat, cap: nat, s: Sys, step: Step)
    requires Reachable(n, cap, s) && CapsOk(s) && Enabled(s, step)
    ensures Reachable(n, cap, Next(s, step))
  {
    assert [] + [step] == [step];
    ExecSnoc(s, [], step);
    ReachRun(n, cap, s, [step]);
  }

  // ---- Schedules of single accesses ----

  lemma {:induction false} DrainNothing(cap: nat, rs: seq<BusTransaction>)
    requires 1 <= cap
    ensures Drain(InitCore(cap), rs) == InitCore(cap)
  {
    if rs != [] {
      assert Snoop(InitCore(cap), rs[0]) == InitCore(cap);
      DrainNothing(cap, rs[1..]);
    }
  }

  /** A state a schedule reaches, with the bus at rest. */
  ghost predicate Resting(n: nat, cap: nat, s: Sys) {
    Scheduled(n, cap, s) && |s.procs| == n && SysWf(s) && CapsOk(s) && s.sending.Free?
  }

  /** The processor has not accessed anything yet. */
  predicate Untried(p: Proc, cap: nat) {
    p.core == InitCore(cap) && p.phase.Idle? && p.traces == []
  }

  function TsnOf(op: PrTsn): BusTsn {
    if op == PrRd then BusRd else BusRdX
  }

  function TraceOf(op: PrTsn, x: nat): Trace {
    Trace(x, if op == PrRd then 'R' else 'W', 0)
  }

  /** What the first access of a processor makes of the state. */
  lemma ServeFirst(s: Sys, i: nat, cap: nat, op: PrTsn, x: nat)
    requires CapsOk(s) && CanServe(s, i) && 1 <= cap && IsLine(x)
    requires s.procs[i].core == InitCore(cap) && s.procs[i].traces == [TraceOf(op, x)]
    ensures var s' := Serve(s, i);
            && s'.procs == s.procs[i := s'.procs[i]] && s'.sending.Free?
            && s'.procs[i].phase.Idle? && s'.procs[i].traces == [] && s'.procs[i].requests == []
            && Local(s'.procs[i].core, x) == Upgrade(I, op)
            && s'.bus == s.bus + [BusTransaction(x, i, TsnOf(op), 0)]
  {
    ConvertIsIdentityOnLines(x);
    DrainNothing(cap, s.procs[i].requests);
    CommitEffect(InitCore(cap), i, op, x, 0);
  }

  lemma RestingAct(n: nat, cap: nat, s: Sys, a: Action)
    requires Resting(n, cap, s) && CanAct(s, a) && LazyAct(s, a).sending.Free?
    ensures Resting(n, cap, LazyAct(s, a))
  {
    ScheduledAct(n, cap, s, a);
    ScheduledIsReachable(n, cap, LazyAct(s, a));
    ReachableWf(n, cap, LazyAct(s, a));
  }

  /** A processor makes its first access, to line `x`. */
  lemma FirstAccess(n: nat, cap: nat, s: Sys, i: nat, op: PrTsn, x: nat) returns (s': Sys)
    requires Resting(n, cap, s) && i < n && Untried(s.procs[i], cap) && IsLine(x)
    ensures Resting(n, cap, s') && s'.procs == s.procs[i := s'.procs[i]]
    ensures s'.procs[i].phase.Idle? && s'.procs[i].traces == [] && s'.procs[i].requests == []
    ensures Local(s'.procs[i].core, x) == Upgrade(I, op)
    ensures s'.bus == s.bus + [BusTransaction(x, i, TsnOf(op), 0)]
  {
    var t := TraceOf(op, x);
    var mid := Next(s, Enqueue(i, t));
    var p := s.procs[i].(traces := [t]);
    assert s.procs[i].traces + [t] == [t];
    assert mid == WithProc(s, i, p);
    RestingAct(n, cap, s, Arrive(i, t));
    ServeFirst(mid, i, cap, op, x);
    s' := Serve(mid, i);
    RestingAct(n, cap, mid, Turn(i));
    WithProcTwice(s, i, p, s'.procs[i]);
  }

  /** The only transaction on the bus is broadcast. */
  lemma TransmitOne(n: nat, cap: nat, s: Sys, r: BusTransaction) returns (s': Sys)
    requires Resting(n, cap, s) && s.bus == [r]
    ensures Resting(n, cap, s') && s'.bus == []
    ensures forall j :: 0 <= j < n ==> s'.procs[j] == Offer(s.procs[j], j, r)
  {
    s' := LazyAct(s, Transmit);
    RestingAct(n, cap, s, Transmit);
  }

  lemma StartResting(n: nat, cap: nat)
    requires 1 <= cap
    ensures Resting(n, cap, Init(n, cap)) && forall i :: 0 <= i < n ==> Untried(Init(n, cap).procs[i], cap)
  {
    ScheduledInit(n, cap);
  }

  // ---- Two processors holding what only one may hold ----

  /** Two writes before either transaction is broadcast. */
  lemma TwoWriters(n: nat, cap: nat, x: nat) returns (s: Sys)
    requires 2 <= n && 1 <= cap && IsLine(x)
    ensures Resting(n, cap, s) && Local(s.procs[0].core, x) == M && Local(s.procs[1].core, x) == M
    ensures s.procs[0].phase.Idle? && s.procs[0].traces == [] && s.procs[0].requests == []
    ensures Pending(s, 0) == [BusTransaction(x, 1, BusRdX, 0)] && Pending(s, 1) == [BusTransaction(x, 0, BusRdX, 0)]
  {
    StartResting(n, cap);
    var one := FirstAccess(n, cap, Init(n, cap), 0, PrWr, x);
    s := FirstAccess(n, cap, one, 1, PrWr, x);
    EachSeesTheOther(s, BusTransaction(x, 0, BusRdX, 0), BusTransaction(x, 1, BusRdX, 0));
  }

  lemma OthersOfTwo(r0: BusTransaction, r1: BusTransaction, i: nat)
    ensures Others([r0, r1], i) == (if r0.tid == i then [] else [r0]) + (if r1.tid == i then [] else [r1])
  {
    assert [r0, r1] == [r0] + [r1];
    OthersAppend([r0], [r1], i);
    OthersOne(r0, i);
    OthersOne(r1, i);
  }

  lemma EachSeesTheOther(s: Sys, r0: BusTransaction, r1: BusTransaction)
    requires r0.tid == 0 && r1.tid == 1 && s.bus == [r0, r1] && s.sending.Free?
    requires 2 <= |s.procs| && s.procs[0].requests == [] && s.procs[1].requests == []
    ensures Pending(s, 0) == [r1] && Pending(s, 1) == [r0]
  {
    OthersOfTwo(r0, r1, 0);
    OthersOfTwo(r0, r1, 1);
  }

  /** One processor accesses the line and everybody hears of it. */
  lemma AccessAndTransmit(n: nat, cap: nat, x: nat, i: nat, op: PrTsn) returns (s: Sys)
    requires i < n && 1 <= cap && IsLine(x)
    ensures Resting(n, cap, s) && s.bus == []
    ensures Local(s.procs[i].core, x) == Upgrade(I, op) && s.procs[i].requests == []
    ensures forall j :: 0 <= j < n && j != i ==> Untried(s.procs[j], cap)
  {
    StartResting(n, cap);
    var one := FirstAccess(n, cap, Init(n, cap), i, op, x);
    var r := BusTransaction(x, i, TsnOf(op), 0);
    assert one.bus == [r];
    s := TransmitOne(n, cap, one, r);
    assert s.procs[i] == one.procs[i];
  }

  /** After that another processor accesses it, and the first has not heard of this yet. */
  lemma OneBehind(n: nat, cap: nat, x: nat, i: nat, first: PrTsn, j: nat, second: PrTsn) returns (s: Sys)
    requires i < n && j < n && i != j && 1 <= cap && IsLine(x)
    ensures Resting(n, cap, s)
    ensures Local(s.procs[i].core, x) == Upgrade(I, first) && Local(s.procs[j].core, x) == Upgrade(I, second)
    ensures Pending(s, i) == [BusTransaction(x, j, TsnOf(second), 0)] && Pending(s, j) == []
  {
    var r := BusTransaction(x, j, TsnOf(second), 0);
    var heard := AccessAndTransmit(n, cap, x, i, first);
    s := FirstAccess(n, cap, heard, j, second, x);
    assert s.bus == [r] && s.procs[i] == heard.procs[i];
    OthersOne(r, i);
    OthersOne(r, j);
  }

  /** Instantaneous exclusion is not a property of the simulator: for every line there
      is a reachable state in which two processors hold it modified. */
  lemma ActualStatesAreNotExclusive(n: nat, cap: nat, x: nat)
    requires 2 <= n && 1 <= cap && IsLine(x)
    ensures exists s :: Reachable(n, cap, s) && |s.procs| == n
                        && Local(s.procs[0].core, x) == M && Local(s.procs[1].core, x) == M
  {
    var s := TwoWriters(n, cap, x);
    ScheduledIsReachable(n, cap, s);
  }

  /** In `s` nothing that is pending disturbs a writer at `i`, and nothing a reader at
      `j`, exactly as the two flags say. */
  ghost predicate Disturbance(s: Sys, x: nat, i: nat, j: nat, calmOwner: bool, calmOther: bool) {
    && i < |s.procs| && j < |s.procs| && i != j
    && Undisturbed(Pending(s, i), x, PrWr) == calmOwner && Undisturbed(Pending(s, j), x, PrRd) == calmOther
  }

  /** Some reachable state with that disturbance has a modified copy beside a valid one. */
  lemma SharedOwner(n: nat, cap: nat, x: nat, calmOwner: bool, calmOther: bool) returns (s: Sys, i: nat, j: nat)
    requires 2 <= n && 1 <= cap && IsLine(x) && !(calmOwner && calmOther)
    ensures Reachable(n, cap, s) && Disturbance(s, x, i, j, calmOwner, calmOther)
    ensures Local(s.procs[i].core, x) == M && Local(s.procs[j].core, x) != I
  {
    i, j := 0, 1;
    if calmOwner {
      s := OneBehind(n, cap, x, 1, PrRd, 0, PrWr);
      assert Pending(s, 1)[0] in Pending(s, 1);
    } else if calmOther {
      s := OneBehind(n, cap, x, 0, PrWr, 1, PrRd);
      assert Pending(s, 0)[0] in Pending(s, 0);
    } else {
      s := TwoWriters(n, cap, x);
      assert Pending(s, 0)[0] in Pending(s, 0) && Pending(s, 1)[0] in Pending(s, 1);
    }
    ScheduledIsReachable(n, cap, s);
  }

  /** When the actual copies are exclusive: over the reachable states, a line modified at
      one processor is invalid at another exactly when nothing on it is pending at the
      first and no exclusive request on it is pending at the second. */
  lemma ExclusionIff(n: nat, cap: nat, x: nat, calmOwner: bool, calmOther: bool)
    requires 2 <= n && 1 <= cap && IsLine(x) && x != 0
    ensures (forall s, i: nat, j: nat | Reachable(n, cap, s) && Disturbance(s, x, i, j, calmOwner, calmOther) ::
               Local(s.procs[i].core, x) == M ==> Local(s.procs[j].core, x) == I)
            <==> calmOwner && calmOther
  {
    if calmOwner && calmOther {
      forall s, i: nat, j: nat | Reachable(n, cap, s) && Disturbance(s, x, i, j, true, true)
        ensures Local(s.procs[i].core, x) == M ==> Local(s.procs[j].core, x) == I
      {
        UndisturbedSingleWriter(n, cap, s, x, i, j);
      }
    } else {
      var s, i, j := SharedOwner(n, cap, x, calmOwner, calmOther);
    }
  }

  lemma {:induction false} FoldNullLine(st: State, rs: seq<BusTransaction>)
    ensures FoldLine(0, st, rs) == st
  {
    if rs != [] {
      FoldNullLine(st, rs[1..]);
    }
  }

  /** Effective exclusion holds in all reachable states exactly for the lines other
      than the one at address zero, whose null tag makes every snoop skip it. */
  lemma SingleWriterIff(n: nat, cap: nat, x: nat)
    requires 2 <= n && 1 <= cap && IsLine(x)
    ensures (forall s | Reachable(n, cap, s) :: SingleWriter(s, x)) <==> x != 0
  {
    if x == 0 {
      var s := TwoWriters(n, cap, 0);
      ScheduledIsReachable(n, cap, s);
      FoldNullLine(M, Pending(s, 0));
      FoldNullLine(M, Pending(s, 1));
      assert Effective(s, 0, 0) == M && Effective(s, 1, 0) == M;
    } else {
      forall s | Reachable(n, cap, s) ensures SingleWriter(s, x) {
        SingleWriterAlways(n, cap, s, x);
      }
    }
  }

  /** Processor `i` has taken `t` and is about to look its line up. */
  function Readied(s: Sys, i: nat, t: Trace): Sys
    requires i < |s.procs|
  {
    WithProc(s, i, s.procs[i].(phase := Ready(t)))
  }

  lemma GetReady(s: Sys, i: nat, t: Trace)
    requires CapsOk(s) && i < |s.procs| && IsAccess(t)
    requires s.procs[i].phase.Idle? && s.procs[i].traces == [] && s.procs[i].requests == []
    ensures Exec(Next(s, Enqueue(i, t)), [Take(i), SnoopDone(i)]) == Some(Readied(s, i, t))
  {
    var p := s.procs[i];
    var s1 := Next(s, Enqueue(i, t));
    assert p.traces + [t] == [t] && [t][1..] == p.traces;
    assert s1 == WithProc(s, i, p.(traces := [t]));
    var s2 := Next(s1, Take(i));
    WithProcTwice(s, i, p.(traces := [t]), p.(phase := Snooping(t)));
    assert s2 == WithProc(s, i, p.(phase := Snooping(t)));
    WithProcTwice(s, i, p.(phase := Snooping(t)), p.(phase := Ready(t)));
    ExecTwo(s1, Take(i), SnoopDone(i));
  }

  /** A line that is modified in the cache counts as invalid once the invalidation on its
      way has arrived. */
  lemma StaleLine(s: Sys, x: nat, t: Trace)
    requires 1 <= |s.procs| && x != 0 && Local(s.procs[0].core, x) == M
    requires Pending(s, 0) == [BusTransaction(x, 1, BusRdX, 0)]
    ensures Effective(Readied(s, 0, t), 0, x) == I
  {
    assert Pending(Readied(s, 0, t), 0) == Pending(s, 0);
    FoldOne(x, M, BusTransaction(x, 1, BusRdX, 0));
  }

  /** The race the authors worry about: a read that hits on a line which is
      effectively invalid, because the invalidation has not arrived. */
  lemma StaleHit(n: nat, cap: nat, x: nat) returns (s: Sys)
    requires 2 <= n && 1 <= cap && IsLine(x) && x != 0
    ensures Reachable(n, cap, s) && CapsOk(s) && |s.procs| == n && Enabled(s, CommitStep(0))
    ensures s.procs[0].phase == Ready(Trace(x, 'R', 0))
    ensures Effective(s, 0, x) == I && CommitOf(s, 0).1 == None
  {
    var t := Trace(x, 'R', 0);
    var s0 := TwoWriters(n, cap, x);
    s := Readied(s0, 0, t);
    GetReady(s0, 0, t);
    StaleLine(s0, x, t);
    ScheduledIsReachable(n, cap, s0);
    ReachStep(n, cap, s0, Enqueue(0, t));
    ReachRun(n, cap, Next(s0, Enqueue(0, t)), [Take(0), SnoopDone(0)]);
    ConvertIsIdentityOnLines(x);
    CommitEffect(s.procs[0].core, 0, PrRd, x, 0);
  }
}
