/** What holds of whole runs of the threads: program order from the records the input
    thread reads to the accesses each processor performs, the miss rate, and progress. */
module ThreadRuns {
  import opened Msi
  import opened Protocol
  import opened Ledger
  import opened Accounts
  import P = ProgramOrder
  import T = Termination
  import Demux
  import opened Threads
  import opened ThreadSafety

  /** The threads before their first action. */
  ghost function Start(n: nat, cap: nat): (f: Prog)
    requires 1 <= cap
    ensures f == Init(n, cap) && Inv(f) && f.ipc.Idle?
  {
    InitInv(n, cap);
    Init(n, cap)
  }

  /** The traces the input thread has read for processor `i`, in order. */
  function Chosen(acts: seq<Action>, i: nat): seq<Trace> {
    if acts == [] then []
    else
      var before, a := Chosen(acts[..|acts| - 1], i), acts[|acts| - 1];
      if a.InChoose? && a.i == i then before + [a.t] else before
  }

  /** The trace the input thread has read and not yet handed over. */
  function InputHand(ipc: InputPc, i: nat): seq<Trace> {
    if !ipc.Idle? && ipc.i == i then [ipc.t] else []
  }

  /** Every record read is handed over, in order. */
  lemma {:induction false} ChosenArrive(f: Prog, acts: seq<Action>, i: nat)
    requires Inv(f) && f.ipc.Idle? && Exec(f, acts).Some?
    ensures Chosen(acts, i) == P.Arrivals(StepsOf(f, acts), i) + InputHand(Exec(f, acts).value.ipc, i)
  {
    if acts != [] {
      var before, a := acts[..|acts| - 1], acts[|acts| - 1];
      var mid := Exec(f, before).value;
      ChosenArrive(f, before, i);
      ArrivalsMore(StepsOf(f, before), Meaning(mid, a), i);
      Shift(P.Arrivals(StepsOf(f, before), i), InputHand(mid.ipc, i), if a.InChoose? && a.i == i then [a.t] else [],
            Handed(Meaning(mid, a), i), InputHand(Next(mid, a).ipc, i));
    }
  }

  lemma Shift(a: seq<Trace>, b: seq<Trace>, c: seq<Trace>, d: seq<Trace>, e: seq<Trace>)
    requires b + c == d + e
    ensures a + b + c == a + d + e
  {
    assert a + b + c == a + (b + c);
    assert a + d + e == a + (d + e);
  }

  /** What a step hands to processor `i`. */
  function Handed(step: Option<M.Step>, i: nat): seq<Trace> {
    if step.Some? && step.value.Enqueue? && step.value.i == i then [step.value.t] else []
  }

  lemma ArrivalsMore(steps: seq<M.Step>, step: Option<M.Step>, i: nat)
    ensures P.Arrivals(steps + (if step.Some? then [step.value] else []), i) ==
            P.Arrivals(steps, i) + Handed(step, i)
  {
    if step.Some? {
      assert (steps + [step.value])[..|steps|] == steps;
    } else {
      assert steps + [] == steps;
    }
  }

  // ---- Program order ----

  lemma RunOf(n: nat, cap: nat, acts: seq<Action>)
    requires 1 <= cap && Exec(Start(n, cap), acts).Some?
    ensures var steps := StepsOf(Start(n, cap), acts);
            M.Exec(M.Init(n, cap), steps) == Some(Abs(Exec(Start(n, cap), acts).value))
  {
    AbsInit(n, cap);
    ExecRefines(Start(n, cap), acts);
  }

  /** In every run of the threads, what a processor has performed, has in hand and has
      waiting, and what the input thread is about to hand it, are exactly the accesses
      read for it, each once and in order. */
  lemma ThreadsKeepProgramOrder(n: nat, cap: nat, acts: seq<Action>, i: nat)
    requires 1 <= cap && Exec(Start(n, cap), acts).Some? && i < n
    ensures var f := Exec(Start(n, cap), acts).value;
            && i < |f.cpus|
            && P.Performed(f.cpus[i].history) + P.InHand(AbsCpu(f.cpus[i]).phase) + P.Accesses(f.cpus[i].traces) +
               P.Accesses(InputHand(f.ipc, i)) == P.Accesses(Chosen(acts, i))
  {
    var f, steps := Exec(Start(n, cap), acts).value, StepsOf(Start(n, cap), acts);
    RunOf(n, cap, acts);
    P.ProgramOrderAlways(n, cap, steps, i);
    ChosenArrive(Start(n, cap), acts, i);
    P.AccessesAppend(P.Arrivals(steps, i), InputHand(f.ipc, i));
  }

  /** Nothing is left to read, to serve or to broadcast. */
  ghost predicate AllDone(f: Prog) {
    f.ipc.Idle? && T.Finished(Abs(f))
  }

  /** The input thread reads the trace `rs`, renaming threads in first-seen order. */
  ghost predicate ReadsTrace(acts: seq<Action>, rs: seq<Demux.Record>, n: nat) {
    var ids := Demux.FirstSeen(Demux.Rids(rs));
    && |ids| <= n
    && (forall i :: 0 <= i < n ==> Chosen(acts, i) == if i < |ids| then Demux.Own(rs, ids[i]) else [])
  }

  /** Once a run of the threads that reads a trace is done, each processor has performed
      exactly its thread's accesses, in program order. */
  lemma ThreadsPerformTrace(n: nat, cap: nat, acts: seq<Action>, rs: seq<Demux.Record>, i: nat)
    requires 1 <= cap && Exec(Start(n, cap), acts).Some? && i < n
    requires ReadsTrace(acts, rs, n) && AllDone(Exec(Start(n, cap), acts).value)
    ensures var ids, f := Demux.FirstSeen(Demux.Rids(rs)), Exec(Start(n, cap), acts).value;
            && i < |f.cpus|
            && P.Performed(f.cpus[i].history) == if i < |ids| then P.Accesses(Demux.Own(rs, ids[i])) else []
  {
    var f := Exec(Start(n, cap), acts).value;
    ThreadsKeepProgramOrder(n, cap, acts, i);
    assert Abs(f).procs[i] == AbsCpu(f.cpus[i]);
    assert P.Accesses([]) == [];
  }

  // ---- The miss rate ----

  ghost predicate AlignedReads(acts: seq<Action>) {
    forall a | a in acts && a.InChoose? && a.t.kind == 'W' :: IsLine(a.t.addr)
  }

  lemma {:induction false} ChosenStem(acts: seq<Action>, i: nat)
    ensures forall t :: t in Chosen(acts, i) ==> InChoose(i, t) in acts
  {
    if acts != [] {
      ChosenStem(acts[..|acts| - 1], i);
    }
  }

  lemma {:induction false} ArrivalsHave(steps: seq<M.Step>, i: nat, t: Trace)
    requires M.Enqueue(i, t) in steps
    ensures t in P.Arrivals(steps, i)
  {
    var before := steps[..|steps| - 1];
    if M.Enqueue(i, t) in before {
      ArrivalsHave(before, i, t);
    }
  }

  lemma StepsAligned(f: Prog, acts: seq<Action>)
    requires Inv(f) && f.ipc.Idle? && Exec(f, acts).Some? && AlignedReads(acts)
    ensures P.AlignedInput(StepsOf(f, acts))
  {
    forall step | step in StepsOf(f, acts) && step.Enqueue? && step.t.kind == 'W' ensures IsLine(step.t.addr) {
      ArrivalsHave(StepsOf(f, acts), step.i, step.t);
      ChosenArrive(f, acts, step.i);
      ChosenStem(acts, step.i);
      assert InChoose(step.i, step.t) in acts;
    }
  }

  /** The lookups of an access count one miss at most when a write is aligned. */
  lemma LookMisses(p: Core, op: PrTsn, addr: nat, cnt: int)
    requires CoreWf(p) && (op == PrWr ==> IsLine(addr))
    ensures Misses(Look(p, op, addr, cnt).core) <= Misses(p) + 1
  {
    FoundFacts(p, addr);
    FoundCount(p, addr, I);
    ConvertIsIdentityOnLines(addr);
  }

  /** The access in hand, if it is a write, is one that arrived. */
  lemma HandAligned(n: nat, cap: nat, steps: seq<M.Step>, i: nat)
    requires 1 <= cap && M.Exec(M.Init(n, cap), steps).Some? && i < n && P.AlignedInput(steps)
    ensures var phase := M.Exec(M.Init(n, cap), steps).value.procs[i].phase;
            !phase.Idle? ==> M.IsAccess(phase.t) && (M.OpOf(phase.t) == PrWr ==> IsLine(phase.t.addr))
  {
    var p := M.Exec(M.Init(n, cap), steps).value.procs[i];
    P.ProgramOrderAlways(n, cap, steps, i);
    if !p.phase.Idle? {
      var e := M.Accessed(M.OpOf(p.phase.t), p.phase.t.addr, p.phase.t.cnt);
      assert e in P.InHand(p.phase);
      assert e in P.Performed(p.history) + P.InHand(p.phase) + P.Accesses(p.traces);
      P.AccessesStem(P.Arrivals(steps, i), e);
      P.ArrivalsStem(steps, i);
    }
  }

  /** In a run of the machine, misses and the access in hand are within the arrivals. */
  lemma MissesAndHand(n: nat, cap: nat, steps: seq<M.Step>, i: nat)
    requires 1 <= cap && M.Exec(M.Init(n, cap), steps).Some? && i < n && P.AlignedInput(steps)
    ensures var p := M.Exec(M.Init(n, cap), steps).value.procs[i];
            Misses(p.core) + |P.InHand(p.phase)| <= |P.Arrivals(steps, i)|
  {
    var s := M.Exec(M.Init(n, cap), steps).value;
    P.InputAligned(n, cap, steps, i);
    ReachableTraffic(n, cap, s, i);
    P.AccessesPerformed(cap, i, s.procs[i].history);
    P.ProgramOrderAlways(n, cap, steps, i);
    P.AtMostOneEach(P.Arrivals(steps, i));
  }

  /** Between its lookups and its push a thread has counted one miss more at most. */
  lemma CoreMisses(c: CpuState)
    requires LookedUp(c) && CoreWf(AbsCpu(c).core)
    requires var phase := AbsCpu(c).phase;
             !phase.Idle? ==> M.IsAccess(phase.t) && (M.OpOf(phase.t) == PrWr ==> IsLine(phase.t.addr))
    ensures Misses(c.core) <= Misses(AbsCpu(c).core) + |P.InHand(AbsCpu(c).phase)|
  {
    if c.pc.WantBus? || c.pc.OnBus? {
      LookMisses(c.pc.base, M.OpOf(c.pc.t), c.pc.t.addr, c.pc.t.cnt);
    }
  }

  /** What a processor's counters show at any moment is within what it was handed. */
  lemma CpuMisses(n: nat, cap: nat, acts: seq<Action>, i: nat)
    requires 1 <= cap && Exec(Start(n, cap), acts).Some? && i < n && AlignedReads(acts)
    ensures var f := Exec(Start(n, cap), acts).value;
            i < |f.cpus| && Misses(f.cpus[i].core) <= |P.Arrivals(StepsOf(Start(n, cap), acts), i)|
  {
    var f, steps := Exec(Start(n, cap), acts).value, StepsOf(Start(n, cap), acts);
    RunOf(n, cap, acts);
    StepsAligned(Start(n, cap), acts);
    HandAligned(n, cap, steps, i);
    MissesAndHand(n, cap, steps, i);
    Coherence.ReachableWf(n, cap, Abs(f));
    assert Abs(f).procs[i] == AbsCpu(f.cpus[i]) && M.ProcWf(Abs(f).procs[i]);
    CoreMisses(f.cpus[i]);
  }

  function ThreadMisses(cpus: seq<CpuState>): nat {
    if cpus == [] then 0 else ThreadMisses(cpus[..|cpus| - 1]) + Misses(cpus[|cpus| - 1].core)
  }

  /** How many records the input thread has read. */
  function Records(acts: seq<Action>): nat {
    if acts == [] then 0 else Records(acts[..|acts| - 1]) + Bit(acts[|acts| - 1].InChoose?)
  }

  lemma FedMore(steps: seq<M.Step>, step: Option<M.Step>)
    ensures P.Fed(steps + (if step.Some? then [step.value] else [])) ==
            P.Fed(steps) + Bit(step.Some? && step.value.Enqueue?)
  {
    if step.Some? {
      assert (steps + [step.value])[..|steps|] == steps;
    } else {
      assert steps + [] == steps;
    }
  }

  lemma HandCounts(f: Prog, a: Action)
    requires Inv(f) && Enabled(f, a)
    ensures var step := Meaning(f, a);
            Bit(!f.ipc.Idle?) + Bit(a.InChoose?) ==
            Bit(step.Some? && step.value.Enqueue?) + Bit(!Next(f, a).ipc.Idle?)
  {
  }

  lemma {:induction false} FedIsRead(f: Prog, acts: seq<Action>)
    requires Inv(f) && f.ipc.Idle? && Exec(f, acts).Some?
    ensures P.Fed(StepsOf(f, acts)) + Bit(!Exec(f, acts).value.ipc.Idle?) == Records(acts)
  {
    if acts != [] {
      var before, a := acts[..|acts| - 1], acts[|acts| - 1];
      FedIsRead(f, before);
      HandCounts(Exec(f, before).value, a);
      FedMore(StepsOf(f, before), Meaning(Exec(f, before).value, a));
    }
  }

  lemma {:induction false} ThreadMissesBelow(n: nat, cap: nat, acts: seq<Action>, f: Prog, k: nat)
    requires 1 <= cap && Exec(Start(n, cap), acts) == Some(f) && AlignedReads(acts)
    requires k <= n == |f.cpus|
    ensures ThreadMisses(f.cpus[..k]) <= P.ArrivedBelow(StepsOf(Start(n, cap), acts), k)
  {
    if k > 0 {
      ThreadMissesBelow(n, cap, acts, f, k - 1);
      CpuMisses(n, cap, acts, k - 1);
      assert f.cpus[..k][..k - 1] == f.cpus[..k - 1];
    }
  }

  /** At any moment of any run of the threads whose input has line-aligned writes, the
      misses in all caches together are within the records read. */
  lemma ThreadMissRateAtMostOne(n: nat, cap: nat, acts: seq<Action>)
    requires 1 <= cap && Exec(Start(n, cap), acts).Some? && AlignedReads(acts)
    ensures ThreadMisses(Exec(Start(n, cap), acts).value.cpus) <= Records(acts)
  {
    var f, steps := Exec(Start(n, cap), acts).value, StepsOf(Start(n, cap), acts);
    RunOf(n, cap, acts);
    assert |f.cpus| == |Abs(f).procs| == n;
    ThreadMissesBelow(n, cap, acts, f, n);
    P.ArrivalsAreFed(steps, n);
    FedIsRead(Start(n, cap), acts);
    assert f.cpus[..n] == f.cpus;
  }

  // ---- Progress ----

  /** Accesses completed and transactions taken off the bus. */
  function Progress(acts: seq<Action>): nat {
    if acts == [] then 0
    else Progress(acts[..|acts| - 1]) + Bit(acts[|acts| - 1].CpuPush? || acts[|acts| - 1].BusPop?)
  }

  ghost predicate NothingHandedOver(acts: seq<Action>) {
    forall a | a in acts :: !a.InPush?
  }

  lemma ProgressMore(steps: seq<M.Step>, step: Option<M.Step>)
    ensures T.ProgressCount(steps + (if step.Some? then [step.value] else [])) ==
            T.ProgressCount(steps) + Bit(step.Some? && T.IsProgress(step.value))
  {
    if step.Some? {
      assert (steps + [step.value])[..|steps|] == steps;
    } else {
      assert steps + [] == steps;
    }
  }

  lemma ProgressMeaning(f: Prog, a: Action)
    requires Inv(f) && Enabled(f, a) && !a.InPush?
    ensures var step := Meaning(f, a);
            && (step.Some? ==> !step.value.Enqueue?)
            && Bit(step.Some? && T.IsProgress(step.value)) == Bit(a.CpuPush? || a.BusPop?)
  {
  }

  lemma {:induction false} ProgressSteps(f: Prog, acts: seq<Action>)
    requires Inv(f) && Exec(f, acts).Some? && NothingHandedOver(acts)
    ensures T.NoInput(StepsOf(f, acts)) && T.ProgressCount(StepsOf(f, acts)) == Progress(acts)
  {
    if acts != [] {
      var before, a := acts[..|acts| - 1], acts[|acts| - 1];
      var step := Meaning(Exec(f, before).value, a);
      ProgressSteps(f, before);
      ProgressMeaning(Exec(f, before).value, a);
      ProgressMore(StepsOf(f, before), step);
    }
  }

  /** From any state of the threads, while nothing new is handed over, the accesses
      completed and the transactions sent are within twice the outstanding traces plus
      the bus queue, however the threads interleave. */
  lemma ThreadProgressIsBounded(f: Prog, acts: seq<Action>)
    requires Inv(f) && Exec(f, acts).Some? && NothingHandedOver(acts)
    ensures Progress(acts) + T.Work(Abs(Exec(f, acts).value)) <= T.Work(Abs(f))
  {
    ExecRefines(f, acts);
    ProgressSteps(f, acts);
    T.ProgressIsBounded(Abs(f), StepsOf(f, acts));
  }
}
