/** The other direction of the refinement: whatever a schedule of uninterrupted rounds and
    broadcasts reaches, the locked threads reach too. So the races shown of the step
    machine are races of the threads. */
module ThreadSchedules {
  import opened Msi
  import opened Protocol
  import Schedules
  import Eager
  import opened Threads
  import opened ThreadSafety

  /** Every thread but `th` is at the top of its loop. */
  ghost predicate Alone(f: Prog, th: Thread) {
    && (forall j :: 0 <= j < |f.cpus| && th != Cpu(j) ==> f.cpus[j].pc.Check?)
    && (th != BusLoop ==> f.bpc.BCheck?)
    && (th != Input ==> f.ipc.Idle?)
  }

  ghost predicate Rest(f: Prog) {
    (forall j :: 0 <= j < |f.cpus| ==> f.cpus[j].pc.Check?) && f.bpc.BCheck? && f.ipc.Idle?
  }

  /** The threads have got to `f` with only `th` away from the top of its loop, having
      carried out `steps` since they stood for `s`. */
  ghost predicate At(n: nat, cap: nat, s: M.Sys, steps: seq<M.Step>, f: Prog, th: Thread) {
    && Reachable(n, cap, f) && Inv(f) && Alone(f, th)
    && M.CapsOk(s) && M.Exec(s, steps) == Some(Abs(f))
  }

  lemma ReachAction(n: nat, cap: nat, f: Prog, a: Action)
    requires Reachable(n, cap, f) && Inv(f) && Enabled(f, a)
    ensures Reachable(n, cap, Next(f, a)) && Inv(Next(f, a))
  {
    InitInv(n, cap);
    var acts :| Exec(Init(n, cap), acts) == Some(f);
    assert (acts + [a])[..|acts|] == acts;
    assert Exec(Init(n, cap), acts + [a]) == Some(Next(f, a));
    StepInv(f, a);
  }

  lemma OthersStay(f: Prog, a: Action, th: Thread)
    requires Inv(f) && Alone(f, th) && Enabled(f, a) && By(a, th)
    ensures Alone(Next(f, a), th)
  {
  }

  /** One action more: the steps grow by the step it completes, if any. */
  lemma Do(n: nat, cap: nat, s: M.Sys, steps: seq<M.Step>, f: Prog, th: Thread, a: Action)
    requires At(n, cap, s, steps, f, th) && Enabled(f, a) && By(a, th)
    ensures Meaning(f, a).None? ==> At(n, cap, s, steps, Next(f, a), th)
    ensures Meaning(f, a).Some? ==> At(n, cap, s, steps + [Meaning(f, a).value], Next(f, a), th)
  {
    ReachAction(n, cap, f, a);
    OthersStay(f, a, th);
    ActionSimulates(f, a);
    if Meaning(f, a).Some? {
      M.ExecSnoc(s, steps, Meaning(f, a).value);
    }
  }

  // ---- A round of a processor's loop ----

  /** Whoever holds the bus lock is on the bus. */
  lemma BusOwner(f: Prog)
    requires Inv(f)
    ensures f.busLock.Some? ==> BusBusy(f.bpc) || exists j :: 0 <= j < |f.cpus| && f.cpus[j].pc.OnBus?
  {
    if f.busLock.Some? && f.busLock.value.Cpu? {
      assert LockedAt(f, f.busLock.value.i);
    }
  }

  /** With the other threads at the top of their loops, all locks a processor may want are free. */
  lemma LocksFree(f: Prog, i: nat)
    requires Inv(f) && Alone(f, Cpu(i)) && i < |f.cpus|
    ensures f.cpus[i].pc.WantTrace? ==> f.traceLock[i] == None
    ensures !f.cpus[i].pc.Draining? ==> f.queueLock[i] == None
    ensures !f.cpus[i].pc.OnBus? ==> f.busLock == None
  {
    assert LockedAt(f, i);
    BusOwner(f);
  }

  lemma TakeTrace(n: nat, cap: nat, s: M.Sys, f: Prog, i: nat) returns (f': Prog)
    requires At(n, cap, s, [], f, Cpu(i)) && i < |f.cpus| && f.cpus[i].pc.Check? && f.cpus[i].traces != []
    ensures At(n, cap, s, [M.Take(i)], f', Cpu(i)) && |f'.cpus| == |f.cpus|
    ensures var t := f.cpus[i].traces[0]; f'.cpus[i].pc == if M.IsAccess(t) then WantQueue(t) else Leave
    ensures f'.cpus[i].requests == f.cpus[i].requests
  {
    Do(n, cap, s, [], f, Cpu(i), CpuCheck(i));
    var f1 := Next(f, CpuCheck(i));
    LocksFree(f1, i);
    Do(n, cap, s, [], f1, Cpu(i), CpuLock(i));
    var f2 := Next(f1, CpuLock(i));
    Do(n, cap, s, [], f2, Cpu(i), CpuPop(i));
    f' := Next(f2, CpuPop(i));
    assert [] + [M.Take(i)] == [M.Take(i)];
  }

  lemma OpenQueue(n: nat, cap: nat, s: M.Sys, steps: seq<M.Step>, f: Prog, i: nat, t: Trace) returns (f': Prog)
    requires At(n, cap, s, steps, f, Cpu(i)) && i < |f.cpus| && f.cpus[i].pc == WantQueue(t)
    ensures At(n, cap, s, steps, f', Cpu(i)) && |f'.cpus| == |f.cpus| && f'.cpus[i].pc == Draining(t)
    ensures f'.cpus[i].requests == f.cpus[i].requests
  {
    LocksFree(f, i);
    Do(n, cap, s, steps, f, Cpu(i), CpuLockQueue(i));
    f' := Next(f, CpuLockQueue(i));
  }

  lemma SnoopNext(n: nat, cap: nat, s: M.Sys, steps: seq<M.Step>, f: Prog, i: nat, t: Trace) returns (f': Prog)
    requires At(n, cap, s, steps, f, Cpu(i)) && i < |f.cpus| && f.cpus[i].pc == Draining(t) && f.cpus[i].requests != []
    ensures At(n, cap, s, steps + [M.SnoopOne(i)], f', Cpu(i)) && |f'.cpus| == |f.cpus|
    ensures f'.cpus[i].pc == Draining(t) && |f'.cpus[i].requests| == |f.cpus[i].requests| - 1
  {
    Do(n, cap, s, steps, f, Cpu(i), CpuSnoop(i));
    f' := Next(f, CpuSnoop(i));
  }

  lemma {:induction false} SnoopSome(n: nat, cap: nat, s: M.Sys, steps: seq<M.Step>, f: Prog, i: nat, t: Trace, k: nat)
    returns (f': Prog)
    requires At(n, cap, s, steps, f, Cpu(i)) && i < |f.cpus| && f.cpus[i].pc == Draining(t)
    requires k <= |f.cpus[i].requests|
    ensures At(n, cap, s, steps + Schedules.Repeat(M.SnoopOne(i), k), f', Cpu(i)) && |f'.cpus| == |f.cpus|
    ensures f'.cpus[i].pc == Draining(t) && |f'.cpus[i].requests| == |f.cpus[i].requests| - k
  {
    if k == 0 {
      Schedules.RepeatMore(steps, M.SnoopOne(i), 0);
      f' := f;
    } else {
      f' := SnoopSome(n, cap, s, steps, f, i, t, k - 1);
      f' := SnoopNext(n, cap, s, steps + Schedules.Repeat(M.SnoopOne(i), k - 1), f', i, t);
      Schedules.RepeatMore(steps, M.SnoopOne(i), k - 1);
    }
  }

  lemma CloseQueue(n: nat, cap: nat, s: M.Sys, steps: seq<M.Step>, f: Prog, i: nat, t: Trace) returns (f': Prog)
    requires At(n, cap, s, steps, f, Cpu(i)) && i < |f.cpus| && f.cpus[i].pc == Draining(t) && f.cpus[i].requests == []
    ensures At(n, cap, s, steps + [M.SnoopDone(i)], f', Cpu(i)) && |f'.cpus| == |f.cpus| && f'.cpus[i].pc == LookUp(t)
  {
    Do(n, cap, s, steps, f, Cpu(i), CpuUnlockQueue(i));
    f' := Next(f, CpuUnlockQueue(i));
  }

  lemma Push(n: nat, cap: nat, s: M.Sys, steps: seq<M.Step>, f: Prog, i: nat) returns (f': Prog)
    requires At(n, cap, s, steps, f, Cpu(i)) && i < |f.cpus| && f.cpus[i].pc.LookUp?
    ensures At(n, cap, s, steps + [M.CommitStep(i)], f', Cpu(i)) && |f'.cpus| == |f.cpus| && f'.cpus[i].pc == Leave
  {
    Do(n, cap, s, steps, f, Cpu(i), CpuLook(i));
    var f1 := Next(f, CpuLook(i));
    LocksFree(f1, i);
    Do(n, cap, s, steps, f1, Cpu(i), CpuLockBus(i));
    var f2 := Next(f1, CpuLockBus(i));
    Do(n, cap, s, steps, f2, Cpu(i), CpuPush(i));
    f' := Next(f2, CpuPush(i));
  }

  lemma LeaveTrace(n: nat, cap: nat, s: M.Sys, steps: seq<M.Step>, f: Prog, i: nat) returns (f': Prog)
    requires At(n, cap, s, steps, f, Cpu(i)) && i < |f.cpus| && f.cpus[i].pc == Leave
    ensures At(n, cap, s, steps, f', Cpu(i)) && Rest(f')
  {
    Do(n, cap, s, steps, f, Cpu(i), CpuLeave(i));
    f' := Next(f, CpuLeave(i));
  }

  /** A trace is taken and everything queued is snooped. */
  lemma ReadyToLook(n: nat, cap: nat, s: M.Sys, f: Prog, i: nat) returns (f': Prog, steps: seq<M.Step>)
    requires At(n, cap, s, [], f, Cpu(i)) && i < |f.cpus| && f.cpus[i].pc.Check? && f.cpus[i].traces != []
    requires M.IsAccess(f.cpus[i].traces[0])
    ensures steps == [M.Take(i)] + Schedules.Repeat(M.SnoopOne(i), |f.cpus[i].requests|) + [M.SnoopDone(i)]
    ensures At(n, cap, s, steps, f', Cpu(i)) && |f'.cpus| == |f.cpus| && f'.cpus[i].pc == LookUp(f.cpus[i].traces[0])
  {
    var t, k := f.cpus[i].traces[0], |f.cpus[i].requests|;
    f' := TakeTrace(n, cap, s, f, i);
    f' := OpenQueue(n, cap, s, [M.Take(i)], f', i, t);
    f' := SnoopSome(n, cap, s, [M.Take(i)], f', i, t, k);
    steps := [M.Take(i)] + Schedules.Repeat(M.SnoopOne(i), k);
    f' := CloseQueue(n, cap, s, steps, f', i, t);
    steps := steps + [M.SnoopDone(i)];
  }

  lemma AtStart(n: nat, cap: nat, f: Prog, th: Thread)
    requires Reachable(n, cap, f) && Inv(f) && Rest(f)
    ensures At(n, cap, Abs(f), [], f, th)
  {
    AbsCaps(f);
  }

  lemma DoRound(n: nat, cap: nat, f: Prog, i: nat) returns (f': Prog)
    requires Reachable(n, cap, f) && Inv(f) && Rest(f) && M.CapsOk(Abs(f)) && Schedules.CanTurn(Abs(f), i)
    ensures Reachable(n, cap, f') && Inv(f') && Rest(f') && Abs(f') == Schedules.Round(Abs(f), i)
  {
    var s := Abs(f);
    AtStart(n, cap, f, Cpu(i));
    Schedules.RoundIsRun(s, i);
    if M.IsAccess(f.cpus[i].traces[0]) {
      var steps;
      f', steps := ReadyToLook(n, cap, s, f, i);
      f' := Push(n, cap, s, steps, f', i);
      assert steps + [M.CommitStep(i)] == Schedules.ServeSteps(i, |f.cpus[i].requests|);
      f' := LeaveTrace(n, cap, s, steps + [M.CommitStep(i)], f', i);
    } else {
      f' := TakeTrace(n, cap, s, f, i);
      f' := LeaveTrace(n, cap, s, [M.Take(i)], f', i);
    }
  }

  // ---- A broadcast ----

  lemma BusLocksFree(f: Prog)
    requires Inv(f) && Alone(f, BusLoop)
    ensures f.bpc.BWant? ==> f.busLock == None
    ensures f.bpc.BSend? && f.bpc.k < |f.cpus| ==> f.queueLock[f.bpc.k] == None
  {
    BusOwner(f);
    if f.bpc.BSend? && f.bpc.k < |f.cpus| {
      assert LockedAt(f, f.bpc.k);
    }
  }

  lemma PopTransaction(n: nat, cap: nat, s: M.Sys, f: Prog) returns (f': Prog)
    requires At(n, cap, s, [], f, BusLoop) && f.bpc.BCheck? && f.bus != []
    ensures At(n, cap, s, [M.Pop], f', BusLoop) && |f'.cpus| == |f.cpus| && f'.bpc == BSend(f.bus[0], 0)
  {
    Do(n, cap, s, [], f, BusLoop, BusCheck);
    var f1 := Next(f, BusCheck);
    BusLocksFree(f1);
    Do(n, cap, s, [], f1, BusLoop, BusAcquire);
    var f2 := Next(f1, BusAcquire);
    Do(n, cap, s, [], f2, BusLoop, BusPop);
    f' := Next(f2, BusPop);
    assert [] + [M.Pop] == [M.Pop];
  }

  lemma OfferOne(n: nat, cap: nat, s: M.Sys, steps: seq<M.Step>, f: Prog) returns (f': Prog)
    requires At(n, cap, s, steps, f, BusLoop) && f.bpc.BSend? && f.bpc.k < |f.cpus|
    ensures At(n, cap, s, steps + [M.Deliver], f', BusLoop) && |f'.cpus| == |f.cpus|
    ensures f'.bpc == BSend(f.bpc.r, f.bpc.k + 1)
  {
    if f.bpc.k == f.bpc.r.tid {
      Do(n, cap, s, steps, f, BusLoop, BusSkip);
      f' := Next(f, BusSkip);
    } else {
      BusLocksFree(f);
      Do(n, cap, s, steps, f, BusLoop, BusLockQueue);
      f' := Next(f, BusLockQueue);
      Do(n, cap, s, steps, f', BusLoop, BusPut);
      f' := Next(f', BusPut);
    }
  }

  lemma {:induction false} OfferSome(n: nat, cap: nat, s: M.Sys, steps: seq<M.Step>, f: Prog, k: nat) returns (f': Prog)
    requires At(n, cap, s, steps, f, BusLoop) && f.bpc.BSend? && f.bpc.k == 0 && k <= |f.cpus|
    ensures At(n, cap, s, steps + Schedules.Repeat(M.Deliver, k), f', BusLoop) && |f'.cpus| == |f.cpus|
    ensures f'.bpc == BSend(f.bpc.r, k)
  {
    if k == 0 {
      Schedules.RepeatMore(steps, M.Deliver, 0);
      f' := f;
    } else {
      f' := OfferSome(n, cap, s, steps, f, k - 1);
      f' := OfferOne(n, cap, s, steps + Schedules.Repeat(M.Deliver, k - 1), f');
      Schedules.RepeatMore(steps, M.Deliver, k - 1);
    }
  }

  lemma DoBroadcast(n: nat, cap: nat, f: Prog) returns (f': Prog)
    requires Reachable(n, cap, f) && Inv(f) && Rest(f) && f.bus != []
    ensures Reachable(n, cap, f') && Inv(f') && Rest(f') && Abs(f') == Schedules.Broadcast(Abs(f))
  {
    var s, k := Abs(f), |f.cpus|;
    AtStart(n, cap, f, BusLoop);
    Schedules.BroadcastIsRun(s);
    f' := PopTransaction(n, cap, s, f);
    f' := OfferSome(n, cap, s, [M.Pop], f', k);
    var steps := [M.Pop] + Schedules.Repeat(M.Deliver, k);
    Do(n, cap, s, steps, f', BusLoop, BusDone);
    f' := Next(f', BusDone);
    assert steps + [M.Finish] == Schedules.BroadcastSteps(k);
  }

  // ---- An arrival ----

  lemma DoArrival(n: nat, cap: nat, f: Prog, i: nat, t: Trace) returns (f': Prog)
    requires Reachable(n, cap, f) && Inv(f) && Rest(f) && i < |f.cpus| && M.CapsOk(Abs(f))
    ensures Reachable(n, cap, f') && Inv(f') && Rest(f') && Abs(f') == M.Next(Abs(f), M.Enqueue(i, t))
  {
    var s := Abs(f);
    AtStart(n, cap, f, Input);
    Do(n, cap, s, [], f, Input, InChoose(i, t));
    f' := Next(f, InChoose(i, t));
    assert LockedAt(f', i);
    Do(n, cap, s, [], f', Input, InLock);
    f' := Next(f', InLock);
    Do(n, cap, s, [], f', Input, InPush);
    f' := Next(f', InPush);
    M.ExecSnoc(s, [], M.Enqueue(i, t));
  }

  // ---- Whole schedules ----

  lemma StartThreads(n: nat, cap: nat)
    requires 1 <= cap
    ensures Reachable(n, cap, Init(n, cap)) && Inv(Init(n, cap)) && Rest(Init(n, cap))
    ensures Abs(Init(n, cap)) == M.Init(n, cap)
  {
    InitInv(n, cap);
    assert Exec(Init(n, cap), []) == Some(Init(n, cap));
    AbsInit(n, cap);
  }

  lemma {:induction false} FollowSchedule(n: nat, cap: nat, acts: seq<Eager.Action>) returns (f: Prog)
    requires 1 <= cap && Eager.Lazy(M.Init(n, cap), acts).Some?
    ensures Reachable(n, cap, f) && Inv(f) && Rest(f) && Eager.Lazy(M.Init(n, cap), acts) == Some(Abs(f))
  {
    if acts == [] {
      f := Init(n, cap);
      StartThreads(n, cap);
    } else {
      f := FollowSchedule(n, cap, acts[..|acts| - 1]);
      match acts[|acts| - 1] {
        case Arrive(i, t) => f := DoArrival(n, cap, f, i, t);
        case Turn(i) => f := DoRound(n, cap, f, i);
        case Transmit => f := DoBroadcast(n, cap, f);
      }
    }
  }

  /** Whatever a schedule reaches, the threads reach, locks and all. */
  lemma ThreadsFollowSchedules(n: nat, cap: nat, s: M.Sys) returns (f: Prog)
    requires Eager.Scheduled(n, cap, s)
    ensures Reachable(n, cap, f) && Inv(f) && Rest(f) && Abs(f) == s
  {
    var acts :| Eager.Lazy(M.Init(n, cap), acts) == Some(s);
    f := FollowSchedule(n, cap, acts);
  }

  // ---- The races, of threads ----

  /** Two threads can hold the same line modified, for every line. */
  lemma ThreadsAreNotExclusive(n: nat, cap: nat, x: nat)
    requires 2 <= n && 1 <= cap && IsLine(x)
    ensures exists f :: Reachable(n, cap, f) && |f.cpus| == n
                        && Local(f.cpus[0].core, x) == State.M && Local(f.cpus[1].core, x) == State.M
  {
    var s := Races.TwoWriters(n, cap, x);
    var f := ThreadsFollowSchedules(n, cap, s);
    assert |f.cpus| == |Abs(f).procs| == n;
    assert AbsCpu(f.cpus[0]) == s.procs[0] && AbsCpu(f.cpus[1]) == s.procs[1];
  }

  lemma ReadyAfterArrival(n: nat, cap: nat, s: M.Sys, t: Trace) returns (f: Prog)
    requires Eager.Scheduled(n, cap, s) && M.CapsOk(s) && 1 <= |s.procs| && M.IsAccess(t)
    requires s.procs[0].phase.Idle? && s.procs[0].traces == [] && s.procs[0].requests == []
    ensures Reachable(n, cap, f) && Abs(f) == Races.Readied(s, 0, t)
    ensures |f.cpus| == |s.procs| && f.cpus[0].pc == LookUp(t)
  {
    var s' := M.Next(s, M.Enqueue(0, t));
    Races.GetReady(s, 0, t);
    Eager.ScheduledAct(n, cap, s, Eager.Arrive(0, t));
    f := ThreadsFollowSchedules(n, cap, s');
    assert AbsCpu(f.cpus[0]) == s'.procs[0];
    AtStart(n, cap, f, Cpu(0));
    var steps;
    f, steps := ReadyToLook(n, cap, s', f, 0);
    assert steps == [M.Take(0), M.SnoopDone(0)];
  }

  /** A thread can have drained its queue and be about to look up a line that is modified
      in its cache although it is effectively invalid: the read will hit. */
  lemma ThreadReadsStale(n: nat, cap: nat, x: nat) returns (f: Prog)
    requires 2 <= n && 1 <= cap && IsLine(x) && x != 0
    ensures Reachable(n, cap, f) && |f.cpus| == n && f.cpus[0].pc == LookUp(Trace(x, 'R', 0))
    ensures ThreadState(f, 0, x) == I && Local(f.cpus[0].core, x) == State.M
  {
    var t := Trace(x, 'R', 0);
    var s := Races.TwoWriters(n, cap, x);
    Races.StaleLine(s, x, t);
    f := ReadyAfterArrival(n, cap, s, t);
    assert AbsCpu(f.cpus[0]) == Abs(f).procs[0];
  }
}
