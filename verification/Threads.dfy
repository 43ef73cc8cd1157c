/** The program as threads with locks: one input thread, one thread per processor and
    the bus thread, each with a program counter. This machine is proved to refine the
    step machine, to be free of deadlock, and never to pop an empty queue. */
module Threads {
  import opened Msi
  import opened Protocol
  import M = Machine

  datatype Thread = Input | Cpu(i: nat) | BusLoop

  datatype Lock = TraceLock(i: nat) | BusLock | QueueLock(i: nat)

  /** Where a processor thread is. `base` is the core as it was before the lookups. */
  datatype CpuPc =
    | Check
    | WantTrace
    | HaveTrace
    | WantQueue(t: Trace)
    | Draining(t: Trace)
    | LookUp(t: Trace)
    | WantBus(t: Trace, base: Core, line: Cacheline, isNew: bool)
    | OnBus(t: Trace, base: Core, line: Cacheline, isNew: bool)
    | Leave

  datatype BusPc = BCheck | BWant | BHave | BSend(r: BusTransaction, k: nat) | BPut(r: BusTransaction, k: nat)

  datatype InputPc = Idle | Want(i: nat, t: Trace) | Have(i: nat, t: Trace)

  datatype CpuState = CpuState(core: Core, requests: seq<BusTransaction>, traces: seq<Trace>, pc: CpuPc,
                               history: seq<M.Event>)

  datatype Prog = Prog(cpus: seq<CpuState>, bus: seq<BusTransaction>, bpc: BusPc, ipc: InputPc,
                       traceLock: seq<Option<Thread>>, queueLock: seq<Option<Thread>>, busLock: Option<Thread>,
                       log: seq<BusTransaction>)

  /** One atomic action of one thread. A release is merged with the action before it. */
  datatype Action =
    | InChoose(i: nat, t: Trace) | InLock | InPush
    | CpuCheck(i: nat) | CpuLock(i: nat) | CpuPop(i: nat)
    | CpuLockQueue(i: nat) | CpuSnoop(i: nat) | CpuUnlockQueue(i: nat)
    | CpuLook(i: nat) | CpuLockBus(i: nat) | CpuPush(i: nat) | CpuLeave(i: nat)
    | BusCheck | BusAcquire | BusPop | BusSkip | BusLockQueue | BusPut | BusDone

  ghost predicate Shape(f: Prog) {
    && |f.traceLock| == |f.cpus| && |f.queueLock| == |f.cpus|
    && (forall i :: 0 <= i < |f.cpus| ==> CpuShape(f.cpus[i]))
    && (f.ipc.Idle? || f.ipc.i < |f.cpus|)
    && (f.bpc.BPut? ==> f.bpc.k < |f.cpus| && f.bpc.k != f.bpc.r.tid)
  }

  ghost predicate CpuShape(c: CpuState) {
    && 1 <= c.core.cache.cap
    && (c.pc.WantBus? || c.pc.OnBus? ==> 1 <= c.pc.base.cache.cap)
  }

  ghost predicate CpuEnabled(f: Prog, a: Action, i: nat)
    requires Shape(f)
  {
    i < |f.cpus| &&
    var c := f.cpus[i];
    match a
    case CpuCheck(_) => c.pc.Check?
    case CpuLock(_) => c.pc.WantTrace? && f.traceLock[i] == None
    case CpuPop(_) => c.pc.HaveTrace? && c.traces != []
    case CpuLockQueue(_) => c.pc.WantQueue? && f.queueLock[i] == None
    case CpuSnoop(_) => c.pc.Draining? && c.requests != []
    case CpuUnlockQueue(_) => c.pc.Draining? && c.requests == []
    case CpuLook(_) => c.pc.LookUp?
    case CpuLockBus(_) => c.pc.WantBus? && f.busLock == None
    case CpuPush(_) => c.pc.OnBus?
    case CpuLeave(_) => c.pc.Leave?
    case _ => false
  }

  ghost predicate Enabled(f: Prog, a: Action)
    requires Shape(f)
  {
    match a
    case InChoose(i, _) => f.ipc.Idle? && i < |f.cpus|
    case InLock => f.ipc.Want? && f.traceLock[f.ipc.i] == None
    case InPush => f.ipc.Have?
    case BusCheck => f.bpc.BCheck?
    case BusAcquire => f.bpc.BWant? && f.busLock == None
    case BusPop => f.bpc.BHave? && f.bus != []
    case BusSkip => f.bpc.BSend? && f.bpc.k < |f.cpus| && f.bpc.k == f.bpc.r.tid
    case BusLockQueue =>
      f.bpc.BSend? && f.bpc.k < |f.cpus| && f.bpc.k != f.bpc.r.tid && f.queueLock[f.bpc.k] == None
    case BusPut => f.bpc.BPut?
    case BusDone => f.bpc.BSend? && f.bpc.k >= |f.cpus|
    case _ => CpuEnabled(f, a, a.i)
  }

  ghost function SetPc(f: Prog, i: nat, pc: CpuPc): Prog
    requires i < |f.cpus|
  {
    f.(cpus := f.cpus[i := f.cpus[i].(pc := pc)])
  }

  ghost function CpuNext(f: Prog, a: Action, i: nat): Prog
    requires Shape(f) && CpuEnabled(f, a, i)
  {
    var c := f.cpus[i];
    match a
    case CpuCheck(_) => SetPc(f, i, if c.traces != [] then WantTrace else Check)
    case CpuLock(_) => SetPc(f, i, HaveTrace).(traceLock := f.traceLock[i := Some(Cpu(i))])
    case CpuPop(_) =>
      var t := c.traces[0];
      var pc := if M.IsAccess(t) then WantQueue(t) else Leave;
      f.(cpus := f.cpus[i := c.(traces := c.traces[1..], pc := pc)])
    case CpuLockQueue(_) => SetPc(f, i, Draining(c.pc.t)).(queueLock := f.queueLock[i := Some(Cpu(i))])
    case CpuSnoop(_) =>
      f.(cpus := f.cpus[i := c.(core := Snoop(c.core, c.requests[0]), requests := c.requests[1..],
                                history := c.history + [M.Snooped(c.requests[0])])])
    case CpuUnlockQueue(_) => SetPc(f, i, LookUp(c.pc.t)).(queueLock := f.queueLock[i := None])
    case CpuLook(_) =>
      var t := c.pc.t;
      var l := Look(c.core, M.OpOf(t), t.addr, t.cnt);
      f.(cpus := f.cpus[i := c.(core := l.core, pc := WantBus(t, c.core, l.line, l.isNew))])
    case CpuLockBus(_) =>
      SetPc(f, i, OnBus(c.pc.t, c.pc.base, c.pc.line, c.pc.isNew)).(busLock := Some(Cpu(i)))
    case CpuPush(_) =>
      var t := c.pc.t;
      var out := Push(c.core, c.pc.line, i, M.OpOf(t), c.pc.isNew);
      var sent := if out.1.Some? then [out.1.value] else [];
      var c' := c.(core := out.0, pc := Leave, history := c.history + [M.Accessed(M.OpOf(t), t.addr, t.cnt)]);
      f.(cpus := f.cpus[i := c'], bus := f.bus + sent, log := f.log + sent, busLock := None)
    case CpuLeave(_) => SetPc(f, i, Check).(traceLock := f.traceLock[i := None])
  }

  ghost function Next(f: Prog, a: Action): Prog
    requires Shape(f) && Enabled(f, a)
  {
    match a
    case InChoose(i, t) => f.(ipc := Want(i, t))
    case InLock => f.(ipc := Have(f.ipc.i, f.ipc.t), traceLock := f.traceLock[f.ipc.i := Some(Input)])
    case InPush =>
      var i, c := f.ipc.i, f.cpus[f.ipc.i];
      f.(cpus := f.cpus[i := c.(traces := c.traces + [f.ipc.t])], ipc := Idle, traceLock := f.traceLock[i := None])
    case BusCheck => f.(bpc := if f.bus != [] then BWant else BCheck)
    case BusAcquire => f.(bpc := BHave, busLock := Some(BusLoop))
    case BusPop => f.(bpc := BSend(f.bus[0], 0), bus := f.bus[1..])
    case BusSkip => f.(bpc := BSend(f.bpc.r, f.bpc.k + 1))
    case BusLockQueue => f.(bpc := BPut(f.bpc.r, f.bpc.k), queueLock := f.queueLock[f.bpc.k := Some(BusLoop)])
    case BusPut =>
      var k, c := f.bpc.k, f.cpus[f.bpc.k];
      f.(cpus := f.cpus[k := c.(requests := c.requests + [f.bpc.r])], bpc := BSend(f.bpc.r, k + 1),
         queueLock := f.queueLock[k := None])
    case BusDone => f.(bpc := BCheck, busLock := None)
    case _ => CpuNext(f, a, a.i)
  }

  function Init(n: nat, cap: nat): Prog {
    Prog(seq(n, _ => CpuState(InitCore(cap), [], [], Check, [])), [], BCheck, Idle,
         seq(n, _ => None), seq(n, _ => None), None, [])
  }

  // ---- Who holds what ----

  predicate InTrace(pc: CpuPc) {
    !pc.Check? && !pc.WantTrace?
  }

  predicate BusBusy(pc: BusPc) {
    pc.BHave? || pc.BSend? || pc.BPut?
  }

  function TraceOwner(f: Prog, i: nat): Option<Thread>
    requires i < |f.cpus|
  {
    if InTrace(f.cpus[i].pc) then Some(Cpu(i))
    else if f.ipc.Have? && f.ipc.i == i then Some(Input)
    else None
  }

  function QueueOwner(f: Prog, i: nat): Option<Thread>
    requires i < |f.cpus|
  {
    if f.cpus[i].pc.Draining? then Some(Cpu(i))
    else if f.bpc.BPut? && f.bpc.k == i then Some(BusLoop)
    else None
  }

  ghost predicate LockedAt(f: Prog, i: nat)
    requires Shape(f) && i < |f.cpus|
  {
    && f.traceLock[i] == TraceOwner(f, i) && f.queueLock[i] == QueueOwner(f, i)
    && !(InTrace(f.cpus[i].pc) && f.ipc.Have? && f.ipc.i == i)
    && !(f.cpus[i].pc.Draining? && f.bpc.BPut? && f.bpc.k == i)
    && (f.cpus[i].pc.OnBus? <==> f.busLock == Some(Cpu(i)))
  }

  /** Every lock is held by exactly the thread whose program counter says so. */
  ghost predicate Locked(f: Prog)
    requires Shape(f)
  {
    && (forall i :: 0 <= i < |f.cpus| ==> LockedAt(f, i))
    && (BusBusy(f.bpc) <==> f.busLock == Some(BusLoop))
    && f.busLock != Some(Input)
    && (f.busLock.Some? && f.busLock.value.Cpu? ==> f.busLock.value.i < |f.cpus|)
  }

  /** A queue found non-empty before its lock was taken is still non-empty: only its
      own thread removes from it. */
  ghost predicate CheckedStill(f: Prog)
    requires Shape(f)
  {
    && (forall i :: 0 <= i < |f.cpus| && (f.cpus[i].pc.WantTrace? || f.cpus[i].pc.HaveTrace?) ==>
          f.cpus[i].traces != [])
    && (f.bpc.BWant? || f.bpc.BHave? ==> f.bus != [])
  }

  /** The lookups made before taking the bus lock are still what the cache says. */
  ghost predicate LookedUp(c: CpuState) {
    CpuShape(c) &&
    (c.pc.WantBus? || c.pc.OnBus? ==>
       Look(c.pc.base, M.OpOf(c.pc.t), c.pc.t.addr, c.pc.t.cnt) == Looked(c.core, c.pc.line, c.pc.isNew))
  }

  ghost predicate Inv(f: Prog) {
    && Shape(f) && Locked(f) && CheckedStill(f)
    && (forall i :: 0 <= i < |f.cpus| ==> LookedUp(f.cpus[i]))
  }

  lemma InitInv(n: nat, cap: nat)
    requires 1 <= cap
    ensures Inv(Init(n, cap))
  {
  }

  lemma CpuKeepsShape(f: Prog, a: Action, i: nat)
    requires Inv(f) && CpuEnabled(f, a, i)
    ensures Shape(CpuNext(f, a, i)) && forall j :: 0 <= j < |f.cpus| ==> LookedUp(CpuNext(f, a, i).cpus[j])
  {
  }

  lemma CpuKeepsOwnLocks(f: Prog, a: Action, i: nat)
    requires Inv(f) && CpuEnabled(f, a, i) && Shape(CpuNext(f, a, i))
    ensures LockedAt(CpuNext(f, a, i), i)
  {
    assert LockedAt(f, i);
  }

  /** What an action of one processor's thread leaves alone. */
  lemma CpuFrame(f: Prog, a: Action, i: nat, j: nat)
    requires Inv(f) && CpuEnabled(f, a, i) && Shape(CpuNext(f, a, i)) && j < |f.cpus| && j != i
    ensures var f' := CpuNext(f, a, i);
            && f'.cpus[j] == f.cpus[j] && f'.bpc == f.bpc && f'.ipc == f.ipc
            && f'.traceLock[j] == f.traceLock[j] && f'.queueLock[j] == f.queueLock[j]
            && (f'.busLock == Some(Cpu(j)) <==> f.busLock == Some(Cpu(j)))
  {
    assert LockedAt(f, i);
  }

  lemma CpuKeepsOtherLocks(f: Prog, a: Action, i: nat, j: nat)
    requires Inv(f) && CpuEnabled(f, a, i) && Shape(CpuNext(f, a, i)) && j < |f.cpus| && j != i
    ensures LockedAt(CpuNext(f, a, i), j)
  {
    assert LockedAt(f, j);
    CpuFrame(f, a, i, j);
  }

  lemma CpuKeepsLocked(f: Prog, a: Action, i: nat)
    requires Inv(f) && CpuEnabled(f, a, i) && Shape(CpuNext(f, a, i))
    ensures Locked(CpuNext(f, a, i))
  {
    forall j | 0 <= j < |f.cpus| ensures LockedAt(CpuNext(f, a, i), j) {
      if j == i {
        CpuKeepsOwnLocks(f, a, i);
      } else {
        CpuKeepsOtherLocks(f, a, i, j);
      }
    }
    assert LockedAt(f, i);
  }

  predicate IsCpu(a: Action) {
    a.CpuCheck? || a.CpuLock? || a.CpuPop? || a.CpuLockQueue? || a.CpuSnoop? || a.CpuUnlockQueue?
    || a.CpuLook? || a.CpuLockBus? || a.CpuPush? || a.CpuLeave?
  }

  lemma OthersKeepShape(f: Prog, a: Action)
    requires Inv(f) && Enabled(f, a) && !IsCpu(a)
    ensures Shape(Next(f, a)) && CheckedStill(Next(f, a))
    ensures forall j :: 0 <= j < |f.cpus| ==> LookedUp(Next(f, a).cpus[j])
  {
  }

  lemma OthersKeepLockedAt(f: Prog, a: Action, j: nat)
    requires Inv(f) && Enabled(f, a) && !IsCpu(a) && Shape(Next(f, a)) && j < |f.cpus|
    ensures LockedAt(Next(f, a), j)
  {
    assert LockedAt(f, j);
  }

  lemma OthersKeepLocked(f: Prog, a: Action)
    requires Inv(f) && Enabled(f, a) && !IsCpu(a) && Shape(Next(f, a))
    ensures Locked(Next(f, a))
  {
    forall j | 0 <= j < |f.cpus| ensures LockedAt(Next(f, a), j) {
      OthersKeepLockedAt(f, a, j);
    }
  }

  /** Mutual exclusion and the checks made before locking survive every action. */
  lemma StepInv(f: Prog, a: Action)
    requires Inv(f) && Enabled(f, a)
    ensures Inv(Next(f, a))
  {
    if IsCpu(a) {
      CpuKeepsShape(f, a, a.i);
      CpuKeepsLocked(f, a, a.i);
    } else {
      OthersKeepShape(f, a);
      OthersKeepLocked(f, a);
    }
  }

  // ---- Refinement ----

  /** The processor as the step machine sees it: inside an access its cache counts as
      untouched until the bus serialises it. */
  ghost function AbsCpu(c: CpuState): M.Proc {
    var phase := match c.pc
                 case WantQueue(t) => M.Snooping(t)
                 case Draining(t) => M.Snooping(t)
                 case LookUp(t) => M.Ready(t)
                 case WantBus(t, _, _, _) => M.Ready(t)
                 case OnBus(t, _, _, _) => M.Ready(t)
                 case _ => M.Idle;
    M.Proc(if c.pc.WantBus? || c.pc.OnBus? then c.pc.base else c.core, c.requests, c.traces, phase, c.history)
  }

  ghost function AbsCpus(cs: seq<CpuState>): (ps: seq<M.Proc>)
    ensures |ps| == |cs| && forall i :: 0 <= i < |cs| ==> ps[i] == AbsCpu(cs[i])
  {
    seq(|cs|, i requires 0 <= i < |cs| => AbsCpu(cs[i]))
  }

  lemma AbsUpdate(cs: seq<CpuState>, i: nat, c: CpuState)
    requires i < |cs|
    ensures AbsCpus(cs[i := c]) == AbsCpus(cs)[i := AbsCpu(c)]
    ensures AbsCpus(cs)[i := AbsCpu(cs[i])] == AbsCpus(cs)
  {
  }

  ghost function Abs(f: Prog): M.Sys {
    var sending := if f.bpc.BSend? || f.bpc.BPut? then M.Sending(f.bpc.r, f.bpc.k) else M.Free;
    M.Sys(AbsCpus(f.cpus), f.bus, sending, f.log)
  }

  /** The step an action completes, if any. */
  ghost function Meaning(f: Prog, a: Action): Option<M.Step>
    requires Shape(f) && Enabled(f, a)
  {
    match a
    case InPush => Some(M.Enqueue(f.ipc.i, f.ipc.t))
    case CpuPop(i) => Some(M.Take(i))
    case CpuSnoop(i) => Some(M.SnoopOne(i))
    case CpuUnlockQueue(i) => Some(M.SnoopDone(i))
    case CpuPush(i) => Some(M.CommitStep(i))
    case BusPop => Some(M.Pop)
    case BusSkip => Some(M.Deliver)
    case BusPut => Some(M.Deliver)
    case BusDone => Some(M.Finish)
    case _ => None
  }

  ghost predicate Simulates(s: M.Sys, s': M.Sys, step: Option<M.Step>) {
    && M.CapsOk(s)
    && match step
       case None => s' == s
       case Some(st) => M.Enabled(s, st) && s' == M.Next(s, st)
  }

  lemma AbsCaps(f: Prog)
    requires Shape(f)
    ensures M.CapsOk(Abs(f))
  {
  }

  /** Checking, locking, looking up and leaving do not show. */
  lemma CpuStutters(f: Prog, a: Action, i: nat)
    requires Inv(f) && IsCpu(a) && a.i == i && Enabled(f, a)
    requires !a.CpuPush? && !a.CpuPop? && !a.CpuSnoop? && !a.CpuUnlockQueue?
    ensures Abs(Next(f, a)) == Abs(f) && Meaning(f, a) == None
  {
    var c' := Next(f, a).cpus[i];
    StutterChanges(f, a, i);
    AbsUpdate(f.cpus, i, c');
  }

  lemma StutterChanges(f: Prog, a: Action, i: nat)
    requires Inv(f) && IsCpu(a) && a.i == i && Enabled(f, a)
    requires !a.CpuPush? && !a.CpuPop? && !a.CpuSnoop? && !a.CpuUnlockQueue?
    ensures var f' := Next(f, a);
            && |f'.cpus| == |f.cpus| && f'.cpus == f.cpus[i := f'.cpus[i]] && AbsCpu(f'.cpus[i]) == AbsCpu(f.cpus[i])
            && f'.bus == f.bus && f'.bpc == f.bpc && f'.log == f.log
  {
  }

  lemma CpuMoves(f: Prog, a: Action, i: nat)
    requires Inv(f) && Enabled(f, a) && (a == CpuPop(i) || a == CpuSnoop(i) || a == CpuUnlockQueue(i))
    ensures Simulates(Abs(f), Abs(Next(f, a)), Meaning(f, a))
  {
    AbsCaps(f);
    AbsUpdate(f.cpus, i, Next(f, a).cpus[i]);
  }

  /** The push is the commit: nothing but the thread itself has touched its cache
      since the lookups, and the bus cannot be broadcasting. */
  lemma PushSimulates(f: Prog, i: nat)
    requires Inv(f) && Enabled(f, CpuPush(i))
    ensures Simulates(Abs(f), Abs(Next(f, CpuPush(i))), Some(M.CommitStep(i)))
  {
    AbsCaps(f);
    AbsUpdate(f.cpus, i, Next(f, CpuPush(i)).cpus[i]);
    assert LockedAt(f, i) && LookedUp(f.cpus[i]);
    var c := f.cpus[i];
    assert M.CommitOf(Abs(f), i) == Push(c.core, c.pc.line, i, M.OpOf(c.pc.t), c.pc.isNew);
  }

  lemma OtherSimulates(f: Prog, a: Action)
    requires Inv(f) && !IsCpu(a) && Enabled(f, a)
    ensures Simulates(Abs(f), Abs(Next(f, a)), Meaning(f, a))
  {
    AbsCaps(f);
    if a.InPush? {
      AbsUpdate(f.cpus, f.ipc.i, Next(f, a).cpus[f.ipc.i]);
    } else if a.BusPut? {
      AbsUpdate(f.cpus, f.bpc.k, Next(f, a).cpus[f.bpc.k]);
    }
  }

  /** Every action of every thread is a stutter or one step of the machine. */
  lemma ActionSimulates(f: Prog, a: Action)
    requires Inv(f) && Enabled(f, a)
    ensures Simulates(Abs(f), Abs(Next(f, a)), Meaning(f, a))
  {
    if a.CpuPush? {
      PushSimulates(f, a.i);
    } else if a.CpuPop? || a.CpuSnoop? || a.CpuUnlockQueue? {
      CpuMoves(f, a, a.i);
    } else if IsCpu(a) {
      AbsCaps(f);
      CpuStutters(f, a, a.i);
    } else {
      OtherSimulates(f, a);
    }
  }
}
