/** What holds of the threads in every reachable state of every interleaving. */
module ThreadSafety {
  import opened Msi
  import opened Protocol
  import Coherence
  import Races
  import opened Threads

  ghost function Exec(f: Prog, acts: seq<Action>): (o: Option<Prog>)
    requires Inv(f)
    ensures o.Some? ==> Inv(o.value)
  {
    if acts == [] then Some(f)
    else
      var o := Exec(f, acts[..|acts| - 1]);
      if o.Some? && Enabled(o.value, acts[|acts| - 1]) then
        StepInv(o.value, acts[|acts| - 1]);
        Some(Next(o.value, acts[|acts| - 1]))
      else None
  }

  ghost predicate Reachable(n: nat, cap: nat, f: Prog) {
    1 <= cap && (InitInv(n, cap); exists acts :: Exec(Init(n, cap), acts) == Some(f))
  }

  /** The steps of the machine that a run of the threads completes. */
  ghost function StepsOf(f: Prog, acts: seq<Action>): seq<M.Step>
    requires Inv(f) && Exec(f, acts).Some?
  {
    if acts == [] then []
    else
      var before, a := acts[..|acts| - 1], acts[|acts| - 1];
      var step := Meaning(Exec(f, before).value, a);
      StepsOf(f, before) + if step.Some? then [step.value] else []
  }

  /** Every interleaving of the threads is a run of the step machine: of exactly the steps
      that its actions complete. */
  lemma {:induction false} ExecRefines(f: Prog, acts: seq<Action>)
    requires Inv(f) && Exec(f, acts).Some?
    ensures M.CapsOk(Abs(f)) && M.Exec(Abs(f), StepsOf(f, acts)) == Some(Abs(Exec(f, acts).value))
  {
    AbsCaps(f);
    if acts != [] {
      var before, a := acts[..|acts| - 1], acts[|acts| - 1];
      var mid := Exec(f, before).value;
      ExecRefines(f, before);
      ActionSimulates(mid, a);
      if Meaning(mid, a).Some? {
        M.ExecSnoc(Abs(f), StepsOf(f, before), Meaning(mid, a).value);
      } else {
        assert StepsOf(f, before) + [] == StepsOf(f, before);
      }
    }
  }

  lemma AbsInit(n: nat, cap: nat)
    ensures Abs(Init(n, cap)) == M.Init(n, cap)
  {
    assert Abs(Init(n, cap)).procs == M.Init(n, cap).procs;
  }

  lemma ThreadsRefineMachine(n: nat, cap: nat, f: Prog)
    requires Reachable(n, cap, f)
    ensures Inv(f) && M.Reachable(n, cap, Abs(f))
  {
    InitInv(n, cap);
    var acts :| Exec(Init(n, cap), acts) == Some(f);
    AbsInit(n, cap);
    ExecRefines(Init(n, cap), acts);
  }

  /** The state of a line in the cache a thread actually has, between any two of its
      actions, once all that is on its way has been snooped. */
  ghost function ThreadState(f: Prog, i: nat, x: nat): State
    requires i < |f.cpus|
  {
    FoldLine(x, Local(f.cpus[i].core, x), M.Pending(Abs(f), i))
  }

  /** Between its lookups and its push a thread may have lost a line, no more. */
  lemma ThreadStateLowers(f: Prog, i: nat, x: nat)
    requires Inv(f) && M.SysWf(Abs(f)) && i < |f.cpus| && IsLine(x)
    ensures ThreadState(f, i, x) == M.Effective(Abs(f), i, x) || ThreadState(f, i, x) == I
  {
    var c := f.cpus[i];
    assert LookedUp(c) && M.ProcWf(Abs(f).procs[i]);
    if c.pc.WantBus? || c.pc.OnBus? {
      LookLowers(c.pc.base, M.OpOf(c.pc.t), c.pc.t.addr, c.pc.t.cnt, x);
      M.FoldInvalid(x, M.Pending(Abs(f), i));
    }
  }

  /** So coherence holds of the threads, lock by lock and action by action: of the caches
      they actually have, one writer or many readers, and ownership in bus order. */
  lemma ThreadsAreCoherent(n: nat, cap: nat, f: Prog, x: nat, i: nat, j: nat)
    requires Reachable(n, cap, f) && IsLine(x) && x != 0 && i < |f.cpus| && j < |f.cpus|
    ensures i != j && ThreadState(f, i, x) == State.M ==> ThreadState(f, j, x) == I
    ensures Coherence.Entitled(f.log, i, x, ThreadState(f, i, x))
  {
    ThreadsRefineMachine(n, cap, f);
    Coherence.ReachableWf(n, cap, Abs(f));
    Coherence.SingleWriterAlways(n, cap, Abs(f), x);
    Coherence.OwnershipAlways(n, cap, Abs(f), x);
    ThreadStateLowers(f, i, x);
    ThreadStateLowers(f, j, x);
    assert M.Effective(Abs(f), i, x) == State.M && i != j ==> M.Effective(Abs(f), j, x) == I;
    assert Coherence.Entitled(f.log, i, x, M.Effective(Abs(f), i, x));
  }

  /** No thread ever takes the front of an empty queue, although the test was made
      before the lock was taken. */
  lemma NeverPopsEmpty(n: nat, cap: nat, f: Prog, i: nat)
    requires Reachable(n, cap, f) && i < |f.cpus|
    ensures f.cpus[i].pc.HaveTrace? ==> f.cpus[i].traces != []
    ensures f.bpc.BHave? ==> f.bus != []
  {
  }

  // ---- Deadlock ----

  ghost predicate IsThread(f: Prog, th: Thread) {
    th.Cpu? ==> th.i < |f.cpus|
  }

  /** The lock a thread is waiting for. */
  ghost function Wants(f: Prog, th: Thread): Option<Lock>
    requires IsThread(f, th)
  {
    match th
    case Input => if f.ipc.Want? then Some(TraceLock(f.ipc.i)) else None
    case BusLoop =>
      if f.bpc.BWant? then Some(BusLock)
      else if f.bpc.BSend? && f.bpc.k < |f.cpus| && f.bpc.k != f.bpc.r.tid then Some(QueueLock(f.bpc.k))
      else None
    case Cpu(i) =>
      match f.cpus[i].pc
      case WantTrace => Some(TraceLock(i))
      case WantQueue(_) => Some(QueueLock(i))
      case WantBus(_, _, _, _) => Some(BusLock)
      case _ => None
  }

  ghost function Owner(f: Prog, l: Lock): Option<Thread>
    requires Shape(f)
  {
    match l
    case TraceLock(i) => if i < |f.cpus| then f.traceLock[i] else None
    case QueueLock(i) => if i < |f.cpus| then f.queueLock[i] else None
    case BusLock => f.busLock
  }

  ghost predicate Blocked(f: Prog, th: Thread)
    requires Shape(f) && IsThread(f, th)
  {
    Wants(f, th).Some? && Owner(f, Wants(f, th).value).Some?
  }

  function LockRank(l: Lock): nat {
    match l case TraceLock(_) => 0 case BusLock => 1 case QueueLock(_) => 2
  }

  predicate By(a: Action, th: Thread) {
    match th
    case Input => a.InChoose? || a.InLock? || a.InPush?
    case Cpu(i) => IsCpu(a) && a.i == i
    case BusLoop =>
      a.BusCheck? || a.BusAcquire? || a.BusPop? || a.BusSkip? || a.BusLockQueue? || a.BusPut? || a.BusDone?
  }

  ghost predicate CanMove(f: Prog, th: Thread)
    requires Shape(f)
  {
    exists a :: By(a, th) && Enabled(f, a)
  }

  /** Locks are taken in rising rank: trace lock, bus lock, snoop-queue lock. */
  lemma RanksRise(f: Prog, th: Thread, held: Lock)
    requires Inv(f) && Owner(f, held) == Some(th)
    ensures IsThread(f, th) && (Wants(f, th).Some? ==> LockRank(held) < LockRank(Wants(f, th).value))
  {
    match held {
      case TraceLock(i) => assert LockedAt(f, i);
      case QueueLock(i) => assert LockedAt(f, i);
      case BusLock =>
        if th.Cpu? {
          assert LockedAt(f, th.i);
        }
    }
  }

  lemma CpuHolderMoves(f: Prog, i: nat)
    requires Inv(f) && i < |f.cpus| && !Blocked(f, Cpu(i))
    ensures CanMove(f, Cpu(i))
  {
    var c := f.cpus[i];
    var a := match c.pc
             case Check => CpuCheck(i)
             case WantTrace => CpuLock(i)
             case HaveTrace => CpuPop(i)
             case WantQueue(_) => CpuLockQueue(i)
             case Draining(_) => if c.requests != [] then CpuSnoop(i) else CpuUnlockQueue(i)
             case LookUp(_) => CpuLook(i)
             case WantBus(_, _, _, _) => CpuLockBus(i)
             case OnBus(_, _, _, _) => CpuPush(i)
             case Leave => CpuLeave(i);
    assert By(a, Cpu(i)) && Enabled(f, a);
  }

  lemma BusHolderMoves(f: Prog)
    requires Inv(f) && !Blocked(f, BusLoop)
    ensures CanMove(f, BusLoop)
  {
    var a := match f.bpc
             case BCheck => BusCheck
             case BWant => BusAcquire
             case BHave => BusPop
             case BSend(r, k) => if k >= |f.cpus| then BusDone else if k == r.tid then BusSkip else BusLockQueue
             case BPut(_, _) => BusPut;
    assert By(a, BusLoop) && Enabled(f, a);
  }

  lemma HolderMoves(f: Prog, th: Thread, held: Lock)
    requires Inv(f) && Owner(f, held) == Some(th) && IsThread(f, th) && !Blocked(f, th)
    ensures CanMove(f, th)
  {
    match th {
      case Input =>
        if held.TraceLock? || held.QueueLock? {
          assert LockedAt(f, held.i);
        }
        assert By(InPush, Input) && Enabled(f, InPush);
      case Cpu(i) =>
        if held.TraceLock? || held.QueueLock? {
          assert LockedAt(f, held.i);
        } else {
          assert LockedAt(f, i);
        }
        CpuHolderMoves(f, i);
      case BusLoop => BusHolderMoves(f);
    }
  }

  /** Following the owners from a blocked thread ends at one that can move. */
  lemma {:induction false} FindMover(f: Prog, th: Thread) returns (u: Thread, held: Lock)
    requires Inv(f) && IsThread(f, th) && Blocked(f, th)
    ensures Owner(f, held) == Some(u) && IsThread(f, u) && CanMove(f, u)
    decreases 2 - LockRank(Wants(f, th).value)
  {
    held := Wants(f, th).value;
    u := Owner(f, held).value;
    RanksRise(f, u, held);
    if Blocked(f, u) {
      u, held := FindMover(f, u);
    } else {
      HolderMoves(f, u, held);
    }
  }

  lemma InputMoves(f: Prog)
    requires Inv(f) && 1 <= |f.cpus| && !Blocked(f, Input)
    ensures CanMove(f, Input)
  {
    var t := Trace(0, 'R', 0);
    var a := match f.ipc case Idle => InChoose(0, t) case Want(_, _) => InLock case Have(_, _) => InPush;
    assert By(a, Input) && Enabled(f, a);
  }

  lemma BlockedStays(f: Prog, th: Thread, a: Action)
    requires Inv(f) && IsThread(f, th) && Blocked(f, th) && By(a, th)
    ensures !Enabled(f, a)
  {
  }

  /** In every reachable state a thread cannot move exactly when somebody else holds the
      lock it is waiting for. */
  lemma StuckIffBlocked(n: nat, cap: nat, f: Prog, th: Thread)
    requires Reachable(n, cap, f) && Shape(f) && IsThread(f, th) && 1 <= |f.cpus|
    ensures !CanMove(f, th) <==> Blocked(f, th)
    ensures Blocked(f, th) ==> Owner(f, Wants(f, th).value).value != th
  {
    ThreadsRefineMachine(n, cap, f);
    if Blocked(f, th) {
      RanksRise(f, Owner(f, Wants(f, th).value).value, Wants(f, th).value);
      forall a | By(a, th) ensures !Enabled(f, a) {
        BlockedStays(f, th, a);
      }
    } else {
      match th {
        case Input => InputMoves(f);
        case Cpu(i) => CpuHolderMoves(f, i);
        case BusLoop => BusHolderMoves(f);
      }
    }
  }

  /** Which thread holds which lock, in every reachable state: a processor its trace lock
      from before it takes a trace until it leaves, its queue lock while it drains, and the
      bus lock while it pushes; the bus thread the bus lock from before it takes a
      transaction until everybody has it, and a queue lock while it appends; the input
      thread a trace lock while it appends. Nobody else does. */
  lemma LocksAreHeld(n: nat, cap: nat, f: Prog, i: nat)
    requires Reachable(n, cap, f) && Shape(f) && i < |f.cpus|
    ensures var pc := f.cpus[i].pc;
            && (f.traceLock[i] == Some(Cpu(i)) <==> !pc.Check? && !pc.WantTrace?)
            && (f.queueLock[i] == Some(Cpu(i)) <==> pc.Draining?)
            && (f.busLock == Some(Cpu(i)) <==> pc.OnBus?)
    ensures f.busLock == Some(BusLoop) <==> f.bpc.BHave? || f.bpc.BSend? || f.bpc.BPut?
    ensures f.queueLock[i] == Some(BusLoop) <==> f.bpc.BPut? && f.bpc.k == i
    ensures f.traceLock[i] == Some(Input) <==> f.ipc.Have? && f.ipc.i == i
  {
    ThreadsRefineMachine(n, cap, f);
    assert LockedAt(f, i);
  }

  /** No deadlock: whenever a thread is blocked, the holder of some lock can move. */
  lemma NoDeadlock(n: nat, cap: nat, f: Prog, th: Thread)
    requires Reachable(n, cap, f) && Shape(f) && IsThread(f, th) && Blocked(f, th)
    ensures exists u, held :: Owner(f, held) == Some(u) && CanMove(f, u)
  {
    ThreadsRefineMachine(n, cap, f);
    var u, held := FindMover(f, th);
  }
}
