/** The deferred protocol against textbook atomic MSI: on effective states every
    step is a stutter, a silent eviction or a textbook access, and an access is
    textbook exactly when nothing that matters is pending at the requester. */
module AtomicMsi {
  import opened Msi
  import opened Protocol
  import opened Machine
  import opened Coherence

  /** One atomic access, as textbooks have it. */
  function AtomicAccess(v: seq<State>, i: nat, op: PrTsn): (v': seq<State>)
    requires i < |v|
    ensures |v'| == |v|
  {
    match op
    case PrRd =>
      if v[i] != I then v
      else seq(|v|, j requires 0 <= j < |v| => if j == i || v[j] == M then S else v[j])
    case PrWr =>
      if v[i] == M then v
      else seq(|v|, j requires 0 <= j < |v| => if j == i then M else I)
  }

  /** Atomic MSI never has two writers, nor a writer beside a reader. */
  lemma AtomicAccessKeepsSingleWriter(v: seq<State>, i: nat, op: PrTsn)
    requires i < |v|
    requires forall j, k :: 0 <= j < |v| && 0 <= k < |v| && j != k && v[j] == M ==> v[k] == I
    ensures var v' := AtomicAccess(v, i, op);
            && (forall j, k :: 0 <= j < |v'| && 0 <= k < |v'| && j != k && v'[j] == M ==> v'[k] == I)
            && v'[i] != I && (op == PrWr ==> v'[i] == M)
  {
  }

  /** Every step but a commit is a stutter on every line. */
  lemma QuietView(s: Sys, step: Step, x: nat)
    requires SysWf(s) && CapsOk(s) && Enabled(s, step) && !step.CommitStep?
    ensures View(Next(s, step), x) == View(s, x)
  {
    forall j | 0 <= j < |s.procs| ensures Effective(Next(s, step), j, x) == Effective(s, j, x) {
      QuietStep(s, step, j, x);
    }
  }

  /** On lines it does not address, a commit is a stutter or a silent eviction. */
  lemma CommitViewElsewhere(s: Sys, i: nat, y: nat)
    requires SysWf(s) && CapsOk(s) && Enabled(s, CommitStep(i))
    requires IsLine(y) && y != Convert(s.procs[i].phase.t.addr)
    ensures var v, v' := View(s, y), View(Next(s, CommitStep(i)), y);
            v' == v || v' == v[i := I]
  {
    var t := s.procs[i].phase.t;
    var s' := Next(s, CommitStep(i));
    CommitEffect(s.procs[i].core, i, OpOf(t), t.addr, t.cnt);
    CommitAtSelf(s, i, y);
    FoldInvalid(y, Pending(s, i));
    forall j | 0 <= j < |s.procs| && j != i ensures Effective(s', j, y) == Effective(s, j, y) {
      CommitAtOther(s, i, j, y);
    }
  }

  /** What the requester and the others see of a commit on its own line. */
  lemma CommitViewAt(s: Sys, i: nat)
    requires SysWf(s) && CapsOk(s) && Enabled(s, CommitStep(i)) && Convert(s.procs[i].phase.t.addr) != 0
    ensures var op, x := OpOf(s.procs[i].phase.t), Convert(s.procs[i].phase.t.addr);
            var st, rs := Local(s.procs[i].core, x), Pending(s, i);
            var v, v' := View(s, x), View(Next(s, CommitStep(i)), x);
            && v[i] == FoldLine(x, st, rs)
            && v'[i] == FoldLine(x, Upgrade(st, op), rs)
            && (forall j :: 0 <= j < |v| && j != i ==>
                  v'[j] == if Request(st, op).Some? then SnoopTable(v[j], Request(st, op).value) else v[j])
  {
    var t, x := s.procs[i].phase.t, Convert(s.procs[i].phase.t.addr);
    var v, v' := View(s, x), View(Next(s, CommitStep(i)), x);
    CommitEffect(s.procs[i].core, i, OpOf(t), t.addr, t.cnt);
    CommitAtSelf(s, i, x);
    forall j | 0 <= j < |v| && j != i
      ensures var req := Request(Local(s.procs[i].core, x), OpOf(t));
              v'[j] == if req.Some? then SnoopTable(v[j], req.value) else v[j]
    {
      CommitAtOther(s, i, j, x);
    }
  }

  /** On the line it addresses, a commit is the textbook access if and only if
      nothing pending at the requester interferes. */
  lemma CommitIsAtomicIff(s: Sys, i: nat)
    requires SysWf(s) && CapsOk(s) && Enabled(s, CommitStep(i)) && Convert(s.procs[i].phase.t.addr) != 0
    ensures var op, x := OpOf(s.procs[i].phase.t), Convert(s.procs[i].phase.t.addr);
            View(Next(s, CommitStep(i)), x) == AtomicAccess(View(s, x), i, op)
            <==> Undisturbed(Pending(s, i), x, op)
  {
    var op, x := OpOf(s.procs[i].phase.t), Convert(s.procs[i].phase.t.addr);
    CommitViewAt(s, i);
    AtomicIff(View(s, x), View(Next(s, CommitStep(i)), x), i, op, x, Local(s.procs[i].core, x), Pending(s, i));
  }

  lemma AtomicIff(v: seq<State>, v': seq<State>, i: nat, op: PrTsn, x: nat, st: State, rs: seq<BusTransaction>)
    requires |v'| == |v| && i < |v| && x != 0
    requires v[i] == FoldLine(x, st, rs) && v'[i] == FoldLine(x, Upgrade(st, op), rs)
    requires forall j :: 0 <= j < |v| && j != i ==>
               v'[j] == if Request(st, op).Some? then SnoopTable(v[j], Request(st, op).value) else v[j]
    ensures v' == AtomicAccess(v, i, op) <==> Undisturbed(rs, x, op)
  {
    var w := AtomicAccess(v, i, op);
    FoldModified(x, rs);
    FoldShared(x, rs);
    FoldInvalid(x, rs);
    assert v' == w ==> v'[i] == w[i];
    if Undisturbed(rs, x, op) {
      assert forall j :: 0 <= j < |v| ==> v'[j] == w[j];
    }
  }

  /** A disturbed commit either hits and moves nothing, or moves the others as the
      textbook access does and leaves the requester at or below its textbook state. */
  lemma DisturbedCommit(s: Sys, i: nat)
    requires SysWf(s) && CapsOk(s) && Enabled(s, CommitStep(i)) && Convert(s.procs[i].phase.t.addr) != 0
    ensures var op, x := OpOf(s.procs[i].phase.t), Convert(s.procs[i].phase.t.addr);
            var v, v' := View(s, x), View(Next(s, CommitStep(i)), x);
            var w := AtomicAccess(v, i, op);
            || (CommitOf(s, i).1.None? && v' == v)
            || (CommitOf(s, i).1.Some? && Rank(v'[i]) <= Rank(w[i])
                && forall j :: 0 <= j < |v| && j != i ==> v'[j] == w[j])
  {
    var t, x := s.procs[i].phase.t, Convert(s.procs[i].phase.t.addr);
    CommitEffect(s.procs[i].core, i, OpOf(t), t.addr, t.cnt);
    CommitViewAt(s, i);
    AtMostAtomic(View(s, x), View(Next(s, CommitStep(i)), x), i, OpOf(t), x, Local(s.procs[i].core, x),
                 Pending(s, i));
  }

  lemma AtMostAtomic(v: seq<State>, v': seq<State>, i: nat, op: PrTsn, x: nat, st: State, rs: seq<BusTransaction>)
    requires |v'| == |v| && i < |v|
    requires v[i] == FoldLine(x, st, rs) && v'[i] == FoldLine(x, Upgrade(st, op), rs)
    requires forall j :: 0 <= j < |v| && j != i ==>
               v'[j] == if Request(st, op).Some? then SnoopTable(v[j], Request(st, op).value) else v[j]
    ensures var w := AtomicAccess(v, i, op);
            if Request(st, op).None? then v' == v
            else Rank(v'[i]) <= Rank(w[i]) && forall j :: 0 <= j < |v| && j != i ==> v'[j] == w[j]
  {
    FoldLowers(x, st, rs);
    FoldLowers(x, Upgrade(st, op), rs);
  }

  // ---- Whole runs ----

  datatype AtomicStep = Access(i: nat, op: PrTsn) | Evict(i: nat)

  function AtomicNext(v: seq<State>, a: AtomicStep): (v': seq<State>)
    requires a.i < |v|
    ensures |v'| == |v|
  {
    if a.Access? then AtomicAccess(v, a.i, a.op) else v[a.i := I]
  }

  function AtomicRun(v: seq<State>, acts: seq<AtomicStep>): (v': seq<State>)
    requires forall a | a in acts :: a.i < |v|
    ensures |v'| == |v|
  {
    if acts == [] then v
    else AtomicNext(AtomicRun(v, acts[..|acts| - 1]), acts[|acts| - 1])
  }

  /** A commit on line `x` that something pending interferes with. */
  ghost predicate Race(s: Sys, step: Step, x: nat)
    requires Enabled(s, step)
  {
    && step.CommitStep?
    && Convert(s.procs[step.i].phase.t.addr) == x
    && !Undisturbed(Pending(s, step.i), x, OpOf(s.procs[step.i].phase.t))
  }

  ghost predicate RaceFree(s: Sys, steps: seq<Step>, x: nat)
    requires CapsOk(s) && Exec(s, steps).Some?
  {
    steps == [] ||
    var before := steps[..|steps| - 1];
    RaceFree(s, before, x) && !Race(Exec(s, before).value, steps[|steps| - 1], x)
  }

  /** The atomic steps that one step of the simulator stands for, on line `x`. */
  ghost function Meaning(s: Sys, step: Step, x: nat): seq<AtomicStep>
    requires CapsOk(s) && Enabled(s, step)
  {
    if !step.CommitStep? then []
    else if Convert(s.procs[step.i].phase.t.addr) == x then [Access(step.i, OpOf(s.procs[step.i].phase.t))]
    else if View(Next(s, step), x) == View(s, x) then []
    else [Evict(step.i)]
  }

  ghost function RunMeaning(s: Sys, steps: seq<Step>, x: nat): (acts: seq<AtomicStep>)
    requires CapsOk(s) && Exec(s, steps).Some?
    ensures forall a | a in acts :: a.i < |s.procs|
  {
    if steps == [] then []
    else
      var before := steps[..|steps| - 1];
      RunMeaning(s, before, x) + Meaning(Exec(s, before).value, steps[|steps| - 1], x)
  }

  /** One race-free step does what its atomic steps do. */
  lemma StepIsAtomic(s: Sys, step: Step, x: nat, v: seq<State>, acts: seq<AtomicStep>)
    requires SysWf(s) && CapsOk(s) && Enabled(s, step) && IsLine(x) && x != 0 && !Race(s, step, x)
    requires |v| == |s.procs| && (forall a | a in acts :: a.i < |v|) && View(s, x) == AtomicRun(v, acts)
    ensures forall a | a in acts + Meaning(s, step, x) :: a.i < |v|
    ensures View(Next(s, step), x) == AtomicRun(v, acts + Meaning(s, step, x))
  {
    if !step.CommitStep? {
      QuietView(s, step, x);
      assert acts + [] == acts;
    } else if Convert(s.procs[step.i].phase.t.addr) == x {
      CommitIsAtomicIff(s, step.i);
    } else {
      CommitViewElsewhere(s, step.i, x);
      if View(Next(s, step), x) == View(s, x) {
        assert acts + [] == acts;
      }
    }
  }

  /** Every race-free run of the simulator is a run of atomic MSI with silent evictions. */
  lemma {:induction false} RaceFreeRunIsAtomic(s: Sys, steps: seq<Step>, x: nat)
    requires SysWf(s) && CapsOk(s) && Exec(s, steps).Some?
    requires IsLine(x) && x != 0 && RaceFree(s, steps, x)
    ensures View(Exec(s, steps).value, x) == AtomicRun(View(s, x), RunMeaning(s, steps, x))
  {
    if steps != [] {
      var before, step := steps[..|steps| - 1], steps[|steps| - 1];
      ExecWf(s, before);
      RaceFreeRunIsAtomic(s, before, x);
      StepIsAtomic(Exec(s, before).value, step, x, View(s, x), RunMeaning(s, before, x));
    }
  }
}
