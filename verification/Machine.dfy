/** The whole simulator as a step machine: processors with snoop and trace queues,
    and a bus that hands each transaction to one processor after the other. A run
    is any sequence of enabled steps, so it ranges over every interleaving. */
module Machine {
  import opened Msi
  import opened Protocol

  /** What a processor has done to its cache, in order (history only). */
  datatype Event = Snooped(r: BusTransaction) | Accessed(op: PrTsn, addr: nat, cnt: int)

  /** Where a processor is in serving a trace: between accesses, emptying its snoop
      queue, or about to commit. */
  datatype Phase = Idle | Snooping(t: Trace) | Ready(t: Trace)

  datatype Proc = Proc(core: Core, requests: seq<BusTransaction>, traces: seq<Trace>, phase: Phase,
                       history: seq<Event>)

  /** `Sending(r, k)`: the bus lock is held and `r` has been offered to processors below `k`. */
  datatype BusState = Free | Sending(r: BusTransaction, next: nat)

  /** `log` records every transaction ever queued on the bus (history only). */
  datatype Sys = Sys(procs: seq<Proc>, bus: seq<BusTransaction>, sending: BusState, log: seq<BusTransaction>)

  datatype Step =
    | Enqueue(i: nat, t: Trace)
    | Take(i: nat)
    | SnoopOne(i: nat)
    | SnoopDone(i: nat)
    | CommitStep(i: nat)
    | Pop
    | Deliver
    | Finish

  predicate IsAccess(t: Trace) {
    t.kind == 'R' || t.kind == 'W'
  }

  function OpOf(t: Trace): PrTsn {
    if t.kind == 'R' then PrRd else PrWr
  }

  predicate CapsOk(s: Sys) {
    forall i :: 0 <= i < |s.procs| ==> 1 <= s.procs[i].core.cache.cap
  }

  function InitProc(cap: nat): Proc {
    Proc(InitCore(cap), [], [], Idle, [])
  }

  function Init(n: nat, cap: nat): (s: Sys)
    ensures |s.procs| == n && forall i :: 0 <= i < n ==> s.procs[i] == InitProc(cap)
  {
    Sys(seq(n, _ => InitProc(cap)), [], Free, [])
  }

  predicate Enabled(s: Sys, step: Step) {
    match step
    case Enqueue(i, t) => i < |s.procs|
    case Take(i) => i < |s.procs| && s.procs[i].phase.Idle? && s.procs[i].traces != []
    case SnoopOne(i) => i < |s.procs| && s.procs[i].phase.Snooping? && s.procs[i].requests != []
    case SnoopDone(i) => i < |s.procs| && s.procs[i].phase.Snooping? && s.procs[i].requests == []
    case CommitStep(i) => i < |s.procs| && s.procs[i].phase.Ready? && s.sending.Free?
    case Pop => s.sending.Free? && s.bus != []
    case Deliver => s.sending.Sending? && s.sending.next < |s.procs|
    case Finish => s.sending.Sending? && s.sending.next >= |s.procs|
  }

  /** The commit that processor `i` is about to make. */
  function CommitOf(s: Sys, i: nat): (Core, Option<BusTransaction>)
    requires i < |s.procs| && s.procs[i].phase.Ready? && CapsOk(s)
  {
    var t := s.procs[i].phase.t;
    Commit(s.procs[i].core, i, OpOf(t), t.addr, t.cnt)
  }

  function Next(s: Sys, step: Step): (s': Sys)
    requires CapsOk(s) && Enabled(s, step)
    ensures |s'.procs| == |s.procs| && CapsOk(s')
  {
    match step
    case Enqueue(i, t) =>
      var p := s.procs[i];
      s.(procs := s.procs[i := p.(traces := p.traces + [t])])
    case Take(i) =>
      // A record that is neither a read nor a write is dropped.
      var p, t := s.procs[i], s.procs[i].traces[0];
      s.(procs := s.procs[i := p.(traces := p.traces[1..], phase := if IsAccess(t) then Snooping(t) else Idle)])
    case SnoopOne(i) =>
      var p, r := s.procs[i], s.procs[i].requests[0];
      s.(procs := s.procs[i := p.(core := Snoop(p.core, r), requests := p.requests[1..],
                                  history := p.history + [Snooped(r)])])
    case SnoopDone(i) =>
      var p := s.procs[i];
      s.(procs := s.procs[i := p.(phase := Ready(p.phase.t))])
    case CommitStep(i) =>
      var p, t := s.procs[i], s.procs[i].phase.t;
      var (core, issued) := CommitOf(s, i);
      var p' := p.(core := core, phase := Idle, history := p.history + [Accessed(OpOf(t), t.addr, t.cnt)]);
      var out := if issued.Some? then [issued.value] else [];
      s.(procs := s.procs[i := p'], bus := s.bus + out, log := s.log + out)
    case Pop =>
      s.(bus := s.bus[1..], sending := Sending(s.bus[0], 0))
    case Deliver =>
      var r, k := s.sending.r, s.sending.next;
      var p := s.procs[k];
      var procs := if k == r.tid then s.procs else s.procs[k := p.(requests := p.requests + [r])];
      s.(procs := procs, sending := Sending(r, k + 1))
    case Finish =>
      s.(sending := Free)
  }

  /** The state after a run from `s`, if every step of the run was enabled. */
  function Exec(s: Sys, steps: seq<Step>): (o: Option<Sys>)
    requires CapsOk(s)
    ensures o.Some? ==> CapsOk(o.value) && |o.value.procs| == |s.procs|
  {
    if steps == [] then Some(s)
    else
      var o := Exec(s, steps[..|steps| - 1]);
      if o.Some? && Enabled(o.value, steps[|steps| - 1]) then Some(Next(o.value, steps[|steps| - 1])) else None
  }

  lemma ExecSnoc(s: Sys, steps: seq<Step>, step: Step)
    requires CapsOk(s) && Exec(s, steps).Some? && Enabled(Exec(s, steps).value, step)
    ensures Exec(s, steps + [step]) == Some(Next(Exec(s, steps).value, step))
  {
  }

  lemma ExecTwo(s: Sys, a: Step, b: Step)
    requires CapsOk(s) && Enabled(s, a) && Enabled(Next(s, a), b)
    ensures Exec(s, [a, b]) == Some(Next(Next(s, a), b))
  {
    assert [] + [a] == [a] && [a] + [b] == [a, b];
    ExecSnoc(s, [], a);
    ExecSnoc(s, [a], b);
  }

  lemma {:induction false} ExecAppend(s: Sys, a: seq<Step>, b: seq<Step>)
    requires CapsOk(s) && Exec(s, a).Some? && Exec(Exec(s, a).value, b).Some?
    ensures Exec(s, a + b) == Exec(Exec(s, a).value, b)
  {
    if b == [] {
      assert a + b == a;
    } else {
      var init, last := b[..|b| - 1], b[|b| - 1];
      ExecAppend(s, a, init);
      assert a + b == (a + init) + [last];
      ExecSnoc(s, a + init, last);
    }
  }

  ghost predicate Reachable(n: nat, cap: nat, s: Sys) {
    1 <= cap && exists steps :: Exec(Init(n, cap), steps) == Some(s)
  }

  // ---- What is still on its way to a processor ----

  /** The transactions of processors other than `i`, in order. */
  function Others(rs: seq<BusTransaction>, i: nat): seq<BusTransaction> {
    if rs == [] then []
    else if rs[|rs| - 1].tid == i then Others(rs[..|rs| - 1], i)
    else Others(rs[..|rs| - 1], i) + [rs[|rs| - 1]]
  }

  lemma {:induction false} OthersAppend(a: seq<BusTransaction>, b: seq<BusTransaction>, i: nat)
    ensures Others(a + b, i) == Others(a, i) + Others(b, i)
  {
    if b == [] {
      assert a + b == a;
    } else {
      assert (a + b)[..|a + b| - 1] == a + b[..|b| - 1];
      OthersAppend(a, b[..|b| - 1], i);
    }
  }

  lemma OthersOne(r: BusTransaction, i: nat)
    ensures Others([r], i) == if r.tid == i then [] else [r]
  {
  }

  function InFlight(s: Sys, i: nat): seq<BusTransaction> {
    if s.sending.Sending? && s.sending.next <= i && s.sending.r.tid != i then [s.sending.r] else []
  }

  /** Everything that will yet be snooped by `i`, oldest first. */
  function Pending(s: Sys, i: nat): seq<BusTransaction>
    requires i < |s.procs|
  {
    s.procs[i].requests + InFlight(s, i) + Others(s.bus, i)
  }

  /** The state of line `x` at `i` once all that is on its way has been snooped. */
  function Effective(s: Sys, i: nat, x: nat): State
    requires i < |s.procs|
  {
    FoldLine(x, Local(s.procs[i].core, x), Pending(s, i))
  }

  // ---- Well-formedness ----

  ghost predicate ProcWf(p: Proc) {
    CoreWf(p.core) && Aligned(p.requests)
  }

  ghost predicate SysWf(s: Sys) {
    && (forall i :: 0 <= i < |s.procs| ==> ProcWf(s.procs[i]))
    && Aligned(s.bus)
    && (s.sending.Sending? ==> IsLine(s.sending.r.tag) && s.sending.next <= |s.procs|)
  }

  lemma StepWf(s: Sys, step: Step)
    requires SysWf(s) && CapsOk(s) && Enabled(s, step)
    ensures SysWf(Next(s, step))
  {
    match step {
      case SnoopOne(i) =>
        SnoopKeepsWf(s.procs[i].core, s.procs[i].requests[0]);
      case CommitStep(i) =>
        var t := s.procs[i].phase.t;
        CommitEffect(s.procs[i].core, i, OpOf(t), t.addr, t.cnt);
      case _ =>
    }
  }

  /** Every tag stored in a cache or carried by a queue is right in every run. */
  lemma {:induction false} ExecWf(s: Sys, steps: seq<Step>)
    requires CapsOk(s) && SysWf(s) && Exec(s, steps).Some?
    ensures SysWf(Exec(s, steps).value)
  {
    if steps != [] {
      var before := steps[..|steps| - 1];
      ExecWf(s, before);
      StepWf(Exec(s, before).value, steps[|steps| - 1]);
    }
  }

  // ---- How a step moves what is pending ----

  lemma PopPending(s: Sys, j: nat)
    requires CapsOk(s) && Enabled(s, Pop) && j < |s.procs|
    ensures Pending(Next(s, Pop), j) == Pending(s, j)
  {
    assert [s.bus[0]] + s.bus[1..] == s.bus;
    OthersAppend([s.bus[0]], s.bus[1..], j);
    OthersOne(s.bus[0], j);
    var s' := Next(s, Pop);
    assert InFlight(s', j) == Others([s.bus[0]], j);
    assert InFlight(s, j) == [];
  }

  /** Popping, delivering and finishing only shift a transaction along its way. */
  lemma BusStepPending(s: Sys, step: Step, j: nat)
    requires CapsOk(s) && Enabled(s, step) && j < |s.procs|
    requires step.Pop? || step.Deliver? || step.Finish?
    ensures Pending(Next(s, step), j) == Pending(s, j)
    ensures Next(s, step).procs[j].core == s.procs[j].core
  {
    if step.Pop? {
      PopPending(s, j);
    }
  }

  lemma SnoopPending(s: Sys, i: nat)
    requires CapsOk(s) && Enabled(s, SnoopOne(i))
    ensures Pending(s, i) == [s.procs[i].requests[0]] + Pending(Next(s, SnoopOne(i)), i)
  {
  }

  lemma QueuePending(s: Sys, s': Sys, out: seq<BusTransaction>, j: nat)
    requires |s'.procs| == |s.procs| && j < |s.procs| && s'.procs[j].requests == s.procs[j].requests
    requires s'.sending == s.sending == Free && s'.bus == s.bus + out
    ensures Pending(s', j) == Pending(s, j) + Others(out, j)
  {
    OthersAppend(s.bus, out, j);
  }

  /** A commit puts its transaction last in everybody else's pending sequence. */
  lemma CommitPending(s: Sys, i: nat, j: nat)
    requires CapsOk(s) && Enabled(s, CommitStep(i)) && j < |s.procs|
    ensures var issued := CommitOf(s, i).1;
            Pending(Next(s, CommitStep(i)), j) ==
            Pending(s, j) + if j != i && issued.Some? then [issued.value] else []
  {
    var issued := CommitOf(s, i).1;
    var out := if issued.Some? then [issued.value] else [];
    QueuePending(s, Next(s, CommitStep(i)), out, j);
    if issued.Some? {
      OthersOne(issued.value, j);
    }
  }

  /** Every step but a commit leaves every effective state alone. */
  lemma QuietStep(s: Sys, step: Step, j: nat, x: nat)
    requires SysWf(s) && CapsOk(s) && Enabled(s, step) && !step.CommitStep? && j < |s.procs|
    ensures Effective(Next(s, step), j, x) == Effective(s, j, x)
  {
    var s' := Next(s, step);
    match step {
      case SnoopOne(i) =>
        if i == j {
          var p, r := s.procs[i].core, s.procs[i].requests[0];
          SnoopPending(s, i);
          SnoopEffect(p, r, x);
          assert Pending(s, i)[0] == r && Pending(s, i)[1..] == Pending(s', i);
        } else {
          assert Pending(s', j) == Pending(s, j);
        }
      case Pop => BusStepPending(s, step, j);
      case Deliver => BusStepPending(s, step, j);
      case Finish => BusStepPending(s, step, j);
      case _ =>
    }
  }

  /** A commit by `i`, seen at another processor. */
  lemma CommitAtOther(s: Sys, i: nat, j: nat, x: nat)
    requires SysWf(s) && CapsOk(s) && Enabled(s, CommitStep(i)) && j < |s.procs| && j != i
    ensures var issued := CommitOf(s, i).1;
            Effective(Next(s, CommitStep(i)), j, x) ==
            if issued.Some? then SnoopLine(x, Effective(s, j, x), issued.value) else Effective(s, j, x)
  {
    var issued, st := CommitOf(s, i).1, Local(s.procs[j].core, x);
    CommitPending(s, i, j);
    if issued.Some? {
      FoldAppend(x, st, Pending(s, j), [issued.value]);
      FoldOne(x, FoldLine(x, st, Pending(s, j)), issued.value);
    } else {
      assert Pending(s, j) + [] == Pending(s, j);
    }
  }

  lemma FoldOne(x: nat, st: State, r: BusTransaction)
    ensures FoldLine(x, st, [r]) == SnoopLine(x, st, r)
  {
  }

  /** A commit by `i`, seen at `i` itself: its own transaction does not come back,
      so only what was already pending applies to the upgraded line. */
  lemma CommitAtSelf(s: Sys, i: nat, x: nat)
    requires SysWf(s) && CapsOk(s) && Enabled(s, CommitStep(i)) && IsLine(x)
    ensures var t := s.procs[i].phase.t;
            var st, st' := Local(s.procs[i].core, x), Local(Next(s, CommitStep(i)).procs[i].core, x);
            && Effective(Next(s, CommitStep(i)), i, x) == FoldLine(x, st', Pending(s, i))
            && (x == Convert(t.addr) ==> st' == Upgrade(st, OpOf(t)))
            && (x != Convert(t.addr) ==> st' == st || st' == I)
  {
    var p, t := s.procs[i].core, s.procs[i].phase.t;
    CommitPending(s, i, i);
    assert Pending(s, i) + [] == Pending(s, i);
    CommitEffect(p, i, OpOf(t), t.addr, t.cnt);
    if x != Convert(t.addr) {
      CommitOthers(p, i, OpOf(t), t.addr, t.cnt, x);
    }
  }

  lemma {:induction false} FoldInvalid(x: nat, rs: seq<BusTransaction>)
    ensures FoldLine(x, I, rs) == I
  {
    if rs != [] {
      FoldInvalid(x, rs[1..]);
    }
  }
}
