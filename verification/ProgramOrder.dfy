/** From the input to the statistics: every processor performs the accesses handed to
    it, each once and in order, so the reported miss rate is over the right number. */
module ProgramOrder {
  import opened Msi
  import opened Machine
  import opened Accounts
  import opened Ledger
  import opened Termination
  import Demux

  /** The traces a run hands to processor `i`, in order. */
  function Arrivals(steps: seq<Step>, i: nat): seq<Trace> {
    if steps == [] then []
    else
      var before, step := Arrivals(steps[..|steps| - 1], i), steps[|steps| - 1];
      if step.Enqueue? && step.i == i then before + [step.t] else before
  }

  /** The accesses that traces call for; other records call for none. */
  function Accesses(ts: seq<Trace>): seq<Event> {
    if ts == [] then [] else Accesses(ts[..|ts| - 1]) + AccessOf(ts[|ts| - 1])
  }

  function AccessOf(t: Trace): seq<Event> {
    if t.kind == 'R' then [Accessed(PrRd, t.addr, t.cnt)]
    else if t.kind == 'W' then [Accessed(PrWr, t.addr, t.cnt)]
    else []
  }

  /** The accesses in a processor's history. */
  function Performed(history: seq<Event>): seq<Event> {
    if history == [] then []
    else
      var e := history[|history| - 1];
      Performed(history[..|history| - 1]) + if e.Accessed? then [e] else []
  }

  /** The access being served. */
  function InHand(phase: Phase): seq<Event> {
    match phase
    case Idle => []
    case Snooping(t) => AccessOf(t)
    case Ready(t) => AccessOf(t)
  }

  /** Performed, in hand and waiting make up what has arrived. */
  ghost predicate InOrder(p: Proc, arrived: seq<Trace>) {
    && Performed(p.history) + InHand(p.phase) + Accesses(p.traces) == Accesses(arrived)
    && (!p.phase.Idle? ==> IsAccess(p.phase.t))
  }

  lemma {:induction false} AccessesAppend(a: seq<Trace>, b: seq<Trace>)
    ensures Accesses(a + b) == Accesses(a) + Accesses(b)
  {
    if b == [] {
      assert a + b == a;
    } else {
      assert (a + b)[..|a + b| - 1] == a + b[..|b| - 1];
      AccessesAppend(a, b[..|b| - 1]);
    }
  }

  lemma AccessesSnoc(ts: seq<Trace>, t: Trace)
    ensures Accesses(ts + [t]) == Accesses(ts) + AccessOf(t)
  {
    assert (ts + [t])[..|ts|] == ts;
  }

  lemma AccessesOne(t: Trace)
    ensures Accesses([t]) == AccessOf(t)
  {
    AccessesSnoc([], t);
    assert [] + [t] == [t];
  }

  lemma AccessesUncons(ts: seq<Trace>)
    requires ts != []
    ensures Accesses(ts) == AccessOf(ts[0]) + Accesses(ts[1..])
  {
    AccessesOne(ts[0]);
    AccessesAppend([ts[0]], ts[1..]);
    assert [ts[0]] + ts[1..] == ts;
  }

  lemma PerformedSnoc(history: seq<Event>, e: Event)
    ensures Performed(history + [e]) == Performed(history) + if e.Accessed? then [e] else []
  {
  }

  lemma Regroup3(a: seq<Event>, b: seq<Event>, c: seq<Event>, d: seq<Event>)
    ensures a + b + c + d == a + b + (c + d)
  {
  }

  lemma InOrderEnqueue(p: Proc, arrived: seq<Trace>, t: Trace)
    requires InOrder(p, arrived)
    ensures InOrder(p.(traces := p.traces + [t]), arrived + [t])
  {
    AccessesSnoc(p.traces, t);
    AccessesSnoc(arrived, t);
    Regroup3(Performed(p.history), InHand(p.phase), Accesses(p.traces), AccessOf(t));
  }

  lemma Regroup(a: seq<Event>, b: seq<Event>, c: seq<Event>)
    ensures a + [] + (b + c) == a + b + c
  {
  }

  lemma InOrderTake(p: Proc, p': Proc, arrived: seq<Trace>, t: Trace)
    requires InOrder(p, arrived) && p.phase.Idle?
    requires p.traces != [] && p.traces[0] == t && p'.traces == p.traces[1..]
    requires p'.history == p.history && p'.phase == if IsAccess(t) then Snooping(t) else Idle
    ensures InOrder(p', arrived)
  {
    AccessesUncons(p.traces);
    Regroup(Performed(p.history), AccessOf(t), Accesses(p'.traces));
    assert InHand(p'.phase) == AccessOf(t);
  }

  lemma InOrderCommit(p: Proc, p': Proc, arrived: seq<Trace>, t: Trace)
    requires InOrder(p, arrived) && p.phase == Ready(t) && p'.phase.Idle? && p'.traces == p.traces
    requires p'.history == p.history + [Accessed(OpOf(t), t.addr, t.cnt)]
    ensures InOrder(p', arrived)
  {
  }

  lemma InOrderSnoop(p: Proc, p': Proc, arrived: seq<Trace>, r: BusTransaction)
    requires InOrder(p, arrived) && p'.phase == p.phase && p'.traces == p.traces
    requires p'.history == p.history + [Snooped(r)]
    ensures InOrder(p', arrived)
  {
    PerformedSnoc(p.history, Snooped(r));
  }

  lemma InOrderStep(s: Sys, step: Step, i: nat, arrived: seq<Trace>)
    requires CapsOk(s) && Enabled(s, step) && i < |s.procs| && InOrder(s.procs[i], arrived)
    requires !(step.Enqueue? && step.i == i)
    ensures InOrder(Next(s, step).procs[i], arrived)
  {
    var p, p' := s.procs[i], Next(s, step).procs[i];
    if step == Take(i) {
      InOrderTake(p, p', arrived, p.traces[0]);
    } else if step == SnoopOne(i) {
      InOrderSnoop(p, p', arrived, p.requests[0]);
    } else if step == CommitStep(i) {
      InOrderCommit(p, p', arrived, p.phase.t);
    }
  }

  lemma {:induction false} InOrderExec(s: Sys, steps: seq<Step>, i: nat)
    requires CapsOk(s) && Exec(s, steps).Some? && i < |s.procs| && InOrder(s.procs[i], [])
    ensures InOrder(Exec(s, steps).value.procs[i], Arrivals(steps, i))
  {
    if steps != [] {
      var before := steps[..|steps| - 1];
      InOrderExec(s, before, i);
      var mid, step, arrived := Exec(s, before).value, steps[|steps| - 1], Arrivals(before, i);
      if step.Enqueue? && step.i == i {
        InOrderEnqueue(mid.procs[i], arrived, step.t);
      } else {
        InOrderStep(mid, step, i, arrived);
      }
    }
  }

  /** In every run each processor performs exactly the accesses handed to it, each once
      and in order: those performed, the one in hand and those waiting make them up. */
  lemma ProgramOrderAlways(n: nat, cap: nat, steps: seq<Step>, i: nat)
    requires 1 <= cap && Exec(Init(n, cap), steps).Some? && i < n
    ensures InOrder(Exec(Init(n, cap), steps).value.procs[i], Arrivals(steps, i))
  {
    InOrderExec(Init(n, cap), steps, i);
  }

  /** The run feeds processor `i` with the records of the thread renamed to `i`. */
  ghost predicate Feeds(steps: seq<Step>, rs: seq<Demux.Record>, n: nat) {
    var ids := Demux.FirstSeen(Demux.Rids(rs));
    && |ids| <= n
    && (forall i :: 0 <= i < n ==> Arrivals(steps, i) == if i < |ids| then Demux.Own(rs, ids[i]) else [])
  }

  /** Under any schedule, once a run that reads a trace has finished, each processor has
      performed exactly its thread's accesses, in program order. */
  lemma FinishedRunPerformsTrace(n: nat, cap: nat, steps: seq<Step>, rs: seq<Demux.Record>, i: nat)
    requires 1 <= cap && Exec(Init(n, cap), steps).Some? && i < n
    requires Feeds(steps, rs, n) && Finished(Exec(Init(n, cap), steps).value)
    ensures var ids, p := Demux.FirstSeen(Demux.Rids(rs)), Exec(Init(n, cap), steps).value.procs[i];
            Performed(p.history) == if i < |ids| then Accesses(Demux.Own(rs, ids[i])) else []
  {
    ProgramOrderAlways(n, cap, steps, i);
    assert Accesses([]) == [];
  }

  // ---- The miss rate ----

  lemma {:induction false} AccessesPerformed(cap: nat, tid: nat, history: seq<Event>)
    requires 1 <= cap
    ensures TallyOf(cap, tid, history).accesses == |Performed(history)|
  {
    if history != [] {
      AccessesPerformed(cap, tid, history[..|history| - 1]);
    }
  }

  lemma {:induction false} AtMostOneEach(ts: seq<Trace>)
    ensures |Accesses(ts)| <= |ts|
  {
    if ts != [] {
      AtMostOneEach(ts[..|ts| - 1]);
    }
  }

  /** How many records a run has read. */
  function Fed(steps: seq<Step>): nat {
    if steps == [] then 0 else Fed(steps[..|steps| - 1]) + Bit(steps[|steps| - 1].Enqueue?)
  }

  /** The arrivals at the processors below `k`. */
  function ArrivedBelow(steps: seq<Step>, k: nat): nat {
    if k == 0 then 0 else ArrivedBelow(steps, k - 1) + |Arrivals(steps, k - 1)|
  }

  lemma {:induction false} ArrivedBelowSnoc(before: seq<Step>, step: Step, steps: seq<Step>, k: nat)
    requires steps == before + [step]
    ensures ArrivedBelow(steps, k) == ArrivedBelow(before, k) + Bit(step.Enqueue? && step.i < k)
  {
    if k > 0 {
      ArrivedBelowSnoc(before, step, steps, k - 1);
      assert steps[..|steps| - 1] == before;
    }
  }

  lemma {:induction false} NothingArrived(k: nat)
    ensures ArrivedBelow([], k) == 0
  {
    if k > 0 {
      NothingArrived(k - 1);
    }
  }

  lemma {:induction false} ArrivalsAreFed(steps: seq<Step>, k: nat)
    ensures ArrivedBelow(steps, k) <= Fed(steps)
  {
    if steps == [] {
      NothingArrived(k);
    } else {
      var before, step := steps[..|steps| - 1], steps[|steps| - 1];
      ArrivalsAreFed(before, k);
      ArrivedBelowSnoc(before, step, steps, k);
    }
  }

  // ---- What the input says of the histories ----

  /** Every write that arrives goes to a line, or to the one address `a`. */
  ghost predicate WritesTo(steps: seq<Step>, a: nat) {
    forall step | step in steps && step.Enqueue? && step.t.kind == 'W' :: IsLine(step.t.addr) || step.t.addr == a
  }

  ghost predicate AlignedInput(steps: seq<Step>) {
    forall step | step in steps && step.Enqueue? && step.t.kind == 'W' :: IsLine(step.t.addr)
  }

  lemma {:induction false} ArrivalsStem(steps: seq<Step>, i: nat)
    ensures forall t :: t in Arrivals(steps, i) ==> Enqueue(i, t) in steps
  {
    if steps != [] {
      ArrivalsStem(steps[..|steps| - 1], i);
    }
  }

  lemma {:induction false} AccessesStem(ts: seq<Trace>, e: Event)
    requires e in Accesses(ts)
    ensures exists t :: t in ts && IsAccess(t) && e == Accessed(OpOf(t), t.addr, t.cnt)
  {
    var before, last := ts[..|ts| - 1], ts[|ts| - 1];
    if e in Accesses(before) {
      AccessesStem(before, e);
    } else {
      assert e in AccessOf(last);
    }
  }

  lemma {:induction false} PerformedMembers(history: seq<Event>)
    ensures forall e :: e in history && e.Accessed? ==> e in Performed(history)
  {
    if history != [] {
      PerformedMembers(history[..|history| - 1]);
    }
  }

  /** What a processor has written, it was told to write. */
  lemma HistoryWrites(n: nat, cap: nat, steps: seq<Step>, i: nat, e: Event, a: nat)
    requires 1 <= cap && Exec(Init(n, cap), steps).Some? && i < n && WritesTo(steps, a)
    requires e in Exec(Init(n, cap), steps).value.procs[i].history && e.Accessed? && e.op == PrWr
    ensures IsLine(e.addr) || e.addr == a
  {
    var p := Exec(Init(n, cap), steps).value.procs[i];
    ProgramOrderAlways(n, cap, steps, i);
    PerformedMembers(p.history);
    assert e in Performed(p.history) + InHand(p.phase) + Accesses(p.traces);
    AccessesStem(Arrivals(steps, i), e);
    var t :| t in Arrivals(steps, i) && IsAccess(t) && e == Accessed(OpOf(t), t.addr, t.cnt);
    ArrivalsStem(steps, i);
    assert Enqueue(i, t) in steps;
  }

  lemma InputAligned(n: nat, cap: nat, steps: seq<Step>, i: nat)
    requires 1 <= cap && Exec(Init(n, cap), steps).Some? && i < n && AlignedInput(steps)
    ensures WritesAligned(Exec(Init(n, cap), steps).value.procs[i].history)
  {
    var history := Exec(Init(n, cap), steps).value.procs[i].history;
    forall e | e in history && e.Accessed? && e.op == PrWr ensures IsLine(e.addr) {
      HistoryWrites(n, cap, steps, i, e, 0);
    }
  }

  lemma {:induction false} MissesBelow(n: nat, cap: nat, steps: seq<Step>, s: Sys, k: nat)
    requires 1 <= cap && Exec(Init(n, cap), steps) == Some(s) && k <= n && AlignedInput(steps)
    ensures TotalMisses(s.procs[..k]) <= ArrivedBelow(steps, k)
  {
    if k > 0 {
      var i := k - 1;
      MissesBelow(n, cap, steps, s, i);
      InputAligned(n, cap, steps, i);
      ReachableTraffic(n, cap, s, i);
      AccessesPerformed(cap, i, s.procs[i].history);
      ProgramOrderAlways(n, cap, steps, i);
      AtMostOneEach(Arrivals(steps, i));
      assert s.procs[..k][..i] == s.procs[..i];
    }
  }

  /** When all writes that arrive are line-aligned, the cold, capacity and coherence misses
      that the program adds up never exceed the number of records it divides them by. */
  lemma MissRateAtMostOne(n: nat, cap: nat, steps: seq<Step>)
    requires 1 <= cap && Exec(Init(n, cap), steps).Some? && AlignedInput(steps)
    ensures TotalMisses(Exec(Init(n, cap), steps).value.procs) <= Fed(steps)
  {
    var s := Exec(Init(n, cap), steps).value;
    MissesBelow(n, cap, steps, s, n);
    ArrivalsAreFed(steps, n);
    assert s.procs[..n] == s.procs;
  }
}
