/** Queueing transactions and snooping them at the next access gives the same caches,
    recency order and counters as snooping each one when it is delivered. */
module Eager {
  import opened Msi
  import opened Protocol
  import opened Machine
  import opened Schedules

  /** Arrivals, rounds of the processors' loops and broadcasts, each without
      interruption, in any order. */
  datatype Action = Arrive(i: nat, t: Trace) | Turn(i: nat) | Transmit

  predicate CanAct(s: Sys, a: Action) {
    match a
    case Arrive(i, _) => i < |s.procs|
    case Turn(i) => CanTurn(s, i)
    case Transmit => s.sending.Free? && s.bus != []
  }

  function LazyAct(s: Sys, a: Action): (s': Sys)
    requires CapsOk(s) && CanAct(s, a)
    ensures CapsOk(s') && |s'.procs| == |s.procs|
  {
    match a
    case Arrive(i, t) => Next(s, Enqueue(i, t))
    case Turn(i) => Round(s, i)
    case Transmit => Broadcast(s)
  }

  /** The same, but a transaction is snooped where it is delivered. */
  function EagerAct(s: Sys, a: Action): (s': Sys)
    requires CapsOk(s) && CanAct(s, a)
    ensures CapsOk(s')
  {
    if a.Transmit? then s.(procs := SnoopAll(s.procs, s.bus[0]), bus := s.bus[1..])
    else LazyAct(s, a)
  }

  predicate ProcCapsOk(procs: seq<Proc>) {
    forall j :: 0 <= j < |procs| ==> 1 <= procs[j].core.cache.cap
  }

  function SnoopAll(procs: seq<Proc>, r: BusTransaction): (procs': seq<Proc>)
    requires ProcCapsOk(procs)
    ensures |procs'| == |procs|
    ensures forall j :: 0 <= j < |procs| ==>
              procs'[j] == if j == r.tid then procs[j]
                           else procs[j].(core := Snoop(procs[j].core, r), history := procs[j].history + [Snooped(r)])
  {
    seq(|procs|, j requires 0 <= j < |procs| =>
      if j == r.tid then procs[j]
      else procs[j].(core := Snoop(procs[j].core, r), history := procs[j].history + [Snooped(r)]))
  }

  function Lazy(s: Sys, acts: seq<Action>): (o: Option<Sys>)
    requires CapsOk(s)
    ensures o.Some? ==> CapsOk(o.value)
  {
    if acts == [] then Some(s)
    else
      var o := Lazy(s, acts[..|acts| - 1]);
      if o.Some? && CanAct(o.value, acts[|acts| - 1]) then Some(LazyAct(o.value, acts[|acts| - 1])) else None
  }

  /** An action that is not possible changes nothing. */
  function Try(s: Sys, a: Action): (s': Sys)
    requires CapsOk(s)
    ensures CapsOk(s') && |s'.procs| == |s.procs|
  {
    if CanAct(s, a) then LazyAct(s, a) else s
  }

  /** Carry out a schedule, skipping what is not possible. */
  function Carry(s: Sys, acts: seq<Action>): (s': Sys)
    requires CapsOk(s)
    ensures CapsOk(s') && |s'.procs| == |s.procs|
  {
    if acts == [] then s else Try(Carry(s, acts[..|acts| - 1]), acts[|acts| - 1])
  }

  lemma CarrySnoc(s: Sys, acts: seq<Action>, a: Action)
    requires CapsOk(s)
    ensures Carry(s, acts + [a]) == Try(Carry(s, acts), a)
  {
    assert (acts + [a])[..|acts|] == acts;
  }

  lemma {:induction false} CarryAppend(s: Sys, a: seq<Action>, b: seq<Action>)
    requires CapsOk(s)
    ensures Carry(s, a + b) == Carry(Carry(s, a), b)
  {
    if b == [] {
      assert a + b == a;
    } else {
      assert (a + b)[..|a + b| - 1] == a + b[..|b| - 1];
      CarryAppend(s, a, b[..|b| - 1]);
    }
  }

  function EagerRun(s: Sys, acts: seq<Action>): (o: Option<Sys>)
    requires CapsOk(s)
    ensures o.Some? ==> CapsOk(o.value)
  {
    if acts == [] then Some(s)
    else
      var o := EagerRun(s, acts[..|acts| - 1]);
      if o.Some? && CanAct(o.value, acts[|acts| - 1]) then Some(EagerAct(o.value, acts[|acts| - 1])) else None
  }

  /** Every processor drains its queue. */
  function Settle(s: Sys): (s': Sys)
    requires CapsOk(s)
    ensures CapsOk(s') && |s'.procs| == |s.procs|
    ensures forall j :: 0 <= j < |s.procs| ==> s'.procs[j] == DrainProc(s.procs[j])
  {
    s.(procs := seq(|s.procs|, j requires 0 <= j < |s.procs| => DrainProc(s.procs[j])))
  }

  lemma DrainOffered(p: Proc, r: BusTransaction)
    requires 1 <= p.core.cache.cap
    ensures var q := DrainProc(p);
            DrainProc(p.(requests := p.requests + [r])) ==
            q.(core := Snoop(q.core, r), history := q.history + [Snooped(r)])
  {
    var p' := p.(requests := p.requests + [r]);
    SnoopSomeNext(p', |p.requests|);
    assert p'.requests[..|p.requests|] == p.requests;
    assert p'.requests[..|p'.requests|] == p'.requests;
  }

  lemma SettleTransmit(s: Sys)
    requires CapsOk(s) && CanAct(s, Transmit)
    ensures Settle(LazyAct(s, Transmit)) == EagerAct(Settle(s), Transmit)
  {
    var a, b := Settle(LazyAct(s, Transmit)), EagerAct(Settle(s), Transmit);
    forall j | 0 <= j < |s.procs| ensures a.procs[j] == b.procs[j] {
      DrainOffered(s.procs[j], s.bus[0]);
    }
    assert a.procs == b.procs;
  }

  lemma SettleAccess(s: Sys, i: nat)
    requires CapsOk(s) && CanServe(s, i)
    ensures CanServe(Settle(s), i) && Settle(Serve(s, i)) == Serve(Settle(s), i)
  {
    var a, b := Settle(Serve(s, i)), Serve(Settle(s), i);
    DrainProcDone(DrainProc(s.procs[i]));
    DrainProcDone(Serve(s, i).procs[i]);
    forall j | 0 <= j < |s.procs| ensures a.procs[j] == b.procs[j] {
    }
    assert a.procs == b.procs;
  }

  lemma SettleTurn(s: Sys, i: nat)
    requires CapsOk(s) && CanTurn(s, i)
    ensures CanTurn(Settle(s), i) && Settle(Round(s, i)) == Round(Settle(s), i)
  {
    if IsAccess(s.procs[i].traces[0]) {
      SettleAccess(s, i);
    } else {
      assert Settle(Next(s, Take(i))).procs == Next(Settle(s), Take(i)).procs;
    }
  }

  lemma SettleArrive(s: Sys, i: nat, t: Trace)
    requires CapsOk(s) && i < |s.procs|
    ensures Settle(Next(s, Enqueue(i, t))) == Next(Settle(s), Enqueue(i, t))
  {
  }

  /** For every schedule, settling the lazy run gives the eager run: the same cache
      contents, recency order, flushes, misses, bus queue and log. */
  lemma {:induction false} LazyEqualsEager(s: Sys, acts: seq<Action>)
    requires CapsOk(s) && Lazy(s, acts).Some? && Settle(s) == s
    ensures EagerRun(s, acts) == Some(Settle(Lazy(s, acts).value))
  {
    if acts != [] {
      var before, a := acts[..|acts| - 1], acts[|acts| - 1];
      var mid := Lazy(s, before).value;
      LazyEqualsEager(s, before);
      match a {
        case Arrive(i, t) => SettleArrive(mid, i, t);
        case Turn(i) => SettleTurn(mid, i);
        case Transmit => SettleTransmit(mid);
      }
    }
  }

  lemma InitSettled(n: nat, cap: nat)
    requires 1 <= cap
    ensures Settle(Init(n, cap)) == Init(n, cap)
  {
    DrainProcDone(InitProc(cap));
    assert Settle(Init(n, cap)).procs == Init(n, cap).procs;
  }

  /** From the start of the program, every schedule leaves the same caches, recency
      order and counters lazily, once drained, as it does eagerly. */
  lemma SchedulesAgree(n: nat, cap: nat, acts: seq<Action>)
    requires 1 <= cap && Lazy(Init(n, cap), acts).Some?
    ensures EagerRun(Init(n, cap), acts) == Some(Settle(Lazy(Init(n, cap), acts).value))
  {
    InitSettled(n, cap);
    LazyEqualsEager(Init(n, cap), acts);
  }

  /** Every lazy schedule is a run of the machine. */
  lemma {:induction false} LazyIsRun(s: Sys, acts: seq<Action>) returns (steps: seq<Step>)
    requires CapsOk(s) && Lazy(s, acts).Some?
    ensures Exec(s, steps) == Lazy(s, acts)
  {
    if acts == [] {
      steps := [];
    } else {
      var before, a := acts[..|acts| - 1], acts[|acts| - 1];
      var mid := Lazy(s, before).value;
      var first := LazyIsRun(s, before);
      var more: seq<Step>;
      match a {
        case Arrive(i, t) =>
          more := [Enqueue(i, t)];
          assert [] + more == more;
          ExecSnoc(mid, [], Enqueue(i, t));
        case Turn(i) =>
          more := RoundSteps(mid, i);
          RoundIsRun(mid, i);
        case Transmit =>
          more := BroadcastSteps(|mid.procs|);
          BroadcastIsRun(mid);
      }
      ExecAppend(s, first, more);
      steps := first + more;
    }
  }

  // ---- States that a schedule reaches ----

  ghost predicate Scheduled(n: nat, cap: nat, s: Sys) {
    1 <= cap && exists acts :: Lazy(Init(n, cap), acts) == Some(s)
  }

  lemma ScheduledInit(n: nat, cap: nat)
    requires 1 <= cap
    ensures Scheduled(n, cap, Init(n, cap))
  {
    assert Lazy(Init(n, cap), []) == Some(Init(n, cap));
  }

  lemma ScheduledAct(n: nat, cap: nat, s: Sys, a: Action)
    requires Scheduled(n, cap, s) && CapsOk(s) && CanAct(s, a)
    ensures Scheduled(n, cap, LazyAct(s, a))
  {
    var acts :| Lazy(Init(n, cap), acts) == Some(s);
    assert (acts + [a])[..|acts|] == acts;
    assert Lazy(Init(n, cap), acts + [a]) == Some(LazyAct(s, a));
  }

  lemma ScheduledIsReachable(n: nat, cap: nat, s: Sys)
    requires Scheduled(n, cap, s)
    ensures Reachable(n, cap, s)
  {
    var acts :| Lazy(Init(n, cap), acts) == Some(s);
    var steps := LazyIsRun(Init(n, cap), acts);
  }
}
