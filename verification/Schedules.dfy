/** Runs put together from steps: serving one trace to the end, and broadcasting
    one transaction to everybody. */
module Schedules {
  import opened Msi
  import opened Protocol
  import opened Machine

  function Repeat(step: Step, k: nat): (steps: seq<Step>)
    ensures |steps| == k
  {
    if k == 0 then [] else Repeat(step, k - 1) + [step]
  }

  lemma RepeatMore(steps: seq<Step>, step: Step, k: nat)
    ensures steps + Repeat(step, k) + [step] == steps + Repeat(step, k + 1)
    ensures steps + Repeat(step, 0) == steps
  {
  }

  function Snoops(rs: seq<BusTransaction>): (es: seq<Event>)
    ensures |es| == |rs|
  {
    seq(|rs|, i requires 0 <= i < |rs| => Snooped(rs[i]))
  }

  /** The processor once its queue is drained. */
  function DrainProc(p: Proc): Proc
    requires 1 <= p.core.cache.cap
  {
    p.(core := Drain(p.core, p.requests), requests := [], history := p.history + Snoops(p.requests))
  }

  lemma DrainProcDone(p: Proc)
    requires 1 <= p.core.cache.cap && p.requests == []
    ensures DrainProc(p) == p
  {
  }

  function SnoopSome(p: Proc, k: nat): Proc
    requires 1 <= p.core.cache.cap && k <= |p.requests|
  {
    p.(core := Drain(p.core, p.requests[..k]), requests := p.requests[k..],
       history := p.history + Snoops(p.requests[..k]))
  }

  lemma SnoopSomeNext(p: Proc, k: nat)
    requires 1 <= p.core.cache.cap && k < |p.requests|
    ensures var q := SnoopSome(p, k);
            SnoopSome(p, k + 1) == q.(core := Snoop(q.core, p.requests[k]), requests := q.requests[1..],
                                      history := q.history + [Snooped(p.requests[k])])
  {
    assert p.requests[..k + 1] == p.requests[..k] + [p.requests[k]];
    DrainAppend(p.core, p.requests[..k], [p.requests[k]]);
    var d := Drain(p.core, p.requests[..k]);
    assert [p.requests[k]][1..] == [];
    assert Drain(d, [p.requests[k]]) == Snoop(d, p.requests[k]);
    assert Snoops(p.requests[..k + 1]) == Snoops(p.requests[..k]) + [Snooped(p.requests[k])];
    assert p.history + Snoops(p.requests[..k + 1]) ==
           p.history + Snoops(p.requests[..k]) + [Snooped(p.requests[k])];
  }

  function WithProc(s: Sys, i: nat, p: Proc): Sys
    requires i < |s.procs|
  {
    s.(procs := s.procs[i := p])
  }

  lemma WithProcTwice(s: Sys, i: nat, p: Proc, q: Proc)
    requires i < |s.procs|
    ensures WithProc(WithProc(s, i, p), i, q) == WithProc(s, i, q)
    ensures WithProc(s, i, s.procs[i]) == s
  {
  }

  lemma SnoopNone(s: Sys, i: nat)
    requires i < |s.procs| && 1 <= s.procs[i].core.cache.cap
    ensures WithProc(s, i, SnoopSome(s.procs[i], 0)) == s
  {
    var p := s.procs[i];
    assert p.history + Snoops(p.requests[..0]) == p.history;
    WithProcTwice(s, i, p, p);
  }

  lemma SnoopOneMore(s: Sys, i: nat, k: nat)
    requires CapsOk(s) && i < |s.procs| && s.procs[i].phase.Snooping? && k < |s.procs[i].requests|
    ensures var mid := WithProc(s, i, SnoopSome(s.procs[i], k));
            && Enabled(mid, SnoopOne(i)) && CapsOk(mid)
            && Next(mid, SnoopOne(i)) == WithProc(s, i, SnoopSome(s.procs[i], k + 1))
  {
    var p := s.procs[i];
    SnoopSomeNext(p, k);
    WithProcTwice(s, i, SnoopSome(p, k), SnoopSome(p, k + 1));
  }

  lemma {:induction false} SnoopRun(s: Sys, i: nat, k: nat)
    requires CapsOk(s) && i < |s.procs| && s.procs[i].phase.Snooping? && k <= |s.procs[i].requests|
    ensures Exec(s, Repeat(SnoopOne(i), k)) == Some(WithProc(s, i, SnoopSome(s.procs[i], k)))
  {
    if k == 0 {
      SnoopNone(s, i);
    } else {
      SnoopRun(s, i, k - 1);
      SnoopOneMore(s, i, k - 1);
      ExecSnoc(s, Repeat(SnoopOne(i), k - 1), SnoopOne(i));
    }
  }

  function ServeSteps(i: nat, k: nat): seq<Step> {
    [Take(i)] + Repeat(SnoopOne(i), k) + [SnoopDone(i), CommitStep(i)]
  }

  /** Processor `i` is between two accesses and has a trace waiting. */
  predicate CanTurn(s: Sys, i: nat) {
    s.sending.Free? && i < |s.procs| && s.procs[i].phase.Idle? && s.procs[i].traces != []
  }

  predicate CanServe(s: Sys, i: nat) {
    CanTurn(s, i) && IsAccess(s.procs[i].traces[0])
  }

  /** Drain, look up and commit, with nothing in between. */
  function Serve(s: Sys, i: nat): (s': Sys)
    requires CapsOk(s) && CanServe(s, i)
    ensures |s'.procs| == |s.procs| && CapsOk(s')
  {
    var p, t := DrainProc(s.procs[i]), s.procs[i].traces[0];
    var out := Commit(p.core, i, OpOf(t), t.addr, t.cnt);
    Served(s, i, p.(traces := p.traces[1..]), t, out.0, if out.1.Some? then [out.1.value] else [])
  }

  function Served(s: Sys, i: nat, p: Proc, t: Trace, core: Core, out: seq<BusTransaction>): Sys
    requires i < |s.procs|
  {
    var p' := p.(core := core, phase := Idle, history := p.history + [Accessed(OpOf(t), t.addr, t.cnt)]);
    WithProc(s, i, p').(bus := s.bus + out, log := s.log + out)
  }

  lemma ServeDrained(s: Sys, i: nat)
    requires CapsOk(s) && CanServe(s, i)
    ensures var p, t := s.procs[i], s.procs[i].traces[0];
            Exec(s, [Take(i)] + Repeat(SnoopOne(i), |p.requests|)) ==
            Some(WithProc(s, i, DrainProc(p).(traces := p.traces[1..], phase := Snooping(t))))
  {
    var p, t := s.procs[i], s.procs[i].traces[0];
    var taken := Next(s, Take(i));
    var q := p.(traces := p.traces[1..], phase := Snooping(t));
    assert taken == WithProc(s, i, q);
    WithProcTwice(s, i, q, SnoopSome(q, |p.requests|));
    assert [] + [Take(i)] == [Take(i)];
    ExecSnoc(s, [], Take(i));
    SnoopRun(taken, i, |p.requests|);
    ExecAppend(s, [Take(i)], Repeat(SnoopOne(i), |p.requests|));
    assert p.requests[..|p.requests|] == p.requests && p.requests[|p.requests|..] == [];
    assert SnoopSome(q, |p.requests|) == DrainProc(p).(traces := p.traces[1..], phase := Snooping(t));
  }

  /** A processor that has drained its queue finishes its access. */
  lemma FinishServe(s: Sys, i: nat, p: Proc, t: Trace)
    requires CapsOk(s) && i < |s.procs| && s.sending.Free? && 1 <= p.core.cache.cap
    requires p.phase == Snooping(t) && p.requests == []
    ensures var mid := WithProc(s, i, p);
            var out := Commit(p.core, i, OpOf(t), t.addr, t.cnt);
            && Enabled(mid, SnoopDone(i)) && Enabled(Next(mid, SnoopDone(i)), CommitStep(i))
            && Next(Next(mid, SnoopDone(i)), CommitStep(i)) ==
               Served(s, i, p, t, out.0, if out.1.Some? then [out.1.value] else [])
  {
  }

  /** Serving without interruption is a run of the machine. */
  lemma ServeIsRun(s: Sys, i: nat)
    requires CapsOk(s) && CanServe(s, i)
    ensures Exec(s, ServeSteps(i, |s.procs[i].requests|)) == Some(Serve(s, i))
  {
    var p, t := s.procs[i], s.procs[i].traces[0];
    var a := [Take(i)] + Repeat(SnoopOne(i), |p.requests|);
    ServeDrained(s, i);
    FinishServe(s, i, DrainProc(p).(traces := p.traces[1..], phase := Snooping(t)), t);
    ExecSnoc(s, a, SnoopDone(i));
    ExecSnoc(s, a + [SnoopDone(i)], CommitStep(i));
    assert ServeSteps(i, |p.requests|) == a + [SnoopDone(i)] + [CommitStep(i)];
  }

  /** One round of a processor's loop: serve the oldest trace, or drop it when it is
      neither a read nor a write. */
  function Round(s: Sys, i: nat): (s': Sys)
    requires CapsOk(s) && CanTurn(s, i)
    ensures |s'.procs| == |s.procs| && CapsOk(s')
  {
    if IsAccess(s.procs[i].traces[0]) then Serve(s, i) else Next(s, Take(i))
  }

  function RoundSteps(s: Sys, i: nat): seq<Step>
    requires CanTurn(s, i)
  {
    if IsAccess(s.procs[i].traces[0]) then ServeSteps(i, |s.procs[i].requests|) else [Take(i)]
  }

  lemma RoundIsRun(s: Sys, i: nat)
    requires CapsOk(s) && CanTurn(s, i)
    ensures Exec(s, RoundSteps(s, i)) == Some(Round(s, i))
  {
    if IsAccess(s.procs[i].traces[0]) {
      ServeIsRun(s, i);
    } else {
      assert [] + [Take(i)] == [Take(i)];
      ExecSnoc(s, [], Take(i));
    }
  }

  // ---- Broadcasting ----

  function Offer(p: Proc, j: nat, r: BusTransaction): Proc {
    if j == r.tid then p else p.(requests := p.requests + [r])
  }

  /** The head of the bus queue goes to every processor but its sender. */
  function Broadcast(s: Sys): (s': Sys)
    requires s.bus != []
    ensures |s'.procs| == |s.procs|
  {
    s.(procs := OfferUpTo(s.procs, s.bus[0], |s.procs|), bus := s.bus[1..])
  }

  function OfferUpTo(procs: seq<Proc>, r: BusTransaction, k: nat): (procs': seq<Proc>)
    requires k <= |procs|
    ensures |procs'| == |procs|
    ensures forall j :: 0 <= j < |procs| ==> procs'[j] == if j < k then Offer(procs[j], j, r) else procs[j]
  {
    seq(|procs|, j requires 0 <= j < |procs| => if j < k then Offer(procs[j], j, r) else procs[j])
  }

  lemma {:induction false} DeliverRun(s: Sys, k: nat)
    requires CapsOk(s) && s.sending.Sending? && s.sending.next == 0 && k <= |s.procs|
    ensures Exec(s, Repeat(Deliver, k)) ==
            Some(s.(procs := OfferUpTo(s.procs, s.sending.r, k), sending := Sending(s.sending.r, k)))
  {
    if k == 0 {
      assert OfferUpTo(s.procs, s.sending.r, 0) == s.procs;
    } else {
      DeliverRun(s, k - 1);
      ExecSnoc(s, Repeat(Deliver, k - 1), Deliver);
      var mid := Exec(s, Repeat(Deliver, k - 1)).value;
      assert Next(mid, Deliver).procs == OfferUpTo(s.procs, s.sending.r, k);
    }
  }

  function BroadcastSteps(n: nat): seq<Step> {
    [Pop] + Repeat(Deliver, n) + [Finish]
  }

  lemma BroadcastIsRun(s: Sys)
    requires CapsOk(s) && s.sending.Free? && s.bus != []
    ensures Exec(s, BroadcastSteps(|s.procs|)) == Some(Broadcast(s))
  {
    assert [] + [Pop] == [Pop];
    ExecSnoc(s, [], Pop);
    DeliverRun(Next(s, Pop), |s.procs|);
    ExecAppend(s, [Pop], Repeat(Deliver, |s.procs|));
    ExecSnoc(s, [Pop] + Repeat(Deliver, |s.procs|), Finish);
  }
}
