/** Schedules are limited by nothing but the program's own tests, and every schedule can be
    carried on to the end. */
module Completion {
  import opened Machine
  import opened Schedules
  import opened Eager
  import opened Termination

  /** With the bus free, an arrival, a round and a broadcast are possible exactly when the
      machine can make their first step. */
  lemma CanActIffEnabled(s: Sys, a: Action)
    requires s.sending.Free?
    ensures CanAct(s, a) <==>
            Enabled(s, if a.Arrive? then Enqueue(a.i, a.t) else if a.Turn? then Take(a.i) else Pop)
  {
  }

  /** Between the actions of a schedule nothing is half done. */
  ghost predicate AtRest(s: Sys) {
    CapsOk(s) && s.sending.Free? && forall i :: 0 <= i < |s.procs| ==> s.procs[i].phase.Idle?
  }

  lemma TryRests(s: Sys, a: Action)
    requires AtRest(s)
    ensures AtRest(Try(s, a))
  {
  }

  lemma {:induction false} CarryRests(s: Sys, acts: seq<Action>)
    requires AtRest(s)
    ensures AtRest(Carry(s, acts))
  {
    if acts != [] {
      CarryRests(s, acts[..|acts| - 1]);
      TryRests(Carry(s, acts[..|acts| - 1]), acts[|acts| - 1]);
    }
  }

  lemma RoundWorks(s: Sys, i: nat)
    requires AtRest(s) && CanTurn(s, i)
    ensures Work(Round(s, i)) < Work(s)
  {
    SumUpdate(s.procs, OutstandingOf(), i, Round(s, i).procs[i]);
  }

  lemma {:induction false} OfferKeepsSum(procs: seq<Proc>, procs': seq<Proc>)
    requires |procs'| == |procs|
    requires forall j :: 0 <= j < |procs| ==> Outstanding(procs'[j]) == Outstanding(procs[j])
    ensures Sum(procs', OutstandingOf()) == Sum(procs, OutstandingOf())
  {
    if procs != [] {
      OfferKeepsSum(procs[..|procs| - 1], procs'[..|procs| - 1]);
    }
  }

  lemma BroadcastWorks(s: Sys)
    requires s.bus != []
    ensures Work(Broadcast(s)) < Work(s)
  {
    OfferKeepsSum(s.procs, Broadcast(s).procs);
  }

  /** Work left means something can be done about it. */
  lemma NextAction(s: Sys) returns (a: Action)
    requires AtRest(s) && !Finished(s)
    ensures !a.Arrive? && CanAct(s, a) && Work(Try(s, a)) < Work(s)
  {
    if s.bus != [] {
      a := Transmit;
      BroadcastWorks(s);
    } else {
      var i :| 0 <= i < |s.procs| && s.procs[i].traces != [];
      a := Turn(i);
      RoundWorks(s, i);
    }
  }

  /** Rounds and broadcasts alone, at most twice the waiting traces plus the bus queue of
      them, finish everything that has arrived. */
  lemma {:induction false} FinishFrom(s: Sys) returns (acts: seq<Action>)
    requires AtRest(s)
    ensures (forall a | a in acts :: !a.Arrive?) && |acts| <= Work(s)
    ensures Finished(Carry(s, acts))
    decreases Work(s)
  {
    if Finished(s) {
      acts := [];
    } else {
      var a := NextAction(s);
      TryRests(s, a);
      var rest := FinishFrom(Try(s, a));
      acts := [a] + rest;
      CarrySnoc(s, [], a);
      assert [] + [a] == [a];
      CarryAppend(s, [a], rest);
    }
  }

  /** Every schedule from the start can be carried on to the end by rounds and broadcasts. */
  lemma EveryScheduleFinishes(n: nat, cap: nat, acts: seq<Action>) returns (more: seq<Action>)
    requires 1 <= cap
    ensures (forall a | a in more :: !a.Arrive?) && |more| <= Work(Carry(Init(n, cap), acts))
    ensures Finished(Carry(Init(n, cap), acts + more))
  {
    CarryRests(Init(n, cap), acts);
    more := FinishFrom(Carry(Init(n, cap), acts));
    CarryAppend(Init(n, cap), acts, more);
  }
}
