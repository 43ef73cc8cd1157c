/** The bus is a totally ordered broadcast: every transaction reaches every other
    processor exactly once, and all processors see them in the same order. */
module Broadcast {
  import opened Msi
  import opened Machine

  /** The transactions a processor has snooped, in order. */
  function Consumed(history: seq<Event>): seq<BusTransaction> {
    if history == [] then []
    else
      var before, e := Consumed(history[..|history| - 1]), history[|history| - 1];
      if e.Snooped? then before + [e.r] else before
  }

  /** Snooped, queued, in flight and still on the bus together make up the log
      without the processor's own entries. */
  ghost predicate Complete(s: Sys, i: nat)
    requires i < |s.procs|
  {
    Consumed(s.procs[i].history) + Pending(s, i) == Others(s.log, i)
  }

  /** What a commit by `i` adds to the transactions that others must see. */
  function Added(s: Sys, i: nat, j: nat): seq<BusTransaction>
    requires CapsOk(s) && Enabled(s, CommitStep(i))
  {
    var issued := CommitOf(s, i).1;
    if j != i && issued.Some? then [issued.value] else []
  }

  lemma CommitGrowsLog(s: Sys, i: nat, j: nat)
    requires CapsOk(s) && Enabled(s, CommitStep(i))
    ensures Others(Next(s, CommitStep(i)).log, j) == Others(s.log, j) + Added(s, i, j)
  {
    var issued := CommitOf(s, i).1;
    OthersAppend(s.log, if issued.Some? then [issued.value] else [], j);
    if issued.Some? {
      OthersOne(issued.value, j);
    }
  }

  lemma CommitConsumesNothing(s: Sys, i: nat, j: nat)
    requires CapsOk(s) && Enabled(s, CommitStep(i)) && j < |s.procs|
    ensures Consumed(Next(s, CommitStep(i)).procs[j].history) == Consumed(s.procs[j].history)
  {
  }

  lemma CompleteCommit(s: Sys, i: nat, j: nat)
    requires CapsOk(s) && Enabled(s, CommitStep(i)) && j < |s.procs| && Complete(s, j)
    ensures Complete(Next(s, CommitStep(i)), j)
  {
    CommitPending(s, i, j);
    CommitGrowsLog(s, i, j);
    CommitConsumesNothing(s, i, j);
  }

  lemma CompleteSnoop(s: Sys, i: nat)
    requires CapsOk(s) && Enabled(s, SnoopOne(i)) && Complete(s, i)
    ensures Complete(Next(s, SnoopOne(i)), i)
  {
  }

  lemma CompleteStep(s: Sys, step: Step, j: nat)
    requires CapsOk(s) && Enabled(s, step) && j < |s.procs| && Complete(s, j)
    ensures Complete(Next(s, step), j)
  {
    if step.CommitStep? {
      CompleteCommit(s, step.i, j);
    } else if step == SnoopOne(j) {
      CompleteSnoop(s, j);
    } else if step.Pop? || step.Deliver? || step.Finish? {
      BusStepPending(s, step, j);
    } else {
      assert Pending(Next(s, step), j) == Pending(s, j);
    }
  }

  lemma {:induction false} CompleteExec(s: Sys, steps: seq<Step>, j: nat)
    requires CapsOk(s) && Exec(s, steps).Some? && j < |s.procs| && Complete(s, j)
    ensures Complete(Exec(s, steps).value, j)
  {
    if steps != [] {
      CompleteExec(s, steps[..|steps| - 1], j);
      CompleteStep(Exec(s, steps[..|steps| - 1]).value, steps[|steps| - 1], j);
    }
  }

  /** At all times, what a processor has snooped and what is on its way to it are
      exactly the other processors' transactions, in the order they were queued. */
  lemma BroadcastIsComplete(n: nat, cap: nat, s: Sys, i: nat)
    requires Reachable(n, cap, s) && i < |s.procs|
    ensures Complete(s, i)
  {
    var steps :| Exec(Init(n, cap), steps) == Some(s);
    CompleteExec(Init(n, cap), steps, i);
  }

  // ---- Agreement on the order ----

  /** What has arrived at a processor: snooped already, or waiting in its queue. */
  function Delivered(s: Sys, i: nat): seq<BusTransaction>
    requires i < |s.procs|
  {
    Consumed(s.procs[i].history) + s.procs[i].requests
  }

  lemma {:induction false} OthersCommute(rs: seq<BusTransaction>, i: nat, j: nat)
    ensures Others(Others(rs, i), j) == Others(Others(rs, j), i)
  {
    if rs != [] {
      var init, r := rs[..|rs| - 1], rs[|rs| - 1];
      OthersCommute(init, i, j);
      OthersAppend(Others(init, i), [r], j);
      OthersAppend(Others(init, j), [r], i);
      OthersOne(r, i);
      OthersOne(r, j);
    }
  }

  lemma OthersPrefix(a: seq<BusTransaction>, b: seq<BusTransaction>, i: nat)
    requires a <= b
    ensures Others(a, i) <= Others(b, i)
  {
    assert b == a + b[|a|..];
    OthersAppend(a, b[|a|..], i);
  }

  /** Any two processors have received third-party transactions in the same order:
      one has received a prefix of what the other has. */
  lemma ProcessorsAgreeOnOrder(n: nat, cap: nat, s: Sys, i: nat, j: nat)
    requires Reachable(n, cap, s) && i < |s.procs| && j < |s.procs|
    ensures var a, b := Others(Delivered(s, i), j), Others(Delivered(s, j), i);
            a <= b || b <= a
  {
    BroadcastIsComplete(n, cap, s, i);
    BroadcastIsComplete(n, cap, s, j);
    OthersPrefix(Delivered(s, i), Others(s.log, i), j);
    OthersPrefix(Delivered(s, j), Others(s.log, j), i);
    OthersCommute(s.log, i, j);
  }
}
