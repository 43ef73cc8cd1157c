/** Coherence over every run: one writer or many readers, and ownership in bus order. */
module Coherence {
  import opened Msi
  import opened Protocol
  import opened Machine

  // ---- Single writer, multiple readers ----

  ghost predicate SingleWriter(s: Sys, x: nat) {
    forall i, j :: 0 <= i < |s.procs| && 0 <= j < |s.procs| && i != j && Effective(s, i, x) == M ==>
      Effective(s, j, x) == I
  }

  /** The effective states of one line, processor by processor. */
  function View(s: Sys, x: nat): (v: seq<State>)
    ensures |v| == |s.procs| && forall i :: 0 <= i < |v| ==> v[i] == Effective(s, i, x)
  {
    seq(|s.procs|, i requires 0 <= i < |s.procs| => Effective(s, i, x))
  }

  /** How a commit by `i` moves the effective states of one line, given the
      transaction it queued for that line, if any. */
  ghost predicate CommitMoves(s: Sys, s': Sys, i: nat, x: nat, req: Option<BusTsn>) {
    && |s'.procs| == |s.procs| && i < |s.procs|
    && (forall j :: 0 <= j < |s.procs| && j != i ==>
          Effective(s', j, x) == if req.Some? then SnoopTable(Effective(s, j, x), req.value)
                                 else Effective(s, j, x))
    && (req == None ==> Effective(s', i, x) == Effective(s, i, x) || Effective(s', i, x) == I)
    && (req == Some(BusRd) ==> Effective(s', i, x) != M)
  }

  /** The transaction that processor `i`'s commit queues for line `x`, if any. */
  function RequestFor(s: Sys, i: nat, x: nat): Option<BusTsn>
    requires CapsOk(s) && Enabled(s, CommitStep(i))
  {
    var issued := CommitOf(s, i).1;
    if issued.Some? && issued.value.tag == x then Some(issued.value.tsn) else None
  }

  lemma CommitMovesOther(s: Sys, i: nat, x: nat, j: nat)
    requires SysWf(s) && CapsOk(s) && Enabled(s, CommitStep(i)) && x != 0 && j < |s.procs| && j != i
    ensures var req := RequestFor(s, i, x);
            Effective(Next(s, CommitStep(i)), j, x) ==
            if req.Some? then SnoopTable(Effective(s, j, x), req.value) else Effective(s, j, x)
  {
    CommitAtOther(s, i, j, x);
  }

  lemma CommitMovesSelf(s: Sys, i: nat, x: nat)
    requires SysWf(s) && CapsOk(s) && Enabled(s, CommitStep(i)) && IsLine(x)
    ensures var st, st', req := Effective(s, i, x), Effective(Next(s, CommitStep(i)), i, x), RequestFor(s, i, x);
            (req == None ==> st' == st || st' == I) && (req == Some(BusRd) ==> st' != M)
  {
    var t := s.procs[i].phase.t;
    CommitEffect(s.procs[i].core, i, OpOf(t), t.addr, t.cnt);
    CommitAtSelf(s, i, x);
    FoldInvalid(x, Pending(s, i));
    FoldLowers(x, S, Pending(s, i));
  }

  lemma CommitMovesLine(s: Sys, i: nat, x: nat) returns (req: Option<BusTsn>)
    requires SysWf(s) && CapsOk(s) && Enabled(s, CommitStep(i)) && IsLine(x) && x != 0
    ensures CommitMoves(s, Next(s, CommitStep(i)), i, x, req) && req == RequestFor(s, i, x)
  {
    req := RequestFor(s, i, x);
    CommitMovesSelf(s, i, x);
    var s' := Next(s, CommitStep(i));
    forall j | 0 <= j < |s.procs| && j != i
      ensures Effective(s', j, x) == if req.Some? then SnoopTable(Effective(s, j, x), req.value)
                                     else Effective(s, j, x)
    {
      CommitMovesOther(s, i, x, j);
    }
  }

  lemma ExclusiveAfter(v: seq<State>, v': seq<State>, i: nat, req: Option<BusTsn>)
    requires |v'| == |v| && i < |v|
    requires forall j, k :: 0 <= j < |v| && 0 <= k < |v| && j != k && v[j] == M ==> v[k] == I
    requires forall j :: 0 <= j < |v| && j != i ==> v'[j] == if req.Some? then SnoopTable(v[j], req.value) else v[j]
    requires (req == None ==> v'[i] == v[i] || v'[i] == I) && (req == Some(BusRd) ==> v'[i] != M)
    ensures forall j, k :: 0 <= j < |v| && 0 <= k < |v| && j != k && v'[j] == M ==> v'[k] == I
  {
  }

  lemma MovesKeepSingleWriter(s: Sys, s': Sys, i: nat, x: nat, req: Option<BusTsn>)
    requires CommitMoves(s, s', i, x, req) && SingleWriter(s, x)
    ensures SingleWriter(s', x)
  {
    var v, v' := View(s, x), View(s', x);
    ExclusiveAfter(v, v', i, req);
    assert forall j :: 0 <= j < |v'| ==> v'[j] == Effective(s', j, x);
  }

  lemma SingleWriterStep(s: Sys, step: Step, x: nat)
    requires SysWf(s) && CapsOk(s) && Enabled(s, step)
    requires IsLine(x) && x != 0 && SingleWriter(s, x)
    ensures SingleWriter(Next(s, step), x)
  {
    if step.CommitStep? {
      var req := CommitMovesLine(s, step.i, x);
      MovesKeepSingleWriter(s, Next(s, step), step.i, x, req);
    } else {
      forall j | 0 <= j < |s.procs| ensures Effective(Next(s, step), j, x) == Effective(s, j, x) {
        QuietStep(s, step, j, x);
      }
    }
  }

  lemma {:induction false} SingleWriterExec(s: Sys, steps: seq<Step>, x: nat)
    requires SysWf(s) && CapsOk(s) && Exec(s, steps).Some?
    requires IsLine(x) && x != 0 && SingleWriter(s, x)
    ensures SingleWriter(Exec(s, steps).value, x)
  {
    if steps != [] {
      var before := steps[..|steps| - 1];
      SingleWriterExec(s, before, x);
      ExecWf(s, before);
      SingleWriterStep(Exec(s, before).value, steps[|steps| - 1], x);
    }
  }

  lemma ReachableWf(n: nat, cap: nat, s: Sys)
    requires Reachable(n, cap, s)
    ensures SysWf(s) && CapsOk(s) && |s.procs| == n
  {
    var steps :| Exec(Init(n, cap), steps) == Some(s);
    ExecWf(Init(n, cap), steps);
  }

  /** In every reachable state, a line that is effectively modified at one processor
      is effectively invalid at all others. */
  lemma SingleWriterAlways(n: nat, cap: nat, s: Sys, x: nat)
    requires Reachable(n, cap, s) && IsLine(x) && x != 0
    ensures SingleWriter(s, x)
  {
    var steps :| Exec(Init(n, cap), steps) == Some(s);
    SingleWriterExec(Init(n, cap), steps, x);
  }

  // ---- From effective to actual states ----

  /** Nothing pending gets in the way of an access: of a write nothing at all on the
      line, of a read no exclusive request. */
  ghost predicate Undisturbed(rs: seq<BusTransaction>, x: nat, op: PrTsn) {
    forall r | r in rs && r.tag == x :: op == PrRd && r.tsn == BusRd
  }

  lemma {:induction false} FoldModified(x: nat, rs: seq<BusTransaction>)
    requires x != 0
    ensures FoldLine(x, M, rs) == M <==> Undisturbed(rs, x, PrWr)
    ensures FoldLine(x, M, rs) != I <==> Undisturbed(rs, x, PrRd)
  {
    if rs != [] {
      var rest := rs[1..];
      assert forall r :: r in rs <==> r == rs[0] || r in rest;
      FoldModified(x, rest);
      FoldShared(x, rest);
      FoldInvalid(x, rest);
      FoldLowers(x, S, rest);
    }
  }

  lemma {:induction false} FoldShared(x: nat, rs: seq<BusTransaction>)
    requires x != 0
    ensures FoldLine(x, S, rs) == if Undisturbed(rs, x, PrRd) then S else I
  {
    if rs != [] {
      var rest := rs[1..];
      assert forall r :: r in rs <==> r == rs[0] || r in rest;
      FoldShared(x, rest);
      FoldInvalid(x, rest);
    }
  }

  /** Where nothing on the line is on its way to the owner, and no exclusive request on
      it to another processor, the actual states of the two are exclusive. */
  lemma UndisturbedSingleWriter(n: nat, cap: nat, s: Sys, x: nat, i: nat, j: nat)
    requires Reachable(n, cap, s) && IsLine(x) && x != 0
    requires i < |s.procs| && j < |s.procs| && i != j
    requires Undisturbed(Pending(s, i), x, PrWr) && Undisturbed(Pending(s, j), x, PrRd)
    ensures Local(s.procs[i].core, x) == M ==> Local(s.procs[j].core, x) == I
  {
    SingleWriterAlways(n, cap, s, x);
    FoldModified(x, Pending(s, i));
    FoldModified(x, Pending(s, j));
    FoldShared(x, Pending(s, j));
    assert Effective(s, i, x) == M ==> Effective(s, j, x) == I;
  }

  /** In particular where nothing about the line is pending at either. */
  lemma SettledSingleWriter(n: nat, cap: nat, s: Sys, x: nat, i: nat, j: nat)
    requires Reachable(n, cap, s) && IsLine(x) && x != 0
    requires i < |s.procs| && j < |s.procs| && i != j
    requires Undisturbed(Pending(s, i), x, PrWr) && Undisturbed(Pending(s, j), x, PrWr)
    ensures Local(s.procs[i].core, x) == M ==> Local(s.procs[j].core, x) == I
  {
    UndisturbedSingleWriter(n, cap, s, x, i, j);
  }

  /** Applying all that is pending makes the effective states actual, so the drained
      caches are exclusive. */
  lemma DrainedSingleWriter(n: nat, cap: nat, s: Sys, x: nat, i: nat, j: nat)
    requires Reachable(n, cap, s) && IsLine(x) && x != 0
    requires i < |s.procs| && j < |s.procs| && i != j
    requires 1 <= s.procs[i].core.cache.cap && 1 <= s.procs[j].core.cache.cap
    ensures Local(Drain(s.procs[i].core, Pending(s, i)), x) == M ==>
            Local(Drain(s.procs[j].core, Pending(s, j)), x) == I
  {
    ReachableWf(n, cap, s);
    SingleWriterAlways(n, cap, s, x);
    PendingAligned(s, i);
    PendingAligned(s, j);
    DrainEffect(s.procs[i].core, Pending(s, i), x);
    DrainEffect(s.procs[j].core, Pending(s, j), x);
    assert Effective(s, i, x) == M ==> Effective(s, j, x) == I;
  }

  lemma {:induction false} OthersFrom(rs: seq<BusTransaction>, i: nat)
    ensures forall r :: r in Others(rs, i) ==> r in rs && r.tid != i
  {
    if rs != [] {
      OthersFrom(rs[..|rs| - 1], i);
    }
  }

  lemma PendingAligned(s: Sys, i: nat)
    requires SysWf(s) && i < |s.procs|
    ensures Aligned(Pending(s, i))
  {
    OthersFrom(s.bus, i);
  }

  // ---- Ownership follows bus order ----

  /** The last transaction ever queued for line `x`. */
  function LastFor(log: seq<BusTransaction>, x: nat): Option<BusTransaction> {
    if log == [] then None
    else if log[|log| - 1].tag == x then Some(log[|log| - 1])
    else LastFor(log[..|log| - 1], x)
  }

  /** At `p` processor `i` queued a transaction on `x`, and since then nobody else
      has asked for exclusive access. */
  ghost predicate HoldsSince(log: seq<BusTransaction>, i: nat, x: nat, p: nat) {
    && p < |log| && log[p].tag == x && log[p].tid == i
    && (forall q :: p < q < |log| && log[q].tag == x && log[q].tsn == BusRdX ==> log[q].tid == i)
  }

  /** What the bus log must say of a processor whose effective state is `st`. */
  ghost predicate Entitled(log: seq<BusTransaction>, i: nat, x: nat, st: State) {
    && (st == M ==> LastFor(log, x).Some? && LastFor(log, x).value.tid == i && LastFor(log, x).value.tsn == BusRdX)
    && (st != I ==> exists p :: HoldsSince(log, i, x, p))
  }

  ghost predicate Ownership(s: Sys, x: nat) {
    forall i :: 0 <= i < |s.procs| ==> Entitled(s.log, i, x, Effective(s, i, x))
  }

  /** Queueing a transaction entitles its sender. */
  lemma EntitledSender(log: seq<BusTransaction>, r: BusTransaction, st: State)
    requires r.tsn == BusRd ==> st != M
    ensures Entitled(log + [r], r.tid, r.tag, st)
  {
    assert HoldsSince(log + [r], r.tid, r.tag, |log|);
  }

  /** It keeps the entitlement of those it does not invalidate. */
  lemma EntitledBystander(log: seq<BusTransaction>, r: BusTransaction, i: nat, x: nat, st: State, st': State)
    requires Entitled(log, i, x, st)
    requires st' == I || st' == if r.tag == x then SnoopTable(st, r.tsn) else st
    requires r.tag == x ==> r.tid != i
    ensures Entitled(log + [r], i, x, st')
  {
    if st' != I {
      var p :| HoldsSince(log, i, x, p);
      assert HoldsSince(log + [r], i, x, p);
    }
  }

  lemma OwnershipCommit(s: Sys, i: nat, x: nat, j: nat)
    requires SysWf(s) && CapsOk(s) && Enabled(s, CommitStep(i)) && j < |s.procs|
    requires IsLine(x) && x != 0 && Ownership(s, x)
    ensures var s' := Next(s, CommitStep(i)); Entitled(s'.log, j, x, Effective(s', j, x))
  {
    var s', issued := Next(s, CommitStep(i)), CommitOf(s, i).1;
    var _ := CommitMovesLine(s, i, x);
    assert Entitled(s.log, j, x, Effective(s, j, x));
    if issued.Some? {
      if issued.value.tag == x && j == i {
        EntitledSender(s.log, issued.value, Effective(s', i, x));
      } else {
        EntitledBystander(s.log, issued.value, j, x, Effective(s, j, x), Effective(s', j, x));
      }
    } else {
      assert s'.log == s.log;
    }
  }

  lemma OwnershipStep(s: Sys, step: Step, x: nat)
    requires SysWf(s) && CapsOk(s) && Enabled(s, step)
    requires IsLine(x) && x != 0 && Ownership(s, x)
    ensures Ownership(Next(s, step), x)
  {
    forall j | 0 <= j < |s.procs| ensures Entitled(Next(s, step).log, j, x, Effective(Next(s, step), j, x)) {
      if step.CommitStep? {
        OwnershipCommit(s, step.i, x, j);
      } else {
        QuietStep(s, step, j, x);
      }
    }
  }

  lemma {:induction false} OwnershipExec(s: Sys, steps: seq<Step>, x: nat)
    requires SysWf(s) && CapsOk(s) && Exec(s, steps).Some?
    requires IsLine(x) && x != 0 && Ownership(s, x)
    ensures Ownership(Exec(s, steps).value, x)
  {
    if steps != [] {
      var before := steps[..|steps| - 1];
      OwnershipExec(s, before, x);
      ExecWf(s, before);
      OwnershipStep(Exec(s, before).value, steps[|steps| - 1], x);
    }
  }

  /** In every reachable state an effective owner is the last to have queued a
      transaction on the line, and an effective sharer has queued one that no
      exclusive request of another processor has followed. */
  lemma OwnershipAlways(n: nat, cap: nat, s: Sys, x: nat)
    requires Reachable(n, cap, s) && IsLine(x) && x != 0
    ensures Ownership(s, x)
  {
    var steps :| Exec(Init(n, cap), steps) == Some(s);
    OwnershipExec(Init(n, cap), steps, x);
  }
}
