/** The balances over whole histories, and what they say of every reachable state. */
module Accounts {
  import opened Msi
  import opened Lru
  import opened Protocol
  import opened Machine
  import opened Ledger

  function AfterEvent(p: Core, tid: nat, e: Event): (p': Core)
    requires 1 <= p.cache.cap
    ensures p'.cache.cap == p.cache.cap
  {
    if e.Snooped? then Snoop(p, e.r) else Commit(p, tid, e.op, e.addr, e.cnt).0
  }

  /** The core after a history. */
  function Replay(cap: nat, tid: nat, es: seq<Event>): (p: Core)
    requires 1 <= cap
    ensures p.cache.cap == cap
  {
    if es == [] then InitCore(cap)
    else AfterEvent(Replay(cap, tid, es[..|es| - 1]), tid, es[|es| - 1])
  }

  /** What happened along the way, apart from what the statistics record. */
  datatype Tally = Tally(accesses: nat, busRd: nat, busRdX: nat, upgrades: nat,
                         invalidations: nat, lostModified: nat, lostInvalid: nat)

  function AddEvent(t: Tally, p: Core, e: Event): Tally
    requires 1 <= p.cache.cap
  {
    match e
    case Snooped(r) => t.(invalidations := t.invalidations + Bit(Invalidates(p, r)))
    case Accessed(op, addr, cnt) =>
      var st := Local(p, Convert(addr));
      t.(accesses := t.accesses + 1,
         busRd := t.busRd + Bit(Request(st, op) == Some(BusRd)),
         busRdX := t.busRdX + Bit(Request(st, op) == Some(BusRdX)),
         upgrades := t.upgrades + Bit(st == S && op == PrWr),
         lostModified := t.lostModified + Lost(p, op, addr, cnt, M),
         lostInvalid := t.lostInvalid + Lost(p, op, addr, cnt, I))
  }

  function TallyOf(cap: nat, tid: nat, es: seq<Event>): Tally
    requires 1 <= cap
  {
    if es == [] then Tally(0, 0, 0, 0, 0, 0, 0)
    else
      var before := es[..|es| - 1];
      AddEvent(TallyOf(cap, tid, before), Replay(cap, tid, before), es[|es| - 1])
  }

  /** Snooped tags are lines, as they are on the bus. */
  ghost predicate TagsAligned(es: seq<Event>) {
    forall e | e in es && e.Snooped? :: IsLine(e.r.tag)
  }

  ghost predicate AllRoomy(cap: nat, es: seq<Event>) {
    forall e | e in es && e.Accessed? :: Roomy(cap, e.op, e.addr)
  }

  ghost predicate WritesAligned(es: seq<Event>) {
    forall e | e in es && e.Accessed? && e.op == PrWr :: IsLine(e.addr)
  }

  /** The null line is skipped by every snoop, so once resident it stays valid. */
  ghost predicate NullLineValid(p: Core) {
    Has(p.cache.entries, 0) ==> Local(p, 0) != I
  }

  lemma {:induction false} ReplayWf(cap: nat, tid: nat, es: seq<Event>)
    requires 1 <= cap && TagsAligned(es)
    ensures CoreWf(Replay(cap, tid, es)) && NullLineValid(Replay(cap, tid, es))
  {
    if es != [] {
      var before, e := es[..|es| - 1], es[|es| - 1];
      var p := Replay(cap, tid, before);
      ReplayWf(cap, tid, before);
      match e {
        case Snooped(r) =>
          SnoopKeepsWf(p, r);
          SnoopEffect(p, r, 0);
        case Accessed(op, addr, cnt) =>
          CommitEffect(p, tid, op, addr, cnt);
          if Convert(addr) != 0 {
            CommitNullLine(p, tid, op, addr, cnt);
          }
      }
    }
  }

  lemma CommitNullLine(p: Core, tid: nat, op: PrTsn, addr: nat, cnt: int)
    requires CoreWf(p) && NullLineValid(p) && Convert(addr) != 0
    ensures NullLineValid(Commit(p, tid, op, addr, cnt).0)
  {
    var l, x := Look(p, op, addr, cnt), Convert(addr);
    LookEffect(p, op, addr, cnt);
    LookOthers(p, op, addr, cnt, 0);
    PutFind(l.core.cache, x, l.line.(state := Upgrade(l.line.state, op)), 0);
  }

  // ---- Modified lines ----

  ghost predicate ModifiedBalance(p: Core, t: Tally) {
    t.busRdX == p.flushes + t.lostModified + Count(p.cache.entries, M)
  }

  lemma ModifiedAccess(p: Core, t: Tally, tid: nat, op: PrTsn, addr: nat, cnt: int)
    requires CoreWf(p) && Roomy(p.cache.cap, op, addr) && ModifiedBalance(p, t)
    ensures ModifiedBalance(Commit(p, tid, op, addr, cnt).0, AddEvent(t, p, Accessed(op, addr, cnt)))
  {
    CommitCount(p, tid, op, addr, cnt, M);
    CommitStats(p, tid, op, addr, cnt);
  }

  /** Every exclusive request a processor has issued is accounted for: its line was
      flushed, was silently evicted while modified, or is resident and modified. */
  lemma {:induction false} ModifiedLinesBalance(cap: nat, tid: nat, es: seq<Event>)
    requires 1 <= cap && TagsAligned(es) && AllRoomy(cap, es)
    ensures ModifiedBalance(Replay(cap, tid, es), TallyOf(cap, tid, es))
  {
    if es != [] {
      var before, e := es[..|es| - 1], es[|es| - 1];
      var p, t := Replay(cap, tid, before), TallyOf(cap, tid, before);
      ModifiedLinesBalance(cap, tid, before);
      ReplayWf(cap, tid, before);
      match e {
        case Snooped(r) => SnoopCount(p, r, M);
        case Accessed(op, addr, cnt) => ModifiedAccess(p, t, tid, op, addr, cnt);
      }
    }
  }

  // ---- Invalidations ----

  ghost predicate InvalidBalance(p: Core, t: Tally) {
    t.invalidations == p.coherenceMisses + t.lostInvalid + Count(p.cache.entries, I)
  }

  lemma InvalidAccess(p: Core, t: Tally, tid: nat, op: PrTsn, addr: nat, cnt: int)
    requires CoreWf(p) && NullLineValid(p) && Roomy(p.cache.cap, op, addr) && InvalidBalance(p, t)
    ensures InvalidBalance(Commit(p, tid, op, addr, cnt).0, AddEvent(t, p, Accessed(op, addr, cnt)))
  {
    CommitCount(p, tid, op, addr, cnt, I);
    CommitStats(p, tid, op, addr, cnt);
  }

  /** Every invalidation by a remote write is accounted for: it led to a coherence
      miss, its line was evicted, or it is still resident and invalid. So there are
      never more coherence misses than remote invalidations. */
  lemma {:induction false} InvalidationsBalance(cap: nat, tid: nat, es: seq<Event>)
    requires 1 <= cap && TagsAligned(es) && AllRoomy(cap, es)
    ensures InvalidBalance(Replay(cap, tid, es), TallyOf(cap, tid, es))
  {
    if es != [] {
      var before, e := es[..|es| - 1], es[|es| - 1];
      var p, t := Replay(cap, tid, before), TallyOf(cap, tid, before);
      InvalidationsBalance(cap, tid, before);
      ReplayWf(cap, tid, before);
      match e {
        case Snooped(r) => SnoopCount(p, r, I);
        case Accessed(op, addr, cnt) => InvalidAccess(p, t, tid, op, addr, cnt);
      }
    }
  }

  // ---- Misses and bus traffic ----

  function Misses(p: Core): nat {
    p.cache.coldMisses + p.cache.capacityMisses + p.coherenceMisses
  }

  /** A write to an unaligned address that has no entry of its own when the raw store
      is made: it had none, or the creating lookup of its line throws it out. */
  predicate RawMiss(c: Cache, op: PrTsn, addr: nat) {
    && op == PrWr && !IsLine(addr)
    && (Has(c.entries, addr) ==> Victim(c, Convert(addr)).Some? && Victim(c, Convert(addr)).value.key == addr)
  }

  lemma RawMissAtStore(p: Core, addr: nat)
    requires CoreWf(p) && !IsLine(addr)
    ensures RawMiss(p.cache, PrWr, addr) <==> !Has(Found(p, addr).entries, addr)
  {
    var x := Convert(addr);
    var c1 := Get(p.cache, x, false).0;
    ConvertIsIdentityOnLines(addr);
    GetWf(p.cache, x, false);
    GetFind(p.cache, x, false, addr);
    GetFind(p.cache, x, false, x);
    GetFind(c1, x, true, addr);
  }

  /** The misses of one access, whatever its address: the line itself, plus the entry
      a write stores under an unaligned address, plus the line again when a cache of
      one entry has just thrown it out. */
  lemma MissesOfAccess(p: Core, tid: nat, op: PrTsn, addr: nat, cnt: int)
    requires CoreWf(p) && NullLineValid(p)
    ensures var raw := RawMiss(p.cache, op, addr);
            Misses(Commit(p, tid, op, addr, cnt).0) ==
            Misses(p) + Bit(Local(p, Convert(addr)) == I) + Bit(raw) + Bit(raw && p.cache.cap == 1)
  {
    FoundFacts(p, addr);
    FoundCount(p, addr, I);
    CommitStats(p, tid, op, addr, cnt);
    LookEffect(p, op, addr, cnt);
    ConvertIsIdentityOnLines(addr);
    if op == PrWr {
      StoreMisses(Found(p, addr), addr, Look(p, op, addr, cnt).line);
      if !IsLine(addr) {
        RawMissAtStore(p, addr);
      }
    }
  }

  /** The raw store misses when its key is absent, and then throws out the line at the
      front exactly when the cache has one entry. */
  lemma StoreMisses(c: Cache, addr: nat, line: Cacheline)
    requires Wf(c) && c.entries != [] && c.entries[0].key == Convert(addr)
    ensures var c', x := Put(c, addr, line), Convert(addr);
            && c'.coldMisses + c'.capacityMisses ==
               c.coldMisses + c.capacityMisses + Bit(!Has(c.entries, addr))
            && (Has(c'.entries, x) <==> Has(c.entries, addr) || c.cap != 1)
  {
    var x := Convert(addr);
    PutFind(c, addr, line, x);
    if Victim(c, addr).Some? {
      assert c.entries[|c.entries| - 1].key == x <==> c.cap == 1;
    }
  }

  /** An access counts at most one miss unless it stores a raw entry while its line is
      invalid or while the cache has no room for both. */
  lemma AtMostOneMissIff(p: Core, tid: nat, op: PrTsn, addr: nat, cnt: int)
    requires CoreWf(p) && NullLineValid(p)
    ensures Misses(Commit(p, tid, op, addr, cnt).0) <= Misses(p) + 1 <==>
            !RawMiss(p.cache, op, addr) || (Local(p, Convert(addr)) != I && 2 <= p.cache.cap)
  {
    MissesOfAccess(p, tid, op, addr, cnt);
  }

  ghost predicate TrafficBalance(p: Core, t: Tally) {
    Misses(p) <= t.accesses && t.busRd + t.busRdX == Misses(p) + t.upgrades
  }

  /** With line-aligned write addresses no access counts as two misses, misses never
      exceed accesses, and bus transactions are the misses plus the S-to-M upgrades. */
  lemma {:induction false} TrafficBalances(cap: nat, tid: nat, es: seq<Event>)
    requires 1 <= cap && TagsAligned(es) && WritesAligned(es)
    ensures TrafficBalance(Replay(cap, tid, es), TallyOf(cap, tid, es))
  {
    if es != [] {
      var before, e := es[..|es| - 1], es[|es| - 1];
      var p := Replay(cap, tid, before);
      TrafficBalances(cap, tid, before);
      ReplayWf(cap, tid, before);
      match e {
        case Snooped(r) => SnoopCount(p, r, I);
        case Accessed(op, addr, cnt) => MissesOfAccess(p, tid, op, addr, cnt);
      }
    }
  }

  // ---- The histories of reachable states ----

  /** How many transactions of one kind `i` has queued. */
  function SentBy(log: seq<BusTransaction>, i: nat, tsn: BusTsn): nat {
    if log == [] then 0
    else SentBy(log[..|log| - 1], i, tsn) + Bit(log[|log| - 1].tid == i && log[|log| - 1].tsn == tsn)
  }

  /** A processor's core is what its history makes of an empty one, and the log holds
      the transactions the history calls for. */
  ghost predicate Explained(cap: nat, i: nat, p: Proc, log: seq<BusTransaction>) {
    && 1 <= cap && TagsAligned(p.history)
    && p.core == Replay(cap, i, p.history)
    && SentBy(log, i, BusRd) == TallyOf(cap, i, p.history).busRd
    && SentBy(log, i, BusRdX) == TallyOf(cap, i, p.history).busRdX
  }

  lemma ReplaySnoc(cap: nat, tid: nat, es: seq<Event>, e: Event)
    requires 1 <= cap
    ensures Replay(cap, tid, es + [e]) == AfterEvent(Replay(cap, tid, es), tid, e)
    ensures TallyOf(cap, tid, es + [e]) == AddEvent(TallyOf(cap, tid, es), Replay(cap, tid, es), e)
  {
  }

  lemma ExplainedSnoop(cap: nat, i: nat, p: Proc, r: BusTransaction, log: seq<BusTransaction>)
    requires Explained(cap, i, p, log) && IsLine(r.tag)
    ensures Explained(cap, i, p.(core := Snoop(p.core, r), history := p.history + [Snooped(r)]), log)
  {
  }

  lemma ExplainedAccess(cap: nat, i: nat, p: Proc, op: PrTsn, addr: nat, cnt: int, log: seq<BusTransaction>)
    requires Explained(cap, i, p, log)
    ensures var (core, issued) := Commit(p.core, i, op, addr, cnt);
            var p' := p.(core := core, history := p.history + [Accessed(op, addr, cnt)]);
            Explained(cap, i, p', log + if issued.Some? then [issued.value] else [])
  {
    var issued := Commit(p.core, i, op, addr, cnt).1;
    ReplayWf(cap, i, p.history);
    CommitEffect(p.core, i, op, addr, cnt);
    ReplaySnoc(cap, i, p.history, Accessed(op, addr, cnt));
    if issued.None? {
      assert log + [] == log;
    }
  }

  lemma ExplainedCommit(cap: nat, s: Sys, i: nat, j: nat)
    requires CapsOk(s) && Enabled(s, CommitStep(i)) && j < |s.procs|
    requires Explained(cap, j, s.procs[j], s.log)
    ensures Explained(cap, j, Next(s, CommitStep(i)).procs[j], Next(s, CommitStep(i)).log)
  {
    var t, s', issued := s.procs[i].phase.t, Next(s, CommitStep(i)), CommitOf(s, i).1;
    if i == j {
      ExplainedAccess(cap, j, s.procs[j], OpOf(t), t.addr, t.cnt, s.log);
    } else if issued.None? {
      assert s'.log == s.log;
    }
  }

  lemma ExplainedStep(cap: nat, s: Sys, step: Step, j: nat)
    requires SysWf(s) && CapsOk(s) && Enabled(s, step) && j < |s.procs|
    requires Explained(cap, j, s.procs[j], s.log)
    ensures Explained(cap, j, Next(s, step).procs[j], Next(s, step).log)
  {
    if step.CommitStep? {
      ExplainedCommit(cap, s, step.i, j);
    } else if step == SnoopOne(j) {
      var p := s.procs[j];
      ExplainedSnoop(cap, j, p, p.requests[0], s.log);
    } else {
      assert Next(s, step).log == s.log;
      assert Next(s, step).procs[j].core == s.procs[j].core;
      assert Next(s, step).procs[j].history == s.procs[j].history;
    }
  }

  lemma {:induction false} ExplainedExec(cap: nat, s: Sys, steps: seq<Step>, j: nat)
    requires SysWf(s) && CapsOk(s) && Exec(s, steps).Some? && j < |s.procs|
    requires Explained(cap, j, s.procs[j], s.log)
    ensures Explained(cap, j, Exec(s, steps).value.procs[j], Exec(s, steps).value.log)
  {
    if steps != [] {
      var before := steps[..|steps| - 1];
      ExplainedExec(cap, s, before, j);
      ExecWf(s, before);
      ExplainedStep(cap, Exec(s, before).value, steps[|steps| - 1], j);
    }
  }

  lemma HistoriesExplain(n: nat, cap: nat, s: Sys, i: nat)
    requires Reachable(n, cap, s) && i < |s.procs|
    ensures Explained(cap, i, s.procs[i], s.log)
  {
    var steps :| Exec(Init(n, cap), steps) == Some(s);
    ExplainedExec(cap, Init(n, cap), steps, i);
  }

  /** Exclusive requests on the bus = flushes + modified lines lost + modified lines held. */
  ghost predicate ModifiedAt(cap: nat, s: Sys, i: nat)
    requires 1 <= cap && i < |s.procs|
  {
    var p, t := s.procs[i].core, TallyOf(cap, i, s.procs[i].history);
    SentBy(s.log, i, BusRdX) == p.flushes + t.lostModified + Count(p.cache.entries, M)
  }

  /** Invalidations suffered = coherence misses + invalid lines lost + invalid lines held. */
  ghost predicate InvalidAt(cap: nat, s: Sys, i: nat)
    requires 1 <= cap && i < |s.procs|
  {
    var p, t := s.procs[i].core, TallyOf(cap, i, s.procs[i].history);
    t.invalidations == p.coherenceMisses + t.lostInvalid + Count(p.cache.entries, I)
  }

  /** In every reachable state, for every processor with room for an unaligned write:
      modified lines and invalidations balance. */
  lemma ReachableBalances(n: nat, cap: nat, s: Sys, i: nat)
    requires Reachable(n, cap, s) && i < |s.procs| && AllRoomy(cap, s.procs[i].history)
    ensures ModifiedAt(cap, s, i) && InvalidAt(cap, s, i)
  {
    HistoriesExplain(n, cap, s, i);
    ModifiedLinesBalance(cap, i, s.procs[i].history);
    InvalidationsBalance(cap, i, s.procs[i].history);
  }

  /** Transactions on the bus = misses + upgrades. */
  ghost predicate TrafficAt(cap: nat, s: Sys, i: nat)
    requires 1 <= cap && i < |s.procs|
  {
    var p, t := s.procs[i].core, TallyOf(cap, i, s.procs[i].history);
    SentBy(s.log, i, BusRd) + SentBy(s.log, i, BusRdX) == Misses(p) + t.upgrades
  }

  /** In every reachable state, for every processor whose writes were line-aligned:
      transactions on the bus = misses + upgrades, and misses never exceed accesses. */
  lemma ReachableTraffic(n: nat, cap: nat, s: Sys, i: nat)
    requires Reachable(n, cap, s) && i < |s.procs| && WritesAligned(s.procs[i].history)
    ensures TrafficAt(cap, s, i) && Misses(s.procs[i].core) <= TallyOf(cap, i, s.procs[i].history).accesses
  {
    HistoriesExplain(n, cap, s, i);
    TrafficBalances(cap, i, s.procs[i].history);
  }

  // ---- The totals the program reports ----

  function TotalMisses(procs: seq<Proc>): nat {
    if procs == [] then 0 else TotalMisses(procs[..|procs| - 1]) + Misses(procs[|procs| - 1].core)
  }
}
