/** Where the balances stop: writes to addresses that are not line-aligned. Each limit is
    exact in the addresses that arrive, over every run of the machine. */
module Limits {
  import opened Msi
  import opened Lru
  import opened Protocol
  import opened Machine
  import opened Ledger
  import opened Accounts
  import opened ProgramOrder
  import opened Schedules

  // ---- A processor working alone ----

  ghost predicate AtRest(s: Sys, history: seq<Event>) {
    && s.sending.Free? && 1 <= |s.procs| && s.procs[0].phase.Idle? && s.procs[0].requests == []
    && s.procs[0].traces == [] && s.procs[0].history == history
  }

  lemma OneMoreAccess(s: Sys, t: Trace, history: seq<Event>) returns (s': Sys)
    requires CapsOk(s) && AtRest(s, history) && IsAccess(t)
    ensures Exec(s, [Enqueue(0, t)] + ServeSteps(0, 0)) == Some(s')
    ensures AtRest(s', history + [Accessed(OpOf(t), t.addr, t.cnt)])
  {
    var mid := Next(s, Enqueue(0, t));
    assert [] + [Enqueue(0, t)] == [Enqueue(0, t)];
    ExecSnoc(s, [], Enqueue(0, t));
    ServeIsRun(mid, 0);
    ExecAppend(s, [Enqueue(0, t)], ServeSteps(0, 0));
    s' := Serve(mid, 0);
    assert history + Snoops([]) == history;
  }

  lemma {:induction false} FedAppend(a: seq<Step>, b: seq<Step>)
    ensures Fed(a + b) == Fed(a) + Fed(b)
  {
    if b == [] {
      assert a + b == a;
    } else {
      assert (a + b)[..|a + b| - 1] == a + b[..|b| - 1];
      FedAppend(a, b[..|b| - 1]);
    }
  }

  /** The steps that read and serve one record. */
  function Alone(t: Trace): seq<Step> {
    [Enqueue(0, t), Take(0), SnoopDone(0), CommitStep(0)]
  }

  lemma AloneSteps(t: Trace)
    ensures [Enqueue(0, t)] + ServeSteps(0, 0) == Alone(t) && Fed(Alone(t)) == 1
  {
    FedAppend([Enqueue(0, t)], [Take(0), SnoopDone(0), CommitStep(0)]);
    FedAppend([Take(0)], [SnoopDone(0), CommitStep(0)]);
    FedAppend([SnoopDone(0)], [CommitStep(0)]);
    assert Alone(t) == [Enqueue(0, t)] + [Take(0), SnoopDone(0), CommitStep(0)];
    assert [Take(0), SnoopDone(0), CommitStep(0)] == [Take(0)] + [SnoopDone(0), CommitStep(0)];
  }

  /** Any accesses can be made by one processor while nothing else happens. */
  lemma {:induction false} PlayAlone(n: nat, cap: nat, ts: seq<Trace>) returns (steps: seq<Step>, s: Sys)
    requires 1 <= n && 1 <= cap && forall t | t in ts :: IsAccess(t)
    ensures Exec(Init(n, cap), steps) == Some(s) && AtRest(s, Accesses(ts)) && Fed(steps) == |ts|
    ensures forall step | step in steps && step.Enqueue? :: step.t in ts
  {
    if ts == [] {
      steps, s := [], Init(n, cap);
    } else {
      var before, t := ts[..|ts| - 1], ts[|ts| - 1];
      steps, s := PlayAlone(n, cap, before);
      var s' := OneMoreAccess(s, t, Accesses(before));
      AloneSteps(t);
      FedAppend(steps, Alone(t));
      ExecAppend(Init(n, cap), steps, Alone(t));
      steps, s := steps + Alone(t), s';
    }
  }

  /** The run in which one processor writes `a` so many times, and what its history is. */
  lemma WriteAlone(n: nat, cap: nat, a: nat, ts: seq<Trace>) returns (steps: seq<Step>, s: Sys)
    requires 1 <= n && 1 <= cap && forall t | t in ts :: t == Trace(a, 'W', 0)
    ensures Exec(Init(n, cap), steps) == Some(s) && |s.procs| == n && Fed(steps) == |ts| && WritesTo(steps, a)
    ensures s.procs[0].history == Accesses(ts) && Explained(cap, 0, s.procs[0], s.log)
  {
    steps, s := PlayAlone(n, cap, ts);
    HistoriesExplain(n, cap, s, 0);
  }

  // ---- Misses ----

  lemma AccessesOfOneWrite(a: nat)
    ensures Accesses([Trace(a, 'W', 0)]) == [Accessed(PrWr, a, 0)]
  {
    AccessesUncons([Trace(a, 'W', 0)]);
  }

  /** One write to an empty cache counts one miss exactly when its address is a line. */
  lemma OneWriteMissesOnceIff(cap: nat, tid: nat, addr: nat, cnt: int)
    requires 1 <= cap
    ensures Misses(Replay(cap, tid, [Accessed(PrWr, addr, cnt)])) <= 1 <==> IsLine(addr)
  {
    var e := Accessed(PrWr, addr, cnt);
    assert [] + [e] == [e];
    ReplaySnoc(cap, tid, [], e);
    ReplayWf(cap, tid, []);
    AtMostOneMissIff(InitCore(cap), tid, PrWr, addr, cnt);
  }

  lemma {:induction false} TotalAtLeast(procs: seq<Proc>, i: nat)
    requires i < |procs|
    ensures Misses(procs[i].core) <= TotalMisses(procs)
  {
    if i < |procs| - 1 {
      TotalAtLeast(procs[..|procs| - 1], i);
    }
  }

  /** For every unaligned address a run of one record reports more misses than records,
      a rate above one hundred percent. */
  lemma RateAboveOne(n: nat, cap: nat, a: nat) returns (steps: seq<Step>)
    requires 1 <= n && 1 <= cap && !IsLine(a)
    ensures Exec(Init(n, cap), steps).Some? && WritesTo(steps, a)
    ensures Fed(steps) == 1 && TotalMisses(Exec(Init(n, cap), steps).value.procs) > Fed(steps)
  {
    var s;
    var t := Trace(a, 'W', 0);
    steps, s := WriteAlone(n, cap, a, [t]);
    AccessesOfOneWrite(a);
    OneWriteMissesOnceIff(cap, 0, a, 0);
    TotalAtLeast(s.procs, 0);
  }

  /** Over the runs whose writes go to lines or to the address `a`, the reported misses
      never exceed the records exactly when `a` is a line too. */
  lemma MissRateIff(n: nat, cap: nat, a: nat)
    requires 1 <= n && 1 <= cap
    ensures (forall steps | Exec(Init(n, cap), steps).Some? && WritesTo(steps, a) ::
               TotalMisses(Exec(Init(n, cap), steps).value.procs) <= Fed(steps))
            <==> IsLine(a)
  {
    if IsLine(a) {
      forall steps | Exec(Init(n, cap), steps).Some? && WritesTo(steps, a)
        ensures TotalMisses(Exec(Init(n, cap), steps).value.procs) <= Fed(steps)
      {
        MissRateAtMostOne(n, cap, steps);
      }
    } else {
      var steps := RateAboveOne(n, cap, a);
    }
  }

  /** An unaligned first write sends one transaction and counts two misses or more. */
  lemma OneWriteTraffic(cap: nat, tid: nat, a: nat)
    requires 1 <= cap && !IsLine(a)
    ensures var es := [Accessed(PrWr, a, 0)];
            TallyOf(cap, tid, es).busRd + TallyOf(cap, tid, es).busRdX < Misses(Replay(cap, tid, es))
  {
    var e := Accessed(PrWr, a, 0);
    OneWriteMissesOnceIff(cap, tid, a, 0);
    assert [] + [e] == [e];
    ReplaySnoc(cap, tid, [], e);
  }

  lemma TrafficFails(n: nat, cap: nat, a: nat) returns (steps: seq<Step>)
    requires 1 <= n && 1 <= cap && !IsLine(a)
    ensures Exec(Init(n, cap), steps).Some? && WritesTo(steps, a)
    ensures !TrafficAt(cap, Exec(Init(n, cap), steps).value, 0)
  {
    var s;
    steps, s := WriteAlone(n, cap, a, [Trace(a, 'W', 0)]);
    AccessesOfOneWrite(a);
    OneWriteTraffic(cap, 0, a);
  }

  /** Over the same runs, bus transactions are the misses plus the upgrades exactly when
      `a` is a line. */
  lemma TrafficIff(n: nat, cap: nat, a: nat)
    requires 1 <= n && 1 <= cap
    ensures (forall steps, i: nat | Exec(Init(n, cap), steps).Some? && WritesTo(steps, a) && i < n ::
               TrafficAt(cap, Exec(Init(n, cap), steps).value, i))
            <==> IsLine(a)
  {
    if IsLine(a) {
      forall steps, i: nat | Exec(Init(n, cap), steps).Some? && WritesTo(steps, a) && i < n
        ensures TrafficAt(cap, Exec(Init(n, cap), steps).value, i)
      {
        InputAligned(n, cap, steps, i);
        ReachableTraffic(n, cap, Exec(Init(n, cap), steps).value, i);
      }
    } else {
      var steps := TrafficFails(n, cap, a);
    }
  }

  // ---- Balances ----

  /** A one-entry cache that holds line `x`, modified. */
  function Full(x: nat, capacityMisses: nat): Core {
    Core(Cache([Entry(x, Cacheline(x, M, 0))], 1, 1, capacityMisses), 0, 0)
  }

  lemma PutIntoOne(c: Cache, k: nat, v: Cacheline)
    requires c.cap == 1 && |c.entries| == 1 && c.entries[0].key != k
    ensures Put(c, k, v) == c.(entries := [Entry(k, v)], capacityMisses := c.capacityMisses + 1)
    ensures Victim(c, k) == Some(c.entries[0])
  {
    assert c.entries[1..] == [];
    assert Find([], k) == None;
    assert c.entries[..0] == [];
  }

  /** The raw store of the first write throws out the fresh, invalid line. */
  lemma FirstWrite(tid: nat, a: nat, x: nat)
    requires x == Convert(a) != a
    ensures Commit(InitCore(1), tid, PrWr, a, 0).0 == Full(x, 2)
    ensures Lost(InitCore(1), PrWr, a, 0, M) == 0 && Lost(InitCore(1), PrWr, a, 0, I) == 1
  {
    var p := InitCore(1);
    var c := Cache([Entry(x, FreshLine(x))], 1, 1, 0);
    ConvertIsIdentityOnLines(a);
    assert Found(p, a) == c;
    PutIntoOne(c, a, FreshLine(x));
    var d := Cache([Entry(a, FreshLine(x))], 1, 1, 1);
    assert Look(p, PrWr, a, 0) == Looked(Core(d, 0, 0), FreshLine(x), true);
    PutIntoOne(d, x, Cacheline(x, M, 0));
  }

  /** That of the second throws out the modified line, which the bus puts back without a
      new request. */
  lemma SecondWrite(tid: nat, a: nat, x: nat)
    requires x == Convert(a) != a
    ensures Commit(Full(x, 2), tid, PrWr, a, 0).0 == Full(x, 4)
    ensures Lost(Full(x, 2), PrWr, a, 0, M) == 1
  {
    var p, line := Full(x, 2), Cacheline(x, M, 0);
    var e := Entry(x, line);
    ConvertIsIdentityOnLines(a);
    assert [e][1..] == [] && Without([e], x) == Without([], x) == [];
    assert [e] + [] == [e];
    assert Get(p.cache, x, false) == (p.cache, line);
    assert Found(p, a) == p.cache;
    PutIntoOne(p.cache, a, line);
    var d := Cache([Entry(a, line)], 1, 1, 3);
    assert Look(p, PrWr, a, 0).core == Core(d, 0, 0) && Look(p, PrWr, a, 0).line == line;
    PutIntoOne(d, x, line);
  }

  /** What one more access adds to a history. */
  lemma OneMore(tid: nat, es: seq<Event>, e: Event, p: Core)
    requires e.Accessed? && Replay(1, tid, es) == p && p.cache.cap == 1
    ensures var t, t', st := TallyOf(1, tid, es), TallyOf(1, tid, es + [e]), Local(p, Convert(e.addr));
            && Replay(1, tid, es + [e]) == Commit(p, tid, e.op, e.addr, e.cnt).0
            && t'.busRdX == t.busRdX + Bit(Request(st, e.op) == Some(BusRdX))
            && t'.invalidations == t.invalidations
            && t'.lostModified == t.lostModified + Lost(p, e.op, e.addr, e.cnt, M)
            && t'.lostInvalid == t.lostInvalid + Lost(p, e.op, e.addr, e.cnt, I)
  {
    ReplaySnoc(1, tid, es, e);
  }

  /** After one unaligned write in a cache of one entry the invalid lines do not balance:
      none was invalidated, yet one was lost. */
  lemma InvalidLeak(tid: nat, a: nat, e: Event)
    requires !IsLine(a) && e == Accessed(PrWr, a, 0)
    ensures !InvalidBalance(Replay(1, tid, [] + [e]), TallyOf(1, tid, [] + [e]))
  {
    ConvertIsIdentityOnLines(a);
    FirstWrite(tid, a, Convert(a));
    OneMore(tid, [], e, InitCore(1));
  }

  /** After two, the modified lines do not: one exclusive request, two modified lines. */
  lemma ModifiedLeak(tid: nat, a: nat, e: Event)
    requires !IsLine(a) && e == Accessed(PrWr, a, 0)
    ensures !ModifiedBalance(Replay(1, tid, [] + [e] + [e]), TallyOf(1, tid, [] + [e] + [e]))
  {
    var x := Convert(a);
    ConvertIsIdentityOnLines(a);
    FirstWrite(tid, a, x);
    SecondWrite(tid, a, x);
    OneMore(tid, [], e, InitCore(1));
    OneMore(tid, [] + [e], e, Full(x, 2));
    assert Count(Full(x, 4).cache.entries, M) == 1;
  }

  /** Room for an unaligned write beside its line, or no unaligned write at all. */
  lemma RoomFromInput(n: nat, cap: nat, steps: seq<Step>, i: nat, a: nat)
    requires 1 <= cap && Exec(Init(n, cap), steps).Some? && i < n && WritesTo(steps, a) && (2 <= cap || IsLine(a))
    ensures AllRoomy(cap, Exec(Init(n, cap), steps).value.procs[i].history)
  {
    var history := Exec(Init(n, cap), steps).value.procs[i].history;
    forall e | e in history && e.Accessed? ensures Roomy(cap, e.op, e.addr) {
      if e.op == PrWr {
        HistoryWrites(n, cap, steps, i, e, a);
      }
    }
  }

  lemma BalancesFromInput(n: nat, cap: nat, steps: seq<Step>, i: nat, a: nat)
    requires 1 <= cap && Exec(Init(n, cap), steps).Some? && i < n && WritesTo(steps, a) && (2 <= cap || IsLine(a))
    ensures var s := Exec(Init(n, cap), steps).value; ModifiedAt(cap, s, i) && InvalidAt(cap, s, i)
  {
    RoomFromInput(n, cap, steps, i, a);
    ReachableBalances(n, cap, Exec(Init(n, cap), steps).value, i);
  }

  lemma ModifiedFails(n: nat, a: nat) returns (steps: seq<Step>)
    requires 1 <= n && !IsLine(a)
    ensures Exec(Init(n, 1), steps).Some? && WritesTo(steps, a)
    ensures !ModifiedAt(1, Exec(Init(n, 1), steps).value, 0)
  {
    var s;
    var t, e := Trace(a, 'W', 0), Accessed(PrWr, a, 0);
    steps, s := WriteAlone(n, 1, a, [t, t]);
    AccessesUncons([t, t]);
    AccessesUncons([t]);
    assert Accesses([t, t]) == [] + [e] + [e];
    ModifiedLeak(0, a, e);
  }

  lemma InvalidFails(n: nat, a: nat) returns (steps: seq<Step>)
    requires 1 <= n && !IsLine(a)
    ensures Exec(Init(n, 1), steps).Some? && WritesTo(steps, a)
    ensures !InvalidAt(1, Exec(Init(n, 1), steps).value, 0)
  {
    var s;
    var t, e := Trace(a, 'W', 0), Accessed(PrWr, a, 0);
    steps, s := WriteAlone(n, 1, a, [t]);
    AccessesOfOneWrite(a);
    assert [e] == [] + [e];
    InvalidLeak(0, a, e);
  }

  /** Over the runs whose writes go to lines or to the address `a`, modified lines balance
      at every processor exactly when the cache has room for two entries or `a` is a line. */
  lemma ModifiedBalanceIff(n: nat, cap: nat, a: nat)
    requires 1 <= n && 1 <= cap
    ensures (forall steps, i: nat | Exec(Init(n, cap), steps).Some? && WritesTo(steps, a) && i < n ::
               ModifiedAt(cap, Exec(Init(n, cap), steps).value, i))
            <==> 2 <= cap || IsLine(a)
  {
    if 2 <= cap || IsLine(a) {
      forall steps, i: nat | Exec(Init(n, cap), steps).Some? && WritesTo(steps, a) && i < n
        ensures ModifiedAt(cap, Exec(Init(n, cap), steps).value, i)
      {
        BalancesFromInput(n, cap, steps, i, a);
      }
    } else {
      var steps := ModifiedFails(n, a);
    }
  }

  /** And so do invalidations. */
  lemma InvalidBalanceIff(n: nat, cap: nat, a: nat)
    requires 1 <= n && 1 <= cap
    ensures (forall steps, i: nat | Exec(Init(n, cap), steps).Some? && WritesTo(steps, a) && i < n ::
               InvalidAt(cap, Exec(Init(n, cap), steps).value, i))
            <==> 2 <= cap || IsLine(a)
  {
    if 2 <= cap || IsLine(a) {
      forall steps, i: nat | Exec(Init(n, cap), steps).Some? && WritesTo(steps, a) && i < n
        ensures InvalidAt(cap, Exec(Init(n, cap), steps).value, i)
      {
        BalancesFromInput(n, cap, steps, i, a);
      }
    } else {
      var steps := InvalidFails(n, a);
    }
  }
}
