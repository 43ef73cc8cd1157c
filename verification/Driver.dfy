/** Driving the objects through any schedule stays inside the proved machine. */
module Driver {
  import opened Msi
  import opened Protocol
  import opened Machine
  import opened Eager
  import opened Races
  import opened Coherence
  import opened Simulator
  import LruRecency
  import opened Demux
  import ProgramOrder

  /** Any calls on a cache object leave it standing for the run of those calls, whose
      contents are the most recently touched keys. */
  method RunCache(capacity: nat, ops: seq<LruRecency.CacheOp>) returns (cache: LruCache.LRUCache)
    requires 1 <= capacity
    ensures cache.Valid() && cache.model == LruRecency.Run(capacity, ops)
    ensures LruRecency.Tracks(cache.model, LruRecency.Touches(capacity, ops))
  {
    cache := new LruCache.LRUCache(capacity);
    for k := 0 to |ops|
      invariant fresh(cache) && cache.Valid() && cache.model == LruRecency.Run(capacity, ops[..k])
    {
      assert ops[..k + 1][..k] == ops[..k];
      match ops[k] {
        case PutOp(key, line) => cache.Put(key, line);
        case GetOp(key, createNew) => var _ := cache.Get(key, createNew);
      }
    }
    assert ops[..|ops|] == ops;
    LruRecency.ContentsAreMostRecent(capacity, ops);
  }

  lemma ActReaches(n: nat, cap: nat, s: Sys, a: Action)
    requires Reachable(n, cap, s) && CapsOk(s) && CanAct(s, a)
    ensures Reachable(n, cap, LazyAct(s, a))
  {
    assert Lazy(s, []) == Some(s);
    assert [a][..0] == [];
    var steps := LazyIsRun(s, [a]);
    ReachRun(n, cap, s, steps);
  }

  lemma {:induction false} CarryReaches(n: nat, cap: nat, acts: seq<Action>)
    requires 1 <= cap
    ensures Reachable(n, cap, Carry(Init(n, cap), acts))
  {
    if acts == [] {
      ReachInit(n, cap);
    } else {
      var before, a := acts[..|acts| - 1], acts[|acts| - 1];
      CarryReaches(n, cap, before);
      if CanAct(Carry(Init(n, cap), before), a) {
        ActReaches(n, cap, Carry(Init(n, cap), before), a);
      }
    }
  }

  /** Carry out one action on the objects, if it is possible. */
  method Act(bus: Bus, a: Action)
    requires bus.Valid()
    modifies bus`requests, bus`state, bus.processors, set p | p in bus.processors :: p.cache
    ensures bus.Valid() && CapsOk(old(bus.state))
    ensures bus.state == Try(old(bus.state), a)
  {
    bus.CapsFromValid();
    match a {
      case Arrive(i, t) =>
        if i < |bus.processors| {
          bus.Arrive(i, t);
        }
      case Turn(i) =>
        if i < |bus.processors| {
          assert bus.processors[i].Valid();
          if bus.processors[i].traces != [] {
            bus.ServeNext(i);
          }
        }
      case Transmit =>
        if bus.requests != [] {
          bus.Turn();
        }
    }
  }

  /** Start the simulator and carry out a schedule, skipping what is not possible. */
  method Drive(nthreads: nat, capacity: nat, acts: seq<Action>) returns (bus: Bus)
    requires 1 <= capacity
    ensures bus.Valid() && bus.state == Carry(Init(nthreads, capacity), acts)
    ensures Reachable(nthreads, capacity, bus.state)
  {
    bus := new Bus(nthreads, capacity);
    for k := 0 to |acts|
      invariant fresh(bus) && bus.Valid() && bus.state == Carry(Init(nthreads, capacity), acts[..k])
      invariant forall i :: 0 <= i < |bus.processors| ==> fresh(bus.processors[i]) && fresh(bus.processors[i].cache)
    {
      assert acts[..k + 1][..k] == acts[..k];
      Act(bus, acts[k]);
    }
    assert acts[..|acts|] == acts;
    CarryReaches(nthreads, capacity, acts);
  }

  // ---- Reading the input ----

  /** The run from `s` to `s'` queued `queues`, processor by processor. */
  ghost predicate HasRead(s: Sys, steps: seq<Step>, s': Sys, queues: seq<seq<Trace>>) {
    && CapsOk(s) && Exec(s, steps) == Some(s') && |queues| == |s.procs|
    && (forall i :: 0 <= i < |queues| ==> ProgramOrder.Arrivals(steps, i) == queues[i])
    && (forall i :: 0 <= i < |queues| ==> s'.procs[i].traces == s.procs[i].traces + queues[i])
  }

  lemma ReadOne(s: Sys, steps: seq<Step>, s': Sys, queues: seq<seq<Trace>>, i: nat, t: Trace)
    requires HasRead(s, steps, s', queues) && i < |queues| && CapsOk(s')
    ensures HasRead(s, steps + [Enqueue(i, t)], Next(s', Enqueue(i, t)), queues[i := queues[i] + [t]])
  {
  }

  /** Reading `rs` has moved `s` to `s'` and named the threads `ids`. */
  ghost predicate Reads(s: Sys, steps: seq<Step>, s': Sys, ids: seq<int>, rs: seq<Record>) {
    exists queues :: HasRead(s, steps, s', queues) && Demuxed(queues, ids, rs)
  }

  lemma ReadsNothing(s: Sys)
    requires CapsOk(s)
    ensures Reads(s, [], s, [], [])
  {
    var queues: seq<seq<Trace>> := seq(|s.procs|, _ => []);
    assert HasRead(s, [], s, queues) && Demuxed(queues, [], []);
  }

  lemma ReadsNext(s: Sys, steps: seq<Step>, s': Sys, ids: seq<int>, ids': seq<int>, rs: seq<Record>, r: Record,
                  tid: nat)
    requires Reads(s, steps, s', ids, rs) && CapsOk(s') && |FirstSeen(Rids(rs + [r]))| <= |s.procs|
    requires ids' == if r.rid in ids then ids else ids + [r.rid]
    requires NoRepeats(ids') && tid < |ids'| && ids'[tid] == r.rid
    ensures var step := Enqueue(tid, Trace(r.addr, r.kind, |rs| + 1));
            Enabled(s', step) && Reads(s, steps + [step], Next(s', step), ids', rs + [r])
  {
    var queues :| HasRead(s, steps, s', queues) && Demuxed(queues, ids, rs);
    NextRecord(queues, ids, ids', rs, r, tid);
    ReadOne(s, steps, s', queues, tid, Trace(r.addr, r.kind, |rs| + 1));
  }

  lemma ReadsAll(s: Sys, steps: seq<Step>, s': Sys, ids: seq<int>, rs: seq<Record>)
    requires Reads(s, steps, s', ids, rs)
    ensures CapsOk(s) && Exec(s, steps) == Some(s') && ids == FirstSeen(Rids(rs))
    ensures ProgramOrder.Feeds(steps, rs, |s.procs|)
    ensures forall i :: 0 <= i < |s.procs| ==>
              s'.procs[i].traces == s.procs[i].traces + if i < |ids| then Own(rs, ids[i]) else []
  {
  }

  method HandOver(bus: Bus, i: nat, t: Trace)
    requires bus.Valid() && i < |bus.processors|
    modifies bus`state, (set p | p in bus.processors)`traces, (set p | p in bus.processors)`view
    ensures bus.Valid() && CapsOk(old(bus.state)) && bus.state == Next(old(bus.state), Enqueue(i, t))
  {
    bus.CapsFromValid();
    bus.Arrive(i, t);
  }

  /** Number a record and queue it at its processor. */
  method QueueRecord(bus: Bus, tid: nat, cnt: nat, r: Record, ghost ids: seq<int>, ghost ids': seq<int>,
                     ghost s: Sys, ghost steps: seq<Step>, ghost done: seq<Record>)
    returns (ghost step: Step)
    requires bus.Valid() && |FirstSeen(Rids(done + [r]))| <= |bus.processors| == |s.procs| && cnt == |done|
    requires Reads(s, steps, bus.state, ids, done) && ids' == if r.rid in ids then ids else ids + [r.rid]
    requires NoRepeats(ids') && tid < |ids'| && ids'[tid] == r.rid
    modifies bus`state, (set p | p in bus.processors)`traces, (set p | p in bus.processors)`view
    ensures bus.Valid() && Reads(s, steps + [step], bus.state, ids', done + [r])
  {
    bus.CapsFromValid();
    ReadsNext(s, steps, bus.state, ids, ids', done, r, tid);
    step := Enqueue(tid, Trace(r.addr, r.kind, cnt + 1));
    HandOver(bus, tid, Trace(r.addr, r.kind, cnt + 1));
  }

  /** Read one record: name its thread, number it, and queue it. */
  method ReadRecord(bus: Bus, tidMap: map<int, nat>, antiMap: seq<int>, cnt: nat, r: Record,
                    ghost s: Sys, ghost steps: seq<Step>, ghost done: seq<Record>)
    returns (tidMap': map<int, nat>, antiMap': seq<int>, ghost step: Step)
    requires bus.Valid() && |FirstSeen(Rids(done + [r]))| <= |bus.processors| == |s.procs|
    requires Inverse(tidMap, antiMap) && cnt == |done| && Reads(s, steps, bus.state, antiMap, done)
    modifies bus`state, (set p | p in bus.processors)`traces, (set p | p in bus.processors)`view
    ensures bus.Valid() && Inverse(tidMap', antiMap')
    ensures Reads(s, steps + [step], bus.state, antiMap', done + [r])
  {
    var tid;
    tidMap', antiMap', tid := Rename(tidMap, antiMap, r.rid);
    step := QueueRecord(bus, tid, cnt, r, antiMap, antiMap', s, steps, done);
  }

  /** Read the records one by one, giving each new thread the next processor. What
      happens is a run that feeds every processor its thread's records in order. */
  method RealLoop(bus: Bus, records: seq<Record>)
    returns (tidMap: map<int, nat>, antiMap: seq<int>, cnt: nat, ghost steps: seq<Step>)
    requires bus.Valid() && |FirstSeen(Rids(records))| <= |bus.processors|
    modifies bus`state, (set p | p in bus.processors)`traces, (set p | p in bus.processors)`view
    ensures bus.Valid() && cnt == |records|
    ensures Inverse(tidMap, antiMap) && antiMap == FirstSeen(Rids(records))
    ensures CapsOk(old(bus.state)) && Exec(old(bus.state), steps) == Some(bus.state)
    ensures ProgramOrder.Feeds(steps, records, |bus.processors|)
    ensures forall i :: 0 <= i < |bus.processors| ==>
              bus.state.procs[i].traces ==
              old(bus.state).procs[i].traces + if i < |antiMap| then Own(records, antiMap[i]) else []
  {
    ghost var s := bus.state;
    bus.CapsFromValid();
    ReadsNothing(s);
    tidMap, antiMap, cnt, steps := map[], [], 0, [];
    while cnt < |records|
      invariant 0 <= cnt <= |records| && bus.Valid()
      invariant Inverse(tidMap, antiMap)
      invariant Reads(s, steps, bus.state, antiMap, records[..cnt])
    {
      ghost var step, done := Pop, records[..cnt];
      PrefixIds(records, cnt);
      tidMap, antiMap, step := ReadRecord(bus, tidMap, antiMap, cnt, records[cnt], s, steps, done);
      cnt, steps := cnt + 1, steps + [step];
    }
    assert records[..cnt] == records;
    ReadsAll(s, steps, bus.state, antiMap, records);
  }

  /** Hence the objects themselves are coherent: once the bus and the snoop queues are
      empty, a line modified in one cache is not valid in any other. */
  lemma ObjectsAreCoherent(nthreads: nat, capacity: nat, bus: Bus, x: nat, i: nat, j: nat)
    requires bus.Valid() && Reachable(nthreads, capacity, bus.state) && IsLine(x) && x != 0
    requires i < |bus.processors| && j < |bus.processors| && i != j
    requires bus.requests == [] && bus.processors[i].requests == [] && bus.processors[j].requests == []
    ensures StateIn(bus.processors[i].cache.model, x) == M ==> StateIn(bus.processors[j].cache.model, x) == I
  {
    assert bus.processors[i].Valid() && bus.processors[j].Valid();
    assert Pending(bus.state, i) == [] && Pending(bus.state, j) == [];
    SettledSingleWriter(nthreads, capacity, bus.state, x, i, j);
  }

  // ---- The report ----

  lemma {:induction false} ColdIsResident(procs: seq<Proc>)
    requires forall j :: 0 <= j < |procs| ==> procs[j].core.cache.coldMisses == |procs[j].core.cache.entries|
    ensures T.Sum(procs, (p: Proc) => p.core.cache.coldMisses) == T.Sum(procs, (p: Proc) => |p.core.cache.entries|)
  {
    if procs != [] {
      ColdIsResident(procs[..|procs| - 1]);
    }
  }

  /** In every reachable state the cold misses that are reported are the entries resident
      in all caches together. */
  lemma ReportedColdMisses(n: nat, cap: nat, s: Sys)
    requires Reachable(n, cap, s)
    ensures SumStat(s.procs).coldMisses == T.Sum(s.procs, (p: Proc) => |p.core.cache.entries|)
  {
    SumStatCounters(s.procs);
    forall j | 0 <= j < |s.procs| ensures s.procs[j].core.cache.coldMisses == |s.procs[j].core.cache.entries| {
      CoreRecency.ReachableRecency(n, cap, s, j);
    }
    ColdIsResident(s.procs);
  }
}
