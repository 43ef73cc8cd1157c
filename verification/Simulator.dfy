/** The simulator's objects: processors that update their cache, queues and
    statistics in place, and the bus that serialises and broadcasts. Each carries,
    as a ghost, the value it stands for in the step machine; its methods are proved
    to move that value by the step, or run of steps, that they carry out. */
module Simulator {
  import opened Msi
  import opened LruCache
  import P = Protocol
  import opened Machine
  import opened Schedules
  import opened Accounts
  import CoreRecency
  import T = Termination

  datatype MetaStat = MetaStat(coldMisses: nat, capacityMisses: nat, coherenceMisses: nat, flushes: nat) {
    function Plus(b: MetaStat): MetaStat {
      MetaStat(coldMisses + b.coldMisses, capacityMisses + b.capacityMisses,
               coherenceMisses + b.coherenceMisses, flushes + b.flushes)
    }
  }

  const ZERO_STAT := MetaStat(0, 0, 0, 0)

  /** The statistics a core calls for. */
  ghost function StatOf(p: P.Core): MetaStat {
    MetaStat(p.cache.coldMisses, p.cache.capacityMisses, p.coherenceMisses, p.flushes)
  }

  ghost function SumStat(procs: seq<Proc>): MetaStat {
    if procs == [] then ZERO_STAT else SumStat(procs[..|procs| - 1]).Plus(StatOf(procs[|procs| - 1].core))
  }

  lemma SumStatNext(procs: seq<Proc>, i: nat)
    requires i < |procs|
    ensures SumStat(procs[..i + 1]) == SumStat(procs[..i]).Plus(StatOf(procs[i].core))
  {
    assert procs[..i + 1][..i] == procs[..i];
  }

  /** Each counter of the total is the sum of that counter over the processors. */
  lemma {:induction false} SumStatCounters(procs: seq<Proc>)
    ensures SumStat(procs).coldMisses == T.Sum(procs, (p: Proc) => p.core.cache.coldMisses)
    ensures SumStat(procs).capacityMisses == T.Sum(procs, (p: Proc) => p.core.cache.capacityMisses)
    ensures SumStat(procs).coherenceMisses == T.Sum(procs, (p: Proc) => p.core.coherenceMisses)
    ensures SumStat(procs).flushes == T.Sum(procs, (p: Proc) => p.core.flushes)
  {
    if procs != [] {
      SumStatCounters(procs[..|procs| - 1]);
    }
  }

  /** The three miss counters of the total are the misses of all processors. */
  lemma {:induction false} SumStatMisses(procs: seq<Proc>)
    ensures var t := SumStat(procs); t.coldMisses + t.capacityMisses + t.coherenceMisses == TotalMisses(procs)
  {
    if procs != [] {
      SumStatMisses(procs[..|procs| - 1]);
    }
  }

  class Processor {
    const tid: nat
    const cache: LRUCache
    var requests: seq<BusTransaction>
    var traces: seq<Trace>
    var stat: MetaStat
    ghost var view: Proc

    /** Between two accesses the fields stand for `view`. */
    ghost predicate Valid()
      reads this, cache
    {
      && cache.Valid()
      && view.core == P.Core(cache.model, stat.coherenceMisses, stat.flushes)
      && view.requests == requests && view.traces == traces && view.phase == Idle
    }

    constructor (id: nat, capacity: nat)
      requires 1 <= capacity
      ensures Valid() && tid == id && view == InitProc(capacity) && fresh(cache)
    {
      tid := id;
      cache := new LRUCache(capacity);
      requests, traces, stat := [], [], MetaStat(0, 0, 0, 0);
      view := InitProc(capacity);
    }

    method AddTrace(t: Trace)
      requires Valid()
      modifies this`traces, this`view
      ensures Valid() && view == old(view).(traces := old(view).traces + [t])
    {
      traces := traces + [t];
      view := view.(traces := traces);
    }

    /** The bus appends to the snoop queue. */
    method Receive(r: BusTransaction)
      requires Valid()
      modifies this`requests, this`view
      ensures Valid() && view == old(view).(requests := old(view).requests + [r])
    {
      requests := requests + [r];
      view := view.(requests := requests);
    }

    method Flush()
      modifies this`stat
      ensures stat == old(stat).(flushes := old(stat).flushes + 1)
    {
      stat := stat.(flushes := stat.flushes + 1);
    }

    /** Copy the cache's counters into the statistics. */
    method PushStats()
      requires Valid()
      modifies this`stat
      ensures Valid() && stat == StatOf(view.core)
      ensures stat.coldMisses == cache.coldMisses && stat.capacityMisses == cache.capacityMisses
      ensures CoreRecency.Counted(view.core.cache) ==> stat.coldMisses == |view.core.cache.entries|
      ensures stat.coherenceMisses == old(stat).coherenceMisses && stat.flushes == old(stat).flushes
    {
      stat := stat.(coldMisses := cache.coldMisses, capacityMisses := cache.capacityMisses);
    }

    /** Handle one snooped transaction. */
    method SnoopRequest(r: BusTransaction)
      requires cache.Valid()
      modifies this`stat, cache
      ensures cache.Valid()
      ensures P.Core(cache.model, stat.coherenceMisses, stat.flushes) ==
              P.Snoop(P.Core(old(cache.model), old(stat).coherenceMisses, old(stat).flushes), r)
    {
      var line := cache.Get(r.tag, false);
      if line.tag != 0 {
        match line.state {
          case M =>
            if r.tsn == BusRd {
              line := line.(state := S);
              Flush();
            } else {
              line := line.(state := I);
              Flush();
            }
          case S =>
            if r.tsn == BusRdX {
              line := line.(state := I);
            }
          case I =>
        }
        cache.Put(r.tag, line);
      }
    }

    /** Take the oldest transaction off the snoop queue and handle it. */
    method PullOne()
      requires Valid() && requests != []
      modifies this`requests, this`stat, this`view, cache
      ensures Valid() && view == SnoopFirst(old(view))
    {
      var request := requests[0];
      requests := requests[1..];
      SnoopRequest(request);
      view := SnoopFirst(view);
    }

    /** Drain the snoop queue, oldest transaction first. */
    method PullRequest()
      requires Valid()
      modifies this`requests, this`stat, this`view, cache
      ensures Valid() && view == DrainProc(old(view))
    {
      ghost var p := view;
      while requests != []
        invariant Valid() && DrainProc(view) == DrainProc(p)
        decreases |requests|
      {
        DrainProcStep(view);
        PullOne();
      }
      DrainProcDone(view);
    }

    /** The lookups of a read. */
    method LookRead(addr: nat, cnt: int) returns (line: Cacheline, isNew: bool)
      requires cache.Valid()
      modifies cache
      ensures cache.Valid()
      ensures var p := P.Core(old(cache.model), stat.coherenceMisses, stat.flushes);
              P.Look(p, PrRd, addr, cnt) == P.Looked(p.(cache := cache.model), line, isNew)
    {
      var tag := Convert(addr);
      var res := cache.Get(tag, false);
      line := cache.Get(tag, true);
      line := line.(cnt := cnt);
      isNew := res.tag == 0;
    }

    /** The lookups of a write, which also stores the line under the raw address. */
    method LookWrite(addr: nat, cnt: int) returns (line: Cacheline, isNew: bool)
      requires cache.Valid()
      modifies cache
      ensures cache.Valid()
      ensures var p := P.Core(old(cache.model), stat.coherenceMisses, stat.flushes);
              P.Look(p, PrWr, addr, cnt) == P.Looked(p.(cache := cache.model), line, isNew)
    {
      var tag := Convert(addr);
      var res := cache.Get(tag, false);
      line := cache.Get(tag, true);
      line := line.(cnt := cnt);
      line := line.(tag := tag);
      cache.Put(addr, line);
      isNew := res.tag == 0;
    }

    method Read(bus: Bus, addr: nat, cnt: int)
      requires Valid() && tid < |bus.processors| && bus.processors[tid] == this
      modifies this`requests, this`stat, this`view, cache, bus`requests
      ensures Valid() && view == AfterAccess(DrainProc(old(view)), tid, PrRd, addr, cnt)
      ensures bus.requests == old(bus.requests) + Issues(DrainProc(old(view)), tid, PrRd, addr, cnt)
    {
      PullRequest();
      FinishRead(bus, addr, cnt);
    }

    method Write(bus: Bus, addr: nat, cnt: int)
      requires Valid() && tid < |bus.processors| && bus.processors[tid] == this
      modifies this`requests, this`stat, this`view, cache, bus`requests
      ensures Valid() && view == AfterAccess(DrainProc(old(view)), tid, PrWr, addr, cnt)
      ensures bus.requests == old(bus.requests) + Issues(DrainProc(old(view)), tid, PrWr, addr, cnt)
    {
      PullRequest();
      FinishWrite(bus, addr, cnt);
    }

    /** A read after its queue is drained: look up, then go to the bus. */
    method FinishRead(bus: Bus, addr: nat, cnt: int)
      requires Valid() && tid < |bus.processors| && bus.processors[tid] == this
      modifies this`stat, this`view, cache, bus`requests
      ensures Valid() && view == AfterAccess(old(view), tid, PrRd, addr, cnt)
      ensures bus.requests == old(bus.requests) + Issues(old(view), tid, PrRd, addr, cnt)
    {
      var line, isNew := LookRead(addr, cnt);
      Commit(bus, PrRd, addr, cnt, line, isNew);
    }

    /** A write after its queue is drained. */
    method FinishWrite(bus: Bus, addr: nat, cnt: int)
      requires Valid() && tid < |bus.processors| && bus.processors[tid] == this
      modifies this`stat, this`view, cache, bus`requests
      ensures Valid() && view == AfterAccess(old(view), tid, PrWr, addr, cnt)
      ensures bus.requests == old(bus.requests) + Issues(old(view), tid, PrWr, addr, cnt)
    {
      var line, isNew := LookWrite(addr, cnt);
      Commit(bus, PrWr, addr, cnt, line, isNew);
    }

    /** Hand the line that was looked up to the bus. */
    method Commit(bus: Bus, op: PrTsn, addr: nat, cnt: int, line: Cacheline, isNew: bool)
      requires tid < |bus.processors| && bus.processors[tid] == this && cache.Valid()
      requires view.requests == requests && view.traces == traces && view.phase == Idle && 1 <= view.core.cache.cap
      requires P.Look(view.core, op, addr, cnt) ==
               P.Looked(P.Core(cache.model, stat.coherenceMisses, stat.flushes), line, isNew)
      modifies this`stat, this`view, cache, bus`requests
      ensures Valid() && view == AfterAccess(old(view), tid, op, addr, cnt)
      ensures bus.requests == old(bus.requests) + Issues(old(view), tid, op, addr, cnt)
    {
      bus.Push(line, tid, op, isNew);
      view := AfterAccess(view, tid, op, addr, cnt);
    }

    /** One turn of the processor loop: take the oldest trace and carry it out. */
    method Turn(bus: Bus)
      requires Valid() && tid < |bus.processors| && bus.processors[tid] == this && traces != []
      modifies this`traces, this`requests, this`stat, this`view, cache, bus`requests
      ensures Valid() && view == TurnProc(old(view), tid)
      ensures bus.requests == old(bus.requests) + TurnIssues(old(view), tid)
    {
      var q := traces[0];
      traces := traces[1..];
      view := view.(traces := traces);
      if q.kind == 'R' {
        Read(bus, q.addr, q.cnt);
      } else if q.kind == 'W' {
        Write(bus, q.addr, q.cnt);
      }
    }

    /** A processor nobody touches stays valid. */
    twostate lemma Untouched()
      requires old(Valid()) && unchanged(this) && unchanged(cache)
      ensures Valid()
    {
    }
  }

  /** A drained processor after its access is committed. */
  ghost function AfterAccess(d: Proc, tid: nat, op: PrTsn, addr: nat, cnt: int): Proc
    requires 1 <= d.core.cache.cap
  {
    d.(core := P.Commit(d.core, tid, op, addr, cnt).0, history := d.history + [Accessed(op, addr, cnt)])
  }

  /** The transactions its access puts on the bus: none or one. */
  ghost function Issues(d: Proc, tid: nat, op: PrTsn, addr: nat, cnt: int): seq<BusTransaction>
    requires 1 <= d.core.cache.cap
  {
    var issued := P.Commit(d.core, tid, op, addr, cnt).1;
    if issued.Some? then [issued.value] else []
  }

  ghost function SnoopFirst(p: Proc): Proc
    requires 1 <= p.core.cache.cap && p.requests != []
  {
    p.(core := P.Snoop(p.core, p.requests[0]), requests := p.requests[1..],
       history := p.history + [Snooped(p.requests[0])])
  }

  lemma DrainProcStep(p: Proc)
    requires 1 <= p.core.cache.cap && p.requests != []
    ensures DrainProc(SnoopFirst(p)) == DrainProc(p)
  {
  }

  /** A processor after one round of its loop, and what that puts on the bus. */
  ghost function TurnProc(p: Proc, tid: nat): Proc
    requires 1 <= p.core.cache.cap && p.traces != []
  {
    var q, rest := p.traces[0], p.(traces := p.traces[1..]);
    if IsAccess(q) then AfterAccess(DrainProc(rest), tid, OpOf(q), q.addr, q.cnt) else rest
  }

  ghost function TurnIssues(p: Proc, tid: nat): seq<BusTransaction>
    requires 1 <= p.core.cache.cap && p.traces != []
  {
    var q, rest := p.traces[0], p.(traces := p.traces[1..]);
    if IsAccess(q) then Issues(DrainProc(rest), tid, OpOf(q), q.addr, q.cnt) else []
  }

  lemma RoundIsTurn(s: Sys, i: nat)
    requires CapsOk(s) && CanTurn(s, i)
    ensures var s' := Round(s, i);
            && s'.procs[i] == TurnProc(s.procs[i], i)
            && (forall j :: 0 <= j < |s.procs| && j != i ==> s'.procs[j] == s.procs[j])
            && s'.bus == s.bus + TurnIssues(s.procs[i], i) && s'.sending == Free
  {
  }

  class Bus {
    const processors: seq<Processor>
    var requests: seq<BusTransaction>
    ghost var state: Sys

    /** Every processor is valid on its own, and no two share anything. */
    ghost predicate Apart()
      reads processors, set p | p in processors :: p.cache
    {
      && (forall i :: 0 <= i < |processors| ==> processors[i].tid == i && processors[i].Valid())
      && (forall i, j :: 0 <= i < j < |processors| ==>
            processors[i] != processors[j] && processors[i].cache != processors[j].cache)
    }

    /** Between turns the processors and the queue stand for `state`. */
    ghost predicate Valid()
      reads this, processors, set p | p in processors :: p.cache
    {
      && Apart()
      && |state.procs| == |processors| && state.bus == requests && state.sending == Free
      && (forall i :: 0 <= i < |processors| ==> state.procs[i] == processors[i].view)
    }

    lemma CapsFromValid()
      requires Valid()
      ensures CapsOk(state)
    {
      forall i | 0 <= i < |state.procs| ensures 1 <= state.procs[i].core.cache.cap {
        assert processors[i].Valid();
      }
    }

    /** The objects have come to stand for `s'`. */
    ghost method Adopt(s': Sys)
      requires Apart() && |s'.procs| == |processors| && s'.bus == requests && s'.sending == Free
      requires forall i :: 0 <= i < |processors| ==> s'.procs[i] == processors[i].view
      modifies this`state
      ensures Valid() && state == s'
    {
      state := s';
    }

    /** Upgrade the requester's line and queue the transaction this takes. */
    method Push(line: Cacheline, id: nat, op: PrTsn, isNew: bool)
      requires id < |processors| && processors[id].cache.Valid()
      modifies this`requests, {processors[id]}`stat, processors[id].cache
      ensures processors[id].cache.Valid()
      ensures var p, stat := processors[id], old(processors[id].stat);
              var was := P.Core(old(processors[id].cache.model), stat.coherenceMisses, stat.flushes);
              var (core, issued) := P.Push(was, line, id, op, isNew);
              && P.Core(p.cache.model, p.stat.coherenceMisses, p.stat.flushes) == core
              && requests == old(requests) + if issued.Some? then [issued.value] else []
    {
      var p, line', tsn := processors[id], line, None;
      match line.state {
        case M =>
        case S =>
          if op == PrWr {
            tsn := Some(BusRdX);
            line' := line'.(state := M);
          }
        case I =>
          if op == PrRd {
            tsn := Some(BusRd);
            line' := line'.(state := S);
          } else {
            tsn := Some(BusRdX);
            line' := line'.(state := M);
          }
          if !isNew {
            p.stat := p.stat.(coherenceMisses := p.stat.coherenceMisses + 1);
          }
      }
      p.cache.Put(line'.tag, line');
      if tsn.Some? {
        requests := requests + [BusTransaction(line'.tag, id, tsn.value, line'.cnt)];
      }
    }

    constructor (nthreads: nat, capacity: nat)
      requires 1 <= capacity
      ensures Valid() && state == Init(nthreads, capacity)
      ensures forall i :: 0 <= i < |processors| ==> fresh(processors[i]) && fresh(processors[i].cache)
    {
      var ps: seq<Processor> := [];
      while |ps| < nthreads
        invariant |ps| <= nthreads
        invariant forall i :: 0 <= i < |ps| ==>
                    && ps[i].tid == i && ps[i].Valid() && ps[i].view == InitProc(capacity)
                    && fresh(ps[i]) && fresh(ps[i].cache)
        invariant forall i, j :: 0 <= i < j < |ps| ==> ps[i] != ps[j] && ps[i].cache != ps[j].cache
      {
        var p := new Processor(|ps|, capacity);
        ps := ps + [p];
      }
      processors, requests, state := ps, [], Init(nthreads, capacity);
    }

    /** Offer a transaction to processor `k`, unless it is the sender. */
    method OfferTo(k: nat, r: BusTransaction)
      requires Apart() && k < |processors|
      modifies {processors[k]}`requests, {processors[k]}`view
      ensures Apart() && processors[k].view == Offer(old(processors[k].view), k, r)
      ensures forall j :: 0 <= j < |processors| && j != k ==> processors[j].view == old(processors[j].view)
    {
      if k != r.tid {
        processors[k].Receive(r);
      }
      forall j | 0 <= j < |processors| && j != k ensures processors[j].Valid() {
        processors[j].Untouched();
      }
    }

    /** Offer a transaction to every processor but its sender. */
    method Process(r: BusTransaction)
      requires Apart()
      modifies (set p | p in processors)`requests, (set p | p in processors)`view
      ensures Apart()
      ensures forall i :: 0 <= i < |processors| ==> processors[i].view == Offer(old(processors[i].view), i, r)
    {
      for k := 0 to |processors|
        invariant Apart()
        invariant forall i :: 0 <= i < |processors| ==>
                    processors[i].view == if i < k then Offer(old(processors[i].view), i, r)
                                          else old(processors[i].view)
      {
        OfferTo(k, r);
      }
    }

    /** One turn of the bus loop: take the oldest transaction and broadcast it. */
    method Turn()
      requires Valid() && requests != []
      modifies this`requests, this`state
      modifies (set p | p in processors)`requests, (set p | p in processors)`view
      ensures Valid() && state == Schedules.Broadcast(old(state))
    {
      var request := requests[0];
      requests := requests[1..];
      ghost var s' := Schedules.Broadcast(state);
      Process(request);
      Adopt(s');
    }

    method TurnOf(i: nat)
      requires Apart() && i < |processors| && processors[i].traces != []
      modifies this`requests, processors[i], processors[i].cache
      ensures Apart() && processors[i].view == TurnProc(old(processors[i].view), i)
      ensures forall j :: 0 <= j < |processors| && j != i ==> processors[j].view == old(processors[j].view)
      ensures requests == old(requests) + TurnIssues(old(processors[i].view), i)
    {
      processors[i].Turn(this);
      forall j | 0 <= j < |processors| && j != i ensures processors[j].Valid() {
        processors[j].Untouched();
      }
    }

    method AddTraceTo(i: nat, t: Trace)
      requires Apart() && i < |processors|
      modifies {processors[i]}`traces, {processors[i]}`view
      ensures Apart()
      ensures processors[i].view == old(processors[i].view).(traces := old(processors[i].view).traces + [t])
    {
      processors[i].AddTrace(t);
      forall j | 0 <= j < |processors| && j != i ensures processors[j].Valid() {
        processors[j].Untouched();
      }
    }

    /** The input loop hands a trace to processor `i`. */
    method Arrive(i: nat, t: Trace)
      requires Valid() && i < |processors|
      modifies this`state, {processors[i]}`traces, {processors[i]}`view
      ensures Valid() && state == Next(old(state), Enqueue(i, t))
    {
      CapsFromValid();
      ghost var s' := Next(state, Enqueue(i, t));
      AddTraceTo(i, t);
      Adopt(s');
    }

    /** Processor `i` serves its oldest trace. */
    method ServeNext(i: nat)
      requires Valid() && i < |processors| && processors[i].traces != []
      modifies this`requests, this`state, processors[i], processors[i].cache
      ensures Valid() && CapsOk(old(state)) && CanTurn(old(state), i) && state == Round(old(state), i)
    {
      CapsFromValid();
      assert processors[i].Valid();
      ghost var s' := Round(state, i);
      RoundIsTurn(state, i);
      TurnOf(i);
      Adopt(s');
    }

    method StatOfProcessor(i: nat) returns (stat: MetaStat)
      requires Apart() && i < |processors|
      modifies {processors[i]}`stat
      ensures Apart() && stat == StatOf(processors[i].view.core)
      ensures forall j :: 0 <= j < |processors| ==> processors[j].view == old(processors[j].view)
    {
      processors[i].PushStats();
      stat := processors[i].stat;
      forall j | 0 <= j < |processors| && j != i ensures processors[j].Valid() {
        processors[j].Untouched();
      }
    }

    /** Add up the statistics of all processors. */
    method Totals() returns (total: MetaStat)
      requires Valid()
      modifies (set p | p in processors)`stat
      ensures Valid() && total == SumStat(state.procs)
      ensures total.coldMisses == T.Sum(state.procs, (p: Proc) => p.core.cache.coldMisses)
      ensures total.capacityMisses == T.Sum(state.procs, (p: Proc) => p.core.cache.capacityMisses)
      ensures total.coherenceMisses == T.Sum(state.procs, (p: Proc) => p.core.coherenceMisses)
      ensures total.flushes == T.Sum(state.procs, (p: Proc) => p.core.flushes)
      ensures total.coldMisses + total.capacityMisses + total.coherenceMisses == TotalMisses(state.procs)
    {
      total := ZERO_STAT;
      ghost var procs := state.procs;
      for i := 0 to |processors|
        invariant Apart() && total == SumStat(procs[..i])
        invariant forall j :: 0 <= j < |processors| ==> processors[j].view == procs[j]
      {
        SumStatNext(procs, i);
        var stat := StatOfProcessor(i);
        total := total.Plus(stat);
      }
      assert procs[..|processors|] == procs;
      SumStatMisses(procs);
      SumStatCounters(procs);
    }
  }
}
