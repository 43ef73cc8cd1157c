/** What is in a processor's cache, and in which order: the most recently touched keys,
    where hearing of a resident line touches it, a read touches its line, and a write
    touches its line, the raw address, and its line again. */
module CoreRecency {
  import opened Msi
  import opened Lru
  import opened LruRecency
  import opened Protocol
  import opened Machine
  import opened Ledger
  import opened Accounts
  import opened Capacity

  // ---- One event ----

  lemma SnoopTouches(p: Core, r: BusTransaction)
    requires CoreWf(p)
    ensures var ks := Keys(p.cache.entries);
            Keys(Snoop(p, r).cache.entries) == if r.tag in ks then TouchKeys(ks, r.tag, p.cache.cap) else ks
  {
    SnoopKeys(p, r);
    ApplyKeys(p.cache, GetOp(r.tag, false));
    HasKey(p.cache.entries, r.tag);
  }

  lemma GetFrontKeys(c: Cache, k: nat)
    requires Wf(c) && c.entries != [] && c.entries[0].key == k
    ensures Keys(Get(c, k, true).0.entries) == Keys(c.entries)
  {
    FindMember(c.entries[1..], k);
    WithoutShape(c.entries[1..], k);
  }

  /** The two lookups of an access touch its line once. */
  lemma FoundTouches(p: Core, addr: nat)
    requires CoreWf(p)
    ensures Keys(Found(p, addr).entries) == TouchKeys(Keys(p.cache.entries), Convert(addr), p.cache.cap)
  {
    var x := Convert(addr);
    var c1 := Get(p.cache, x, false).0;
    GetWf(p.cache, x, false);
    ApplyKeys(p.cache, GetOp(x, true));
    if Has(p.cache.entries, x) {
      assert c1 == Get(p.cache, x, true).0;
      GetFrontKeys(c1, x);
    }
  }

  lemma ReadTouches(p: Core, tid: nat, addr: nat, cnt: int)
    requires CoreWf(p)
    ensures Keys(Commit(p, tid, PrRd, addr, cnt).0.cache.entries) ==
            TouchKeys(Keys(p.cache.entries), Convert(addr), p.cache.cap)
  {
    var l := Look(p, PrRd, addr, cnt);
    LookEffect(p, PrRd, addr, cnt);
    FoundFacts(p, addr);
    FoundTouches(p, addr);
    PutFrontKeys(l.core.cache, Convert(addr), l.line.(state := Upgrade(l.line.state, PrRd)));
  }

  /** A write, to any address: its line, the raw address, and its line again. */
  lemma WriteTouches(p: Core, tid: nat, addr: nat, cnt: int)
    requires CoreWf(p)
    ensures var ks, x, cap := Keys(p.cache.entries), Convert(addr), p.cache.cap;
            Keys(Commit(p, tid, PrWr, addr, cnt).0.cache.entries) ==
            TouchKeys(TouchKeys(TouchKeys(ks, x, cap), addr, cap), x, cap)
  {
    var l := Look(p, PrWr, addr, cnt);
    LookEffect(p, PrWr, addr, cnt);
    FoundFacts(p, addr);
    FoundTouches(p, addr);
    ApplyKeys(Found(p, addr), PutOp(addr, l.line));
    ApplyKeys(l.core.cache, PutOp(Convert(addr), l.line.(state := Upgrade(l.line.state, PrWr))));
  }

  // ---- Whole histories ----

  /** What one event touches, given what is resident. */
  function Touched(ks: seq<nat>, e: Event): seq<nat> {
    match e
    case Snooped(r) => if r.tag in ks then [r.tag] else []
    case Accessed(op, addr, _) => if op == PrRd then [Convert(addr)] else [Convert(addr), addr, Convert(addr)]
  }

  /** Everything a history touches, oldest first. */
  function TouchLog(cap: nat, tid: nat, es: seq<Event>): seq<nat>
    requires 1 <= cap
  {
    if es == [] then []
    else
      var before := es[..|es| - 1];
      TouchLog(cap, tid, before) + Touched(Keys(Replay(cap, tid, before).cache.entries), es[|es| - 1])
  }

  lemma WriteIsRecent(ks: seq<nat>, x: nat, addr: nat, log: seq<nat>, cap: nat)
    requires MostRecent(ks, log, cap) && 1 <= cap
    ensures MostRecent(TouchKeys(TouchKeys(TouchKeys(ks, x, cap), addr, cap), x, cap), log + [x] + [addr] + [x], cap)
  {
    TouchIsRecent(ks, x, log, cap);
    TouchIsRecent(TouchKeys(ks, x, cap), addr, log + [x], cap);
    TouchIsRecent(TouchKeys(TouchKeys(ks, x, cap), addr, cap), x, log + [x] + [addr], cap);
  }

  lemma AppendThree(log: seq<nat>, x: nat, y: nat, z: nat)
    ensures log + [x, y, z] == log + [x] + [y] + [z]
  {
  }

  lemma EventIsRecent(p: Core, tid: nat, e: Event, log: seq<nat>)
    requires CoreWf(p) && MostRecent(Keys(p.cache.entries), log, p.cache.cap)
    ensures var ks := Keys(p.cache.entries);
            MostRecent(Keys(AfterEvent(p, tid, e).cache.entries), log + Touched(ks, e), p.cache.cap)
  {
    var ks, cap := Keys(p.cache.entries), p.cache.cap;
    match e {
      case Snooped(r) =>
        SnoopTouches(p, r);
        if r.tag in ks {
          TouchIsRecent(ks, r.tag, log, cap);
        } else {
          assert log + [] == log;
        }
      case Accessed(op, addr, cnt) =>
        if op == PrRd {
          ReadTouches(p, tid, addr, cnt);
          TouchIsRecent(ks, Convert(addr), log, cap);
        } else {
          WriteTouches(p, tid, addr, cnt);
          WriteIsRecent(ks, Convert(addr), addr, log, cap);
          AppendThree(log, Convert(addr), addr, Convert(addr));
        }
    }
  }

  /** After every history the cache holds exactly the most recently touched keys, most
      recent first. */
  lemma {:induction false} HistoryIsMostRecent(cap: nat, tid: nat, es: seq<Event>)
    requires 1 <= cap && TagsAligned(es)
    ensures MostRecent(Keys(Replay(cap, tid, es).cache.entries), TouchLog(cap, tid, es), cap)
  {
    if es != [] {
      var before := es[..|es| - 1];
      HistoryIsMostRecent(cap, tid, before);
      ReplayWf(cap, tid, before);
      EventIsRecent(Replay(cap, tid, before), tid, es[|es| - 1], TouchLog(cap, tid, before));
    }
  }

  // ---- Cold and capacity misses ----

  /** Cold misses count the resident entries. */
  ghost predicate Counted(c: Cache) {
    Wf(c) && c.coldMisses == |c.entries|
  }

  lemma PutCounts(c: Cache, k: nat, v: Cacheline)
    requires Counted(c)
    ensures Counted(Put(c, k, v))
    ensures Put(c, k, v).capacityMisses == c.capacityMisses + Bit(Victim(c, k).Some?)
  {
    PutWf(c, k, v);
    WithoutShape(c.entries, k);
  }

  lemma GetCounts(c: Cache, k: nat, createNew: bool)
    requires Counted(c)
    ensures var c' := Get(c, k, createNew).0;
            Counted(c') && c'.capacityMisses == c.capacityMisses + Bit(createNew && Victim(c, k).Some?)
  {
    GetWf(c, k, createNew);
    WithoutShape(c.entries, k);
    PutCounts(c, k, FreshLine(k));
  }

  /** The entries an event evicts: at the creating lookup, at the raw store, and when the
      bus stores the line. */
  function Evicted(p: Core, e: Event): nat
    requires 1 <= p.cache.cap
  {
    match e
    case Snooped(_) => 0
    case Accessed(op, addr, cnt) =>
      var x := Convert(addr);
      Bit(Victim(Get(p.cache, x, false).0, x).Some?) +
      (if op == PrWr then Bit(Victim(Found(p, addr), addr).Some?) else 0) +
      Bit(Victim(Look(p, op, addr, cnt).core.cache, x).Some?)
  }

  function Evictions(cap: nat, tid: nat, es: seq<Event>): nat
    requires 1 <= cap
  {
    if es == [] then 0
    else
      var before := es[..|es| - 1];
      Evictions(cap, tid, before) + Evicted(Replay(cap, tid, before), es[|es| - 1])
  }

  lemma EventCounts(p: Core, tid: nat, e: Event)
    requires CoreWf(p) && Counted(p.cache)
    ensures var c' := AfterEvent(p, tid, e).cache;
            Counted(c') && c'.capacityMisses == p.cache.capacityMisses + Evicted(p, e)
  {
    match e {
      case Snooped(r) =>
        var (c, line) := Get(p.cache, r.tag, false);
        GetCounts(p.cache, r.tag, false);
        GetFind(p.cache, r.tag, false, r.tag);
        if line.tag != 0 {
          PutCounts(c, r.tag, line.(state := SnoopTable(line.state, r.tsn)));
        }
      case Accessed(op, addr, cnt) =>
        var x, l := Convert(addr), Look(p, op, addr, cnt);
        GetCounts(p.cache, x, false);
        GetCounts(Get(p.cache, x, false).0, x, true);
        LookEffect(p, op, addr, cnt);
        if op == PrWr {
          PutCounts(Found(p, addr), addr, l.line);
        }
        PutCounts(l.core.cache, x, l.line.(state := Upgrade(l.line.state, op)));
    }
  }

  /** After every history cold misses equal the resident entries, so they never exceed the
      capacity, and capacity misses equal the evictions. */
  lemma {:induction false} HistoryCounts(cap: nat, tid: nat, es: seq<Event>)
    requires 1 <= cap && TagsAligned(es)
    ensures Counted(Replay(cap, tid, es).cache)
    ensures Replay(cap, tid, es).cache.capacityMisses == Evictions(cap, tid, es)
  {
    if es != [] {
      var before := es[..|es| - 1];
      HistoryCounts(cap, tid, before);
      ReplayWf(cap, tid, before);
      EventCounts(Replay(cap, tid, before), tid, es[|es| - 1]);
    }
  }

  // ---- Reachable states ----

  /** In every reachable state every cache holds the keys its processor touched last, in
      order; cold misses count them and capacity misses count the evictions. */
  lemma ReachableRecency(n: nat, cap: nat, s: Sys, i: nat)
    requires Reachable(n, cap, s) && i < |s.procs|
    ensures var c, es := s.procs[i].core.cache, s.procs[i].history;
            && MostRecent(Keys(c.entries), TouchLog(cap, i, es), cap)
            && c.coldMisses == |c.entries| <= cap && c.capacityMisses == Evictions(cap, i, es)
  {
    HistoriesExplain(n, cap, s, i);
    HistoryIsMostRecent(cap, i, s.procs[i].history);
    HistoryCounts(cap, i, s.procs[i].history);
  }
}
