/** The statistics balance: modified lines, invalidations, misses and bus traffic of
    one processor, over every sequence of snoops and accesses. */
module Ledger {
  import opened Msi
  import opened Lru
  import opened Protocol

  function Bit(b: bool): nat {
    if b then 1 else 0
  }

  // ---- Counting resident lines ----

  /** Resident lines in state `st`; entries under unaligned keys are not lines. */
  function Count(es: seq<Entry>, st: State): nat {
    if es == [] then 0 else Bit(IsEntry(es[0], st)) + Count(es[1..], st)
  }

  predicate IsEntry(e: Entry, st: State) {
    IsLine(e.key) && e.line.state == st
  }

  /** Whether line `k` is resident in state `st`. */
  predicate Holds(c: Cache, k: nat, st: State) {
    IsLine(k) && Has(c.entries, k) && Find(c.entries, k).value.state == st
  }

  /** Whether putting `k` throws out a line in state `st`. */
  predicate Drops(c: Cache, k: nat, st: State) {
    Victim(c, k).Some? && IsEntry(Victim(c, k).value, st)
  }

  lemma {:induction false} CountWithout(es: seq<Entry>, k: nat, st: State)
    requires Distinct(es)
    ensures Count(es, st) == Count(Without(es, k), st) +
                             Bit(IsLine(k) && Has(es, k) && Find(es, k).value.state == st)
  {
    if es != [] {
      CountWithout(es[1..], k, st);
      if es[0].key == k {
        FindMember(es[1..], k);
        WithoutShape(es[1..], k);
      } else {
        assert Without(es, k)[1..] == Without(es[1..], k);
      }
    }
  }

  lemma {:induction false} CountInit(es: seq<Entry>, st: State)
    requires es != []
    ensures Count(es, st) == Count(es[..|es| - 1], st) + Bit(IsEntry(es[|es| - 1], st))
  {
    if |es| > 1 {
      assert es[..|es| - 1][1..] == es[1..][..|es| - 2];
      CountInit(es[1..], st);
    }
  }

  lemma CountPut(c: Cache, k: nat, v: Cacheline, st: State)
    requires Wf(c)
    ensures Count(Put(c, k, v).entries, st) + Bit(Holds(c, k, st)) + Bit(Drops(c, k, st)) ==
            Count(c.entries, st) + Bit(IsLine(k) && v.state == st)
  {
    var es := c.entries;
    assert Put(c, k, v).entries[1..] == if Has(es, k) then Without(es, k)
                                        else if |es| == c.cap then es[..|es| - 1] else es;
    CountWithout(es, k, st);
    if |es| == c.cap {
      CountInit(es, st);
    }
  }

  lemma CountHit(c: Cache, k: nat, st: State)
    requires Wf(c) && Has(c.entries, k)
    ensures Count(Get(c, k, true).0.entries, st) == Count(c.entries, st)
    ensures Get(c, k, false) == Get(c, k, true)
  {
    CountWithout(c.entries, k, st);
    assert Get(c, k, true).0.entries[1..] == Without(c.entries, k);
  }

  // ---- One snoop ----

  /** A snoop that turns a valid line invalid. */
  predicate Invalidates(p: Core, r: BusTransaction) {
    r.tag != 0 && Local(p, r.tag) != I && SnoopTable(Local(p, r.tag), r.tsn) == I
  }

  lemma SnoopCount(p: Core, r: BusTransaction, st: State)
    requires CoreWf(p) && IsLine(r.tag)
    ensures var moved := r.tag != 0 && Has(p.cache.entries, r.tag);
            Count(Snoop(p, r).cache.entries, st) + Bit(moved && Local(p, r.tag) == st) ==
            Count(p.cache.entries, st) + Bit(moved && SnoopTable(Local(p, r.tag), r.tsn) == st)
    ensures Snoop(p, r).flushes == p.flushes + Bit(r.tag != 0 && Local(p, r.tag) == M)
    ensures Snoop(p, r).coherenceMisses == p.coherenceMisses
    ensures Snoop(p, r).cache.coldMisses == p.cache.coldMisses
    ensures Snoop(p, r).cache.capacityMisses == p.cache.capacityMisses
  {
    var (c, line) := Get(p.cache, r.tag, false);
    ConvertIsIdentityOnLines(r.tag);
    GetTagged(p.cache, r.tag, false);
    GetFind(p.cache, r.tag, false, r.tag);
    if Has(p.cache.entries, r.tag) {
      CountHit(p.cache, r.tag, st);
      if line.tag != 0 {
        CountPut(c, r.tag, line.(state := SnoopTable(line.state, r.tsn)), st);
      }
    }
  }

  // ---- One access ----

  /** The cache after the two lookups of an access. */
  function Found(p: Core, addr: nat): Cache
    requires 1 <= p.cache.cap
  {
    Get(Get(p.cache, Convert(addr), false).0, Convert(addr), true).0
  }

  /** Lines in state `st` that an access evicts: at the creating lookup, when a write
      stores under its raw address, and when the bus stores the upgraded line. */
  function Lost(p: Core, op: PrTsn, addr: nat, cnt: int, st: State): nat
    requires 1 <= p.cache.cap
  {
    var x := Convert(addr);
    Bit(Drops(Get(p.cache, x, false).0, x, st)) +
    (if op == PrWr then Bit(Drops(Found(p, addr), addr, st)) else 0) +
    Bit(Drops(Look(p, op, addr, cnt).core.cache, x, st))
  }

  /** The raw store of a write cannot push out the line it belongs to. */
  predicate Roomy(cap: nat, op: PrTsn, addr: nat) {
    2 <= cap || op == PrRd || IsLine(addr)
  }

  lemma FoundFacts(p: Core, addr: nat)
    requires CoreWf(p)
    ensures var x, c := Convert(addr), Found(p, addr);
            && CoreWf(p.(cache := c)) && c.cap == p.cache.cap
            && c.entries != [] && c.entries[0].key == x
            && Has(c.entries, x) && StateIn(c, x) == Local(p, x)
  {
    var x := Convert(addr);
    ConvertIsIdentityOnLines(x);
    var c1 := Get(p.cache, x, false).0;
    GetTagged(p.cache, x, false);
    GetFind(p.cache, x, false, x);
    GetTagged(c1, x, true);
    GetFind(c1, x, true, x);
  }

  lemma FoundCount(p: Core, addr: nat, st: State)
    requires CoreWf(p)
    ensures var x := Convert(addr);
            var absent := !Has(p.cache.entries, x);
            && Count(Found(p, addr).entries, st) + Bit(Drops(Get(p.cache, x, false).0, x, st)) ==
               Count(p.cache.entries, st) + Bit(absent && st == I)
            && Found(p, addr).coldMisses + Found(p, addr).capacityMisses ==
               p.cache.coldMisses + p.cache.capacityMisses + Bit(absent)
  {
    var x := Convert(addr);
    var c1 := Get(p.cache, x, false).0;
    GetTagged(p.cache, x, false);
    GetFind(p.cache, x, false, x);
    if Has(p.cache.entries, x) {
      CountHit(p.cache, x, st);
      CountHit(c1, x, st);
    } else {
      CountPut(p.cache, x, FreshLine(x), st);
    }
  }

  /** The line survives the raw store, and its count moves only by what is evicted. */
  lemma LookCount(p: Core, op: PrTsn, addr: nat, cnt: int, st: State)
    requires CoreWf(p) && Roomy(p.cache.cap, op, addr)
    ensures var x, c, c' := Convert(addr), Found(p, addr), Look(p, op, addr, cnt).core.cache;
            && Has(c'.entries, x) && StateIn(c', x) == Local(p, x)
            && Count(c'.entries, st) + (if op == PrWr then Bit(Drops(c, addr, st)) else 0) == Count(c.entries, st)
  {
    var x, c := Convert(addr), Found(p, addr);
    FoundFacts(p, addr);
    LookEffect(p, op, addr, cnt);
    if op == PrWr {
      var line := Look(p, op, addr, cnt).line;
      ConvertIsIdentityOnLines(addr);
      CountPut(c, addr, line, st);
      PutFind(c, addr, line, x);
      if Victim(c, addr).Some? {
        FindAt(c.entries, |c.entries| - 1);
        assert !IsLine(addr) ==> c.entries[|c.entries| - 1].key != x;
      }
    }
  }

  /** An access replaces its line by the upgraded one and loses what it evicts. */
  lemma CommitCount(p: Core, tid: nat, op: PrTsn, addr: nat, cnt: int, st: State)
    requires CoreWf(p) && Roomy(p.cache.cap, op, addr)
    ensures var x, p' := Convert(addr), Commit(p, tid, op, addr, cnt).0;
            Count(p'.cache.entries, st) + Bit(Holds(p.cache, x, st)) + Lost(p, op, addr, cnt, st) ==
            Count(p.cache.entries, st) + Bit(Upgrade(Local(p, x), op) == st)
  {
    var l, x := Look(p, op, addr, cnt), Convert(addr);
    FoundCount(p, addr, st);
    LookCount(p, op, addr, cnt, st);
    LookEffect(p, op, addr, cnt);
    CountPut(l.core.cache, x, l.line.(state := Upgrade(l.line.state, op)), st);
  }

  lemma CommitStats(p: Core, tid: nat, op: PrTsn, addr: nat, cnt: int)
    requires CoreWf(p)
    ensures var x, p' := Convert(addr), Commit(p, tid, op, addr, cnt).0;
            && p'.flushes == p.flushes
            && p'.coherenceMisses == p.coherenceMisses +
               Bit(x != 0 && Has(p.cache.entries, x) && Local(p, x) == I)
  {
  }
}
