/** What a larger cache does for one processor: whatever it snoops and accesses, the
    larger cache holds every line the smaller one holds, in at least as strong a state,
    and counts no more misses. */
module Capacity {
  import opened Msi
  import opened Lru
  import opened LruRecency
  import opened LruInclusion
  import opened Protocol
  import opened Machine
  import opened Ledger
  import opened Accounts

  ghost predicate KeysIncluded(c: Cache, d: Cache) {
    Included(Keys(c.entries), c.cap, Keys(d.entries), d.cap)
  }

  /** At key level a put does not depend on the line. */
  lemma PutIncluded(c: Cache, d: Cache, k: nat, v: Cacheline, w: Cacheline)
    requires KeysIncluded(c, d)
    ensures KeysIncluded(Put(c, k, v), Put(d, k, w))
  {
    ApplyIncluded(c, d, PutOp(k, v));
    ApplyKeys(d, PutOp(k, v));
    ApplyKeys(d, PutOp(k, w));
  }

  lemma GetIncluded(c: Cache, d: Cache, k: nat, createNew: bool)
    requires KeysIncluded(c, d)
    ensures KeysIncluded(Get(c, k, createNew).0, Get(d, k, createNew).0)
  {
    ApplyIncluded(c, d, GetOp(k, createNew));
  }

  lemma IncludedHas(c: Cache, d: Cache, k: nat)
    requires KeysIncluded(c, d) && Has(c.entries, k)
    ensures Has(d.entries, k)
  {
    HasKey(c.entries, k);
    HasKey(d.entries, k);
    SubseqMembers(Keys(c.entries), Keys(d.entries));
  }

  /** Storing under the key at the front moves no key. */
  lemma PutFrontKeys(c: Cache, k: nat, v: Cacheline)
    requires Wf(c) && c.entries != [] && c.entries[0].key == k
    ensures Keys(Put(c, k, v).entries) == Keys(c.entries)
  {
    FindMember(c.entries[1..], k);
    WithoutShape(c.entries[1..], k);
  }

  lemma SnoopKeys(p: Core, r: BusTransaction)
    requires CoreWf(p)
    ensures Keys(Snoop(p, r).cache.entries) == Keys(Get(p.cache, r.tag, false).0.entries)
  {
    var (c, line) := Get(p.cache, r.tag, false);
    GetWf(p.cache, r.tag, false);
    if line.tag != 0 {
      PutFrontKeys(c, r.tag, line.(state := SnoopTable(line.state, r.tsn)));
    }
  }

  // ---- One event ----

  /** The core with the smaller cache lags behind the one with the larger. */
  ghost predicate Below(p: Core, q: Core) {
    && KeysIncluded(p.cache, q.cache)
    && (forall k | IsLine(k) :: Rank(Local(p, k)) <= Rank(Local(q, k)))
    && Misses(q) <= Misses(p)
  }

  lemma SnoopBelow(p: Core, q: Core, r: BusTransaction)
    requires CoreWf(p) && CoreWf(q) && IsLine(r.tag) && Below(p, q)
    ensures Below(Snoop(p, r), Snoop(q, r))
  {
    GetIncluded(p.cache, q.cache, r.tag, false);
    SnoopKeys(p, r);
    SnoopKeys(q, r);
    SnoopCount(p, r, I);
    SnoopCount(q, r, I);
    forall k | IsLine(k) ensures Rank(Local(Snoop(p, r), k)) <= Rank(Local(Snoop(q, r), k)) {
      SnoopEffect(p, r, k);
      SnoopEffect(q, r, k);
    }
  }

  lemma FoundIncluded(p: Core, q: Core, addr: nat)
    requires KeysIncluded(p.cache, q.cache)
    ensures KeysIncluded(Found(p, addr), Found(q, addr))
  {
    var x := Convert(addr);
    GetIncluded(p.cache, q.cache, x, false);
    GetIncluded(Get(p.cache, x, false).0, Get(q.cache, x, false).0, x, true);
  }

  lemma CommitIncluded(p: Core, q: Core, tid: nat, op: PrTsn, addr: nat, cnt: int)
    requires CoreWf(p) && CoreWf(q) && KeysIncluded(p.cache, q.cache)
    ensures KeysIncluded(Commit(p, tid, op, addr, cnt).0.cache, Commit(q, tid, op, addr, cnt).0.cache)
  {
    var l, m := Look(p, op, addr, cnt), Look(q, op, addr, cnt);
    LookEffect(p, op, addr, cnt);
    LookEffect(q, op, addr, cnt);
    FoundIncluded(p, q, addr);
    if op == PrWr {
      PutIncluded(Found(p, addr), Found(q, addr), addr, l.line, m.line);
    }
    PutIncluded(l.core.cache, m.core.cache, Convert(addr), l.line.(state := Upgrade(l.line.state, op)),
                m.line.(state := Upgrade(m.line.state, op)));
  }

  lemma CommitRanks(p: Core, q: Core, tid: nat, op: PrTsn, addr: nat, cnt: int, k: nat)
    requires CoreWf(p) && CoreWf(q) && Below(p, q) && IsLine(k)
    ensures Rank(Local(Commit(p, tid, op, addr, cnt).0, k)) <= Rank(Local(Commit(q, tid, op, addr, cnt).0, k))
  {
    var p', q' := Commit(p, tid, op, addr, cnt).0, Commit(q, tid, op, addr, cnt).0;
    assert Rank(Local(p, k)) <= Rank(Local(q, k));
    if k == Convert(addr) {
      CommitEffect(p, tid, op, addr, cnt);
      CommitEffect(q, tid, op, addr, cnt);
    } else if Has(p'.cache.entries, k) {
      CommitIncluded(p, q, tid, op, addr, cnt);
      IncludedHas(p'.cache, q'.cache, k);
      CommitKeeps(p, tid, op, addr, cnt, k);
      CommitKeeps(q, tid, op, addr, cnt, k);
    }
  }

  lemma CommitMisses(p: Core, q: Core, tid: nat, op: PrTsn, addr: nat, cnt: int)
    requires CoreWf(p) && CoreWf(q) && NullLineValid(p) && NullLineValid(q) && Below(p, q)
    ensures Misses(Commit(q, tid, op, addr, cnt).0) <= Misses(Commit(p, tid, op, addr, cnt).0)
  {
    MissesOfAccess(p, tid, op, addr, cnt);
    MissesOfAccess(q, tid, op, addr, cnt);
    assert Rank(Local(p, Convert(addr))) <= Rank(Local(q, Convert(addr)));
    if RawMiss(q.cache, op, addr) {
      RawMissAtStore(p, addr);
      RawMissAtStore(q, addr);
      FoundIncluded(p, q, addr);
      if Has(Found(p, addr).entries, addr) {
        IncludedHas(Found(p, addr), Found(q, addr), addr);
      }
    }
  }

  lemma CommitBelow(p: Core, q: Core, tid: nat, op: PrTsn, addr: nat, cnt: int)
    requires CoreWf(p) && CoreWf(q) && NullLineValid(p) && NullLineValid(q) && Below(p, q)
    ensures Below(Commit(p, tid, op, addr, cnt).0, Commit(q, tid, op, addr, cnt).0)
  {
    CommitIncluded(p, q, tid, op, addr, cnt);
    CommitMisses(p, q, tid, op, addr, cnt);
    forall k | IsLine(k)
      ensures Rank(Local(Commit(p, tid, op, addr, cnt).0, k)) <= Rank(Local(Commit(q, tid, op, addr, cnt).0, k))
    {
      CommitRanks(p, q, tid, op, addr, cnt, k);
    }
  }

  // ---- Whole histories ----

  /** For every history of snoops and accesses, unaligned writes included, and all
      capacities: the larger cache includes the smaller, every line is in at least as
      strong a state in it, and it has missed no more often. */
  lemma {:induction false} LargerReplayDominates(s: nat, l: nat, tid: nat, es: seq<Event>)
    requires 1 <= s <= l && TagsAligned(es)
    ensures Below(Replay(s, tid, es), Replay(l, tid, es))
  {
    if es != [] {
      var before, e := es[..|es| - 1], es[|es| - 1];
      var p, q := Replay(s, tid, before), Replay(l, tid, before);
      LargerReplayDominates(s, l, tid, before);
      ReplayWf(s, tid, before);
      ReplayWf(l, tid, before);
      match e {
        case Snooped(r) => SnoopBelow(p, q, r);
        case Accessed(op, addr, cnt) => CommitBelow(p, q, tid, op, addr, cnt);
      }
    }
  }
}
