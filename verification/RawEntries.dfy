/** What a write leaves under an unaligned address is never read: no lookup uses such a
    key, so two systems that differ only in the lines stored under unaligned keys behave
    alike for ever. Those entries cost capacity, nothing else. */
module RawEntries {
  import opened Msi
  import opened Lru
  import opened Protocol
  import opened Machine

  /** The same keys in the same order, and the same lines under the aligned ones. */
  ghost predicate SameEntries(es: seq<Entry>, ds: seq<Entry>) {
    && |es| == |ds|
    && (forall i :: 0 <= i < |es| ==> es[i].key == ds[i].key)
    && (forall i :: 0 <= i < |es| && IsLine(es[i].key) ==> es[i] == ds[i])
  }

  ghost predicate SameCache(c: Cache, d: Cache) {
    && SameEntries(c.entries, d.entries) && c.cap == d.cap
    && c.coldMisses == d.coldMisses && c.capacityMisses == d.capacityMisses
  }

  lemma {:induction false} FindSame(es: seq<Entry>, ds: seq<Entry>, k: nat)
    requires SameEntries(es, ds)
    ensures Has(es, k) <==> Has(ds, k)
    ensures IsLine(k) ==> Find(es, k) == Find(ds, k)
  {
    if es != [] {
      FindSame(es[1..], ds[1..], k);
    }
  }

  lemma {:induction false} WithoutSame(es: seq<Entry>, ds: seq<Entry>, k: nat)
    requires SameEntries(es, ds)
    ensures SameEntries(Without(es, k), Without(ds, k))
  {
    if es != [] {
      WithoutSame(es[1..], ds[1..], k);
    }
  }

  lemma PutSame(c: Cache, d: Cache, k: nat, v: Cacheline, w: Cacheline)
    requires SameCache(c, d) && 1 <= c.cap && (IsLine(k) ==> v == w)
    ensures SameCache(Put(c, k, v), Put(d, k, w))
  {
    FindSame(c.entries, d.entries, k);
    WithoutSame(c.entries, d.entries, k);
  }

  lemma GetSame(c: Cache, d: Cache, k: nat, createNew: bool)
    requires SameCache(c, d) && 1 <= c.cap && IsLine(k)
    ensures SameCache(Get(c, k, createNew).0, Get(d, k, createNew).0)
    ensures Get(c, k, createNew).1 == Get(d, k, createNew).1
  {
    FindSame(c.entries, d.entries, k);
    WithoutSame(c.entries, d.entries, k);
    PutSame(c, d, k, FreshLine(k), FreshLine(k));
  }

  // ---- One processor ----

  ghost predicate SameCore(p: Core, q: Core) {
    SameCache(p.cache, q.cache) && p.coherenceMisses == q.coherenceMisses && p.flushes == q.flushes
  }

  lemma SnoopSame(p: Core, q: Core, r: BusTransaction)
    requires SameCore(p, q) && 1 <= p.cache.cap && IsLine(r.tag)
    ensures SameCore(Snoop(p, r), Snoop(q, r))
  {
    var (c, line) := Get(p.cache, r.tag, false);
    var d := Get(q.cache, r.tag, false).0;
    var line' := line.(state := SnoopTable(line.state, r.tsn));
    GetSame(p.cache, q.cache, r.tag, false);
    PutSame(c, d, r.tag, line', line');
  }

  lemma LookSame(p: Core, q: Core, op: PrTsn, addr: nat, cnt: int)
    requires SameCore(p, q) && 1 <= p.cache.cap
    ensures var l, m := Look(p, op, addr, cnt), Look(q, op, addr, cnt);
            SameCore(l.core, m.core) && l.line == m.line && l.isNew == m.isNew
  {
    var x := Convert(addr);
    var c1, d1 := Get(p.cache, x, false).0, Get(q.cache, x, false).0;
    GetSame(p.cache, q.cache, x, false);
    GetSame(c1, d1, x, true);
    var line := Get(c1, x, true).1.(cnt := cnt, tag := x);
    PutSame(Get(c1, x, true).0, Get(d1, x, true).0, addr, line, line);
  }

  lemma CommitSame(p: Core, q: Core, tid: nat, op: PrTsn, addr: nat, cnt: int)
    requires SameCore(p, q) && 1 <= p.cache.cap
    ensures var (p', issued), out := Commit(p, tid, op, addr, cnt), Commit(q, tid, op, addr, cnt);
            SameCore(p', out.0) && issued == out.1
  {
    LookSame(p, q, op, addr, cnt);
    var l, m := Look(p, op, addr, cnt), Look(q, op, addr, cnt);
    var line' := l.line.(state := Upgrade(l.line.state, op));
    PutSame(l.core.cache, m.core.cache, line'.tag, line', line');
  }

  // ---- The system ----

  ghost predicate SameProc(p: Proc, q: Proc) {
    SameCore(p.core, q.core) && q == p.(core := q.core)
  }

  ghost predicate SameSys(s: Sys, t: Sys) {
    && |s.procs| == |t.procs| && t == s.(procs := t.procs)
    && (forall i :: 0 <= i < |s.procs| ==> SameProc(s.procs[i], t.procs[i]))
  }

  lemma StepSame(s: Sys, t: Sys, step: Step)
    requires SysWf(s) && CapsOk(s) && CapsOk(t) && SameSys(s, t) && Enabled(s, step)
    ensures Enabled(t, step) && SameSys(Next(s, step), Next(t, step))
  {
    match step {
      case SnoopOne(i) =>
        assert SameProc(s.procs[i], t.procs[i]);
        SnoopSame(s.procs[i].core, t.procs[i].core, s.procs[i].requests[0]);
      case CommitStep(i) =>
        var r := s.procs[i].phase.t;
        assert SameProc(s.procs[i], t.procs[i]);
        CommitSame(s.procs[i].core, t.procs[i].core, i, OpOf(r), r.addr, r.cnt);
      case _ =>
    }
  }

  /** Whatever lies under unaligned keys, every run goes the same way: the same
      transactions, statistics, queues and recency orders, and the same aligned lines. */
  lemma {:induction false} RawEntriesAreNeverRead(s: Sys, t: Sys, steps: seq<Step>)
    requires SysWf(s) && CapsOk(s) && CapsOk(t) && SameSys(s, t) && Exec(s, steps).Some?
    ensures Exec(t, steps).Some? && SameSys(Exec(s, steps).value, Exec(t, steps).value)
  {
    if steps != [] {
      var before := steps[..|steps| - 1];
      RawEntriesAreNeverRead(s, t, before);
      ExecWf(s, before);
      StepSame(Exec(s, before).value, Exec(t, before).value, steps[|steps| - 1]);
    }
  }
}
