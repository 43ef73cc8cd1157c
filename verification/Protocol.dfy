/** What one processor does to its own cache: snooping a remote transaction,
    looking a line up for an access, and committing the access on the bus. */
module Protocol {
  import opened Msi
  import opened Lru

  datatype Core = Core(cache: Cache, coherenceMisses: nat, flushes: nat)

  function InitCore(cap: nat): Core {
    Core(EmptyCache(cap), 0, 0)
  }

  /** A remote transaction reaches the cache. A line with a null tag reads as absent. */
  function Snoop(p: Core, r: BusTransaction): (p': Core)
    requires 1 <= p.cache.cap
    ensures p'.cache.cap == p.cache.cap
  {
    var (c, line) := Get(p.cache, r.tag, false);
    if line.tag == 0 then p.(cache := c)
    else
      var line' := line.(state := SnoopTable(line.state, r.tsn));
      Core(Put(c, r.tag, line'), p.coherenceMisses, p.flushes + if line.state == M then 1 else 0)
  }

  /** Snoop a whole queue, oldest first. */
  function Drain(p: Core, rs: seq<BusTransaction>): (p': Core)
    requires 1 <= p.cache.cap
    ensures p'.cache.cap == p.cache.cap
    decreases rs
  {
    if rs == [] then p else Drain(Snoop(p, rs[0]), rs[1..])
  }

  /** The lookups of an access: what is left in the core, and what is handed to the bus. */
  datatype Looked = Looked(core: Core, line: Cacheline, isNew: bool)

  /** A read looks up its line; a write moreover stores the line under the raw address. */
  function Look(p: Core, op: PrTsn, addr: nat, cnt: int): (l: Looked)
    requires 1 <= p.cache.cap
    ensures l.core.cache.cap == p.cache.cap
  {
    var tag := Convert(addr);
    var (c1, res) := Get(p.cache, tag, false);
    var (c2, found) := Get(c1, tag, true);
    match op
    case PrRd => Looked(p.(cache := c2), found.(cnt := cnt), res.tag == 0)
    case PrWr =>
      var line := found.(cnt := cnt, tag := tag);
      Looked(p.(cache := Put(c2, addr, line)), line, res.tag == 0)
  }

  /** The transaction an access needs in state `st`. */
  function Request(st: State, op: PrTsn): Option<BusTsn> {
    match (st, op)
    case (I, PrRd) => Some(BusRd)
    case (I, PrWr) => Some(BusRdX)
    case (S, PrWr) => Some(BusRdX)
    case _ => None
  }

  /** The state an access leaves a line in at the requester. */
  function Upgrade(st: State, op: PrTsn): State {
    match (st, op)
    case (I, PrRd) => S
    case (_, PrWr) => M
    case _ => st
  }

  /** The bus serialises an access: upgrade the line and queue the transaction. */
  function Push(p: Core, line: Cacheline, tid: nat, op: PrTsn, isNew: bool):
    (out: (Core, Option<BusTransaction>))
    requires 1 <= p.cache.cap
    ensures out.0.cache.cap == p.cache.cap && (out.1.Some? ==> out.1.value.tid == tid)
  {
    var line' := line.(state := Upgrade(line.state, op));
    var missed := line.state == I && !isNew;
    var p' := Core(Put(p.cache, line'.tag, line'), p.coherenceMisses + (if missed then 1 else 0), p.flushes);
    match Request(line.state, op)
    case None => (p', None)
    case Some(tsn) => (p', Some(BusTransaction(line'.tag, tid, tsn, line'.cnt)))
  }

  function Commit(p: Core, tid: nat, op: PrTsn, addr: nat, cnt: int): (out: (Core, Option<BusTransaction>))
    requires 1 <= p.cache.cap
    ensures out.0.cache.cap == p.cache.cap && (out.1.Some? ==> out.1.value.tid == tid)
  {
    var l := Look(p, op, addr, cnt);
    Push(l.core, l.line, tid, op, l.isNew)
  }

  // ---- Tags ----

  /** Every entry under key `k` stores the tag of the line that contains `k`. */
  ghost predicate Tagged(c: Cache) {
    forall k | Has(c.entries, k) :: Find(c.entries, k).value.tag == Convert(k)
  }

  ghost predicate CoreWf(p: Core) {
    Wf(p.cache) && Tagged(p.cache)
  }

  /** The local state of a line; absent counts as invalid. */
  function StateIn(c: Cache, x: nat): State {
    match Find(c.entries, x) case None => I case Some(line) => line.state
  }

  function Local(p: Core, x: nat): State {
    StateIn(p.cache, x)
  }

  lemma PutTagged(c: Cache, k: nat, v: Cacheline)
    requires Wf(c) && Tagged(c) && v.tag == Convert(k)
    ensures Wf(Put(c, k, v)) && Tagged(Put(c, k, v))
  {
    PutWf(c, k, v);
    forall j | Has(Put(c, k, v).entries, j)
      ensures Find(Put(c, k, v).entries, j).value.tag == Convert(j)
    {
      PutFind(c, k, v, j);
    }
  }

  lemma GetTagged(c: Cache, k: nat, createNew: bool)
    requires Wf(c) && Tagged(c) && IsLine(k)
    ensures Wf(Get(c, k, createNew).0) && Tagged(Get(c, k, createNew).0)
  {
    ConvertIsIdentityOnLines(k);
    GetWf(c, k, createNew);
    forall j | Has(Get(c, k, createNew).0.entries, j)
      ensures Find(Get(c, k, createNew).0.entries, j).value.tag == Convert(j)
    {
      GetFind(c, k, createNew, j);
    }
  }

  // ---- Snooping, line by line ----

  /** The effect of one remote transaction on line `x`. The null line never reacts. */
  function SnoopLine(x: nat, st: State, r: BusTransaction): State {
    if r.tag == x && x != 0 then SnoopTable(st, r.tsn) else st
  }

  lemma SnoopKeepsWf(p: Core, r: BusTransaction)
    requires CoreWf(p) && IsLine(r.tag)
    ensures CoreWf(Snoop(p, r))
  {
    var (c, line) := Get(p.cache, r.tag, false);
    ConvertIsIdentityOnLines(r.tag);
    GetTagged(p.cache, r.tag, false);
    if line.tag != 0 {
      PutTagged(c, r.tag, line.(state := SnoopTable(line.state, r.tsn)));
    }
  }

  /** Snooping adds and drops no key, and moves one line by the table. */
  lemma SnoopEffect(p: Core, r: BusTransaction, x: nat)
    requires CoreWf(p) && IsLine(r.tag)
    ensures Local(Snoop(p, r), x) == SnoopLine(x, Local(p, x), r)
    ensures Has(Snoop(p, r).cache.entries, x) == Has(p.cache.entries, x)
    ensures Has(p.cache.entries, x) ==>
              var line := Find(p.cache.entries, x).value;
              Find(Snoop(p, r).cache.entries, x) == Some(line.(state := SnoopLine(x, line.state, r)))
  {
    var (c, line) := Get(p.cache, r.tag, false);
    ConvertIsIdentityOnLines(r.tag);
    GetTagged(p.cache, r.tag, false);
    GetFind(p.cache, r.tag, false, x);
    GetFind(p.cache, r.tag, false, r.tag);
    if line.tag != 0 {
      PutFind(c, r.tag, line.(state := SnoopTable(line.state, r.tsn)), x);
    }
  }

  function FoldLine(x: nat, st: State, rs: seq<BusTransaction>): State
    decreases rs
  {
    if rs == [] then st else FoldLine(x, SnoopLine(x, st, rs[0]), rs[1..])
  }

  lemma {:induction false} FoldAppend(x: nat, st: State, a: seq<BusTransaction>, b: seq<BusTransaction>)
    ensures FoldLine(x, st, a + b) == FoldLine(x, FoldLine(x, st, a), b)
    decreases a
  {
    if a == [] {
      assert a + b == b;
    } else {
      assert (a + b)[1..] == a[1..] + b;
      FoldAppend(x, SnoopLine(x, st, a[0]), a[1..], b);
    }
  }

  /** Snooping only lowers a state. */
  lemma {:induction false} FoldLowers(x: nat, st: State, rs: seq<BusTransaction>)
    ensures Rank(FoldLine(x, st, rs)) <= Rank(st)
    decreases rs
  {
    if rs != [] {
      FoldLowers(x, SnoopLine(x, st, rs[0]), rs[1..]);
    }
  }

  ghost predicate Aligned(rs: seq<BusTransaction>) {
    forall r | r in rs :: IsLine(r.tag)
  }

  /** Draining a queue moves every line exactly as folding the table over the queue. */
  lemma {:induction false} DrainEffect(p: Core, rs: seq<BusTransaction>, x: nat)
    requires CoreWf(p) && Aligned(rs)
    ensures CoreWf(Drain(p, rs))
    ensures Local(Drain(p, rs), x) == FoldLine(x, Local(p, x), rs)
    decreases rs
  {
    if rs != [] {
      SnoopKeepsWf(p, rs[0]);
      SnoopEffect(p, rs[0], x);
      DrainEffect(Snoop(p, rs[0]), rs[1..], x);
    }
  }

  lemma {:induction false} DrainAppend(p: Core, a: seq<BusTransaction>, b: seq<BusTransaction>)
    requires 1 <= p.cache.cap
    ensures Drain(p, a + b) == Drain(Drain(p, a), b)
    decreases a
  {
    if a == [] {
      assert a + b == b;
    } else {
      assert (a + b)[1..] == a[1..] + b;
      DrainAppend(Snoop(p, a[0]), a[1..], b);
    }
  }

  // ---- Committing, line by line ----

  /** The line handed to the bus: the one in the cache, or a fresh invalid one. */
  lemma LookEffect(p: Core, op: PrTsn, addr: nat, cnt: int)
    requires CoreWf(p)
    ensures var l, x := Look(p, op, addr, cnt), Convert(addr);
            && CoreWf(l.core)
            && l.line == Cacheline(x, Local(p, x), cnt)
            && (l.isNew <==> x == 0 || !Has(p.cache.entries, x))
            && (op == PrWr ==> Find(l.core.cache.entries, addr) == Some(l.line))
  {
    var x := Convert(addr);
    ConvertIsIdentityOnLines(x);
    var c1 := Get(p.cache, x, false).0;
    GetTagged(p.cache, x, false);
    GetFind(p.cache, x, false, x);
    GetTagged(c1, x, true);
    GetFind(c1, x, true, x);
    if op == PrWr {
      PutTagged(Get(c1, x, true).0, addr, Look(p, op, addr, cnt).line);
      PutFind(Get(c1, x, true).0, addr, Look(p, op, addr, cnt).line, addr);
    }
  }

  /** Lookups keep every other line or lose it to an eviction. */
  lemma LookOthers(p: Core, op: PrTsn, addr: nat, cnt: int, y: nat)
    requires CoreWf(p) && IsLine(y) && y != Convert(addr)
    ensures var c, c' := p.cache, Look(p, op, addr, cnt).core.cache;
            Find(c'.entries, y) == Find(c.entries, y) || Find(c'.entries, y) == None
  {
    var x := Convert(addr);
    ConvertIsIdentityOnLines(y);
    var c1 := Get(p.cache, x, false).0;
    GetTagged(p.cache, x, false);
    GetFind(p.cache, x, false, y);
    GetTagged(c1, x, true);
    GetFind(c1, x, true, y);
    if op == PrWr {
      PutFind(Get(c1, x, true).0, addr, Look(p, op, addr, cnt).line, y);
    }
  }

  /** The lookups leave every line in its state or lose it. */
  lemma LookLowers(p: Core, op: PrTsn, addr: nat, cnt: int, y: nat)
    requires CoreWf(p) && IsLine(y)
    ensures Local(Look(p, op, addr, cnt).core, y) == Local(p, y) || Local(Look(p, op, addr, cnt).core, y) == I
  {
    var x := Convert(addr);
    if y != x {
      LookOthers(p, op, addr, cnt, y);
    } else {
      var c1 := Get(p.cache, x, false).0;
      GetTagged(p.cache, x, false);
      GetFind(p.cache, x, false, x);
      GetTagged(c1, x, true);
      GetFind(c1, x, true, x);
      LookEffect(p, op, addr, cnt);
      if op == PrWr {
        PutFind(Get(c1, x, true).0, addr, Look(p, op, addr, cnt).line, x);
      }
    }
  }

  /** A commit upgrades its line and issues the transaction the old state calls for;
      every other line stays or is evicted. */
  lemma CommitEffect(p: Core, tid: nat, op: PrTsn, addr: nat, cnt: int)
    requires CoreWf(p)
    ensures var (p', issued) := Commit(p, tid, op, addr, cnt);
            var x := Convert(addr);
            var st := Local(p, x);
            && CoreWf(p')
            && Local(p', x) == Upgrade(st, op)
            && Find(p'.cache.entries, x) == Some(Cacheline(x, Upgrade(st, op), cnt))
            && issued == (match Request(st, op)
                          case None => None
                          case Some(tsn) => Some(BusTransaction(x, tid, tsn, cnt)))
  {
    var l, x := Look(p, op, addr, cnt), Convert(addr);
    LookEffect(p, op, addr, cnt);
    ConvertIsIdentityOnLines(x);
    var line' := l.line.(state := Upgrade(l.line.state, op));
    PutTagged(l.core.cache, x, line');
    PutFind(l.core.cache, x, line', x);
  }

  lemma CommitOthers(p: Core, tid: nat, op: PrTsn, addr: nat, cnt: int, y: nat)
    requires CoreWf(p) && IsLine(y) && y != Convert(addr)
    ensures var p' := Commit(p, tid, op, addr, cnt).0;
            Local(p', y) == Local(p, y) || Local(p', y) == I
  {
    var l, x := Look(p, op, addr, cnt), Convert(addr);
    LookEffect(p, op, addr, cnt);
    LookOthers(p, op, addr, cnt, y);
    PutFind(l.core.cache, x, l.line.(state := Upgrade(l.line.state, op)), y);
  }

  /** A line other than the one addressed that is still there is as it was. */
  lemma CommitKeeps(p: Core, tid: nat, op: PrTsn, addr: nat, cnt: int, y: nat)
    requires CoreWf(p) && IsLine(y) && y != Convert(addr)
    ensures var c' := Commit(p, tid, op, addr, cnt).0.cache;
            Has(c'.entries, y) ==> Find(c'.entries, y) == Find(p.cache.entries, y)
  {
    var l, x := Look(p, op, addr, cnt), Convert(addr);
    LookEffect(p, op, addr, cnt);
    LookOthers(p, op, addr, cnt, y);
    PutFind(l.core.cache, x, l.line.(state := Upgrade(l.line.state, op)), y);
  }
}
