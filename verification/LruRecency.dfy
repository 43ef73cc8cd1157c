/** What any sequence of `get` and `put` calls leaves in the cache: the most
    recently touched keys, most recent first, each with its last stored line. */
module LruRecency {
  import opened Msi
  import opened Lru

  datatype CacheOp = PutOp(key: nat, line: Cacheline) | GetOp(key: nat, createNew: bool)

  function Apply(c: Cache, op: CacheOp): Cache
    requires 1 <= c.cap
  {
    match op
    case PutOp(k, v) => Put(c, k, v)
    case GetOp(k, createNew) => Get(c, k, createNew).0
  }

  function Run(cap: nat, ops: seq<CacheOp>): (c: Cache)
    requires 1 <= cap
    ensures c.cap == cap
  {
    if ops == [] then EmptyCache(cap)
    else Apply(Run(cap, ops[..|ops| - 1]), ops[|ops| - 1])
  }

  /** A touch is a put, a hit, or a creating get; a plain miss touches nothing. */
  predicate IsTouch(c: Cache, op: CacheOp) {
    op.PutOp? || op.createNew || Has(c.entries, op.key)
  }

  /** The keys touched by a run, oldest first. */
  function Touches(cap: nat, ops: seq<CacheOp>): seq<nat>
    requires 1 <= cap
  {
    if ops == [] then []
    else
      var before, op := ops[..|ops| - 1], ops[|ops| - 1];
      Touches(cap, before) + (if IsTouch(Run(cap, before), op) then [op.key] else [])
  }

  /** Position of the last touch of `k`, or -1. */
  function LastTouch(log: seq<nat>, k: nat): (p: int)
    ensures -1 <= p < |log|
    ensures p >= 0 <==> k in log
    ensures p >= 0 ==> log[p] == k
  {
    if log == [] then -1
    else if log[|log| - 1] == k then |log| - 1
    else
      assert k in log <==> k in log[..|log| - 1];
      LastTouch(log[..|log| - 1], k)
  }

  /** The line stored last under `k`: by a put, or by a creating get that missed. */
  function LastStored(cap: nat, ops: seq<CacheOp>, k: nat): Option<Cacheline>
    requires 1 <= cap
  {
    if ops == [] then None
    else
      var before, op := ops[..|ops| - 1], ops[|ops| - 1];
      if op.key != k then LastStored(cap, before, k)
      else if op.PutOp? then Some(op.line)
      else if op.createNew && !Has(Run(cap, before).entries, k) then Some(FreshLine(k))
      else LastStored(cap, before, k)
  }

  function Keys(es: seq<Entry>): (ks: seq<nat>)
    ensures |ks| == |es| && forall i :: 0 <= i < |es| ==> ks[i] == es[i].key
  {
    seq(|es|, i requires 0 <= i < |es| => es[i].key)
  }

  ghost predicate Descending(ks: seq<nat>, log: seq<nat>) {
    forall i, j :: 0 <= i < j < |ks| ==> LastTouch(log, ks[i]) > LastTouch(log, ks[j])
  }

  /** `k` was touched, and before every key of `ks`. */
  ghost predicate Older(k: nat, ks: seq<nat>, log: seq<nat>) {
    k in log && forall i :: 0 <= i < |ks| ==> LastTouch(log, ks[i]) > LastTouch(log, k)
  }

  /** `ks` lists the `cap` most recently touched keys of `log`, most recent first,
      or all of them when there are fewer. */
  ghost predicate MostRecent(ks: seq<nat>, log: seq<nat>, cap: nat) {
    && |ks| <= cap
    && (forall i :: 0 <= i < |ks| ==> ks[i] in log)
    && Descending(ks, log)
    && (forall k :: k in log && k !in ks ==> |ks| == cap && Older(k, ks, log))
  }

  /** The description leaves no choice. */
  lemma MostRecentIsUnique(a: seq<nat>, b: seq<nat>, log: seq<nat>, cap: nat)
    requires MostRecent(a, log, cap) && MostRecent(b, log, cap)
    ensures a == b
  {
    forall i | 0 <= i < |a| && i < |b| ensures a[i] == b[i] {
      SamePrefix(a, b, log, cap, i);
    }
    ShorterIsFull(a, b, log, cap);
    ShorterIsFull(b, a, log, cap);
  }

  lemma ShorterIsFull(a: seq<nat>, b: seq<nat>, log: seq<nat>, cap: nat)
    requires MostRecent(a, log, cap) && Descending(b, log)
    requires forall i :: 0 <= i < |b| ==> b[i] in log
    requires forall i :: 0 <= i < |a| && i < |b| ==> a[i] == b[i]
    ensures |a| >= |b| || |a| == cap
  {
    if |a| < |b| {
      assert b[|a|] !in a;
    }
  }

  lemma {:induction false} SamePrefix(a: seq<nat>, b: seq<nat>, log: seq<nat>, cap: nat, i: nat)
    requires MostRecent(a, log, cap) && MostRecent(b, log, cap) && i < |a| && i < |b|
    ensures a[i] == b[i]
  {
    forall j | 0 <= j < i ensures a[j] == b[j] {
      SamePrefix(a, b, log, cap, j);
    }
    NotLater(a, b, log, cap, i);
    NotLater(b, a, log, cap, i);
  }

  lemma NotLater(a: seq<nat>, b: seq<nat>, log: seq<nat>, cap: nat, i: nat)
    requires MostRecent(a, log, cap) && MostRecent(b, log, cap) && i < |a| && i < |b|
    requires forall j :: 0 <= j < i ==> a[j] == b[j]
    ensures LastTouch(log, a[i]) <= LastTouch(log, b[i])
  {
    assert a[i] in log;
    if a[i] !in b {
      assert Older(a[i], b, log);
    }
  }

  /** The number of distinct keys in a log. */
  ghost function DistinctKeys(log: seq<nat>): set<nat> {
    set k | k in log
  }

  lemma {:induction false} DistinctCard(ks: seq<nat>)
    requires NoRepeats(ks)
    ensures |DistinctKeys(ks)| == |ks|
  {
    if ks != [] {
      DistinctCard(ks[1..]);
      assert DistinctKeys(ks) == DistinctKeys(ks[1..]) + {ks[0]};
    }
  }

  lemma MostRecentSize(ks: seq<nat>, log: seq<nat>, cap: nat)
    requires MostRecent(ks, log, cap)
    ensures |ks| == if |DistinctKeys(log)| <= cap then |DistinctKeys(log)| else cap
  {
    DistinctCard(ks);
    assert DistinctKeys(ks) <= DistinctKeys(log);
    if k :| k in log && k !in ks {
      assert k in DistinctKeys(log) - DistinctKeys(ks);
      SubsetCard(DistinctKeys(ks) + {k}, DistinctKeys(log));
    } else {
      assert DistinctKeys(ks) == DistinctKeys(log);
    }
  }

  lemma SubsetCard(a: set<nat>, b: set<nat>)
    requires a <= b
    ensures |a| <= |b|
  {
    assert b == a + (b - a);
    assert |b| == |a| + |b - a|;
  }

  // ---- Touching one key ----

  /** What touching `x` does to the recency list. */
  function TouchKeys(ks: seq<nat>, x: nat, cap: nat): seq<nat> {
    if x in ks then [x] + Remove(ks, x)
    else if |ks| == cap && 1 <= cap then [x] + ks[..|ks| - 1]
    else [x] + ks
  }

  function Remove(ks: seq<nat>, x: nat): seq<nat> {
    if ks == [] then []
    else if ks[0] == x then Remove(ks[1..], x)
    else [ks[0]] + Remove(ks[1..], x)
  }

  lemma {:induction false} RemoveMembers(ks: seq<nat>, x: nat)
    ensures forall k :: k in Remove(ks, x) <==> k in ks && k != x
  {
    if ks != [] {
      var rest := ks[1..];
      RemoveMembers(rest, x);
      assert forall k :: k in ks <==> k == ks[0] || k in rest;
      var r := Remove(rest, x);
      assert forall k :: k in [ks[0]] + r <==> k == ks[0] || k in r;
    }
  }

  lemma {:induction false} RemoveShape(ks: seq<nat>, x: nat, log: seq<nat>)
    requires Descending(ks, log)
    ensures Descending(Remove(ks, x), log)
    ensures |Remove(ks, x)| == |ks| - (if x in ks then 1 else 0)
  {
    if ks != [] {
      var rest := ks[1..];
      var r := Remove(rest, x);
      RemoveShape(rest, x, log);
      RemoveMembers(rest, x);
      if ks[0] != x {
        forall i | 0 <= i < |r| ensures LastTouch(log, ks[0]) > LastTouch(log, r[i]) {
          assert r[i] in rest;
        }
      }
    }
  }

  /** `rest` is what may stay behind when `x` moves to the front. */
  ghost predicate Behind(rest: seq<nat>, x: nat, log: seq<nat>, cap: nat) {
    && |rest| < cap && x !in rest && Descending(rest, log)
    && (forall k :: k in rest ==> k in log)
    && (forall k :: k in log && k != x && k !in rest ==> |rest| == cap - 1 && Older(k, rest, log))
  }

  lemma BehindHit(ks: seq<nat>, x: nat, log: seq<nat>, cap: nat)
    requires MostRecent(ks, log, cap) && x in ks
    ensures Behind(Remove(ks, x), x, log, cap)
  {
    var rest := Remove(ks, x);
    RemoveMembers(ks, x);
    RemoveShape(ks, x, log);
    forall k | k in log && k != x && k !in rest ensures |rest| == cap - 1 && Older(k, rest, log) {
      assert Older(k, ks, log);
      assert forall i :: 0 <= i < |rest| ==> rest[i] in ks;
    }
  }

  lemma StayBehind(ks: seq<nat>, x: nat, log: seq<nat>, cap: nat) returns (rest: seq<nat>)
    requires MostRecent(ks, log, cap) && 1 <= cap
    ensures TouchKeys(ks, x, cap) == [x] + rest && Behind(rest, x, log, cap)
  {
    if x in ks {
      rest := Remove(ks, x);
      BehindHit(ks, x, log, cap);
    } else if |ks| == cap {
      rest := ks[..|ks| - 1];
    } else {
      rest := ks;
    }
  }

  lemma TouchIsRecent(ks: seq<nat>, x: nat, log: seq<nat>, cap: nat)
    requires MostRecent(ks, log, cap) && 1 <= cap
    ensures MostRecent(TouchKeys(ks, x, cap), log + [x], cap)
  {
    var rest := StayBehind(ks, x, log, cap);
    forall k | k in log + [x] && k !in [x] + rest ensures |[x] + rest| == cap && Older(k, [x] + rest, log + [x]) {
      assert k != x && k !in rest && k in log;
    }
  }

  lemma {:induction false} KeysWithout(es: seq<Entry>, k: nat)
    ensures Keys(Without(es, k)) == Remove(Keys(es), k)
  {
    if es != [] {
      KeysWithout(es[1..], k);
      assert Keys(es)[1..] == Keys(es[1..]);
    }
  }

  /** At the level of keys an operation either touches or changes nothing. */
  lemma ApplyKeys(c: Cache, op: CacheOp)
    requires 1 <= c.cap
    ensures Keys(Apply(c, op).entries) ==
            if IsTouch(c, op) then TouchKeys(Keys(c.entries), op.key, c.cap) else Keys(c.entries)
  {
    FindMember(c.entries, op.key);
    KeysWithout(c.entries, op.key);
  }

  lemma ApplyWf(c: Cache, op: CacheOp)
    requires Wf(c)
    ensures Wf(Apply(c, op))
  {
    if op.PutOp? {
      PutWf(c, op.key, op.line);
    } else {
      GetWf(c, op.key, op.createNew);
    }
  }

  /** The cache holds exactly the most recently touched keys of `log`. */
  ghost predicate Tracks(c: Cache, log: seq<nat>) {
    Wf(c) && MostRecent(Keys(c.entries), log, c.cap)
  }

  lemma TouchTracks(c: Cache, c': Cache, x: nat, log: seq<nat>)
    requires Tracks(c, log) && Wf(c') && c'.cap == c.cap
    requires Keys(c'.entries) == TouchKeys(Keys(c.entries), x, c.cap)
    ensures Tracks(c', log + [x])
  {
    TouchIsRecent(Keys(c.entries), x, log, c.cap);
  }

  lemma ApplyTracks(c: Cache, op: CacheOp, log: seq<nat>)
    requires Tracks(c, log)
    ensures Tracks(Apply(c, op), if IsTouch(c, op) then log + [op.key] else log)
  {
    if IsTouch(c, op) {
      ApplyWf(c, op);
      ApplyKeys(c, op);
      TouchTracks(c, Apply(c, op), op.key, log);
    } else {
      assert Apply(c, op) == c;
    }
  }

  /** The contents are exactly the most recently touched keys, most recent first. */
  lemma {:induction false} ContentsAreMostRecent(cap: nat, ops: seq<CacheOp>)
    requires 1 <= cap
    ensures Tracks(Run(cap, ops), Touches(cap, ops))
  {
    if ops == [] {
      assert Tracks(EmptyCache(cap), []);
    } else {
      var before, op := ops[..|ops| - 1], ops[|ops| - 1];
      var c, log := Run(cap, before), Touches(cap, before);
      ContentsAreMostRecent(cap, before);
      ApplyTracks(c, op, log);
      assert Run(cap, ops) == Apply(c, op);
      assert Touches(cap, ops) == if IsTouch(c, op) then log + [op.key] else log;
    }
  }

  /** ... each with the line stored last under it ... */
  lemma {:induction false} ContentsAreLastStored(cap: nat, ops: seq<CacheOp>, k: nat)
    requires 1 <= cap && Has(Run(cap, ops).entries, k)
    ensures LastStored(cap, ops, k) == Find(Run(cap, ops).entries, k)
  {
    if ops != [] {
      var before, op := ops[..|ops| - 1], ops[|ops| - 1];
      var c := Run(cap, before);
      ContentsAreMostRecent(cap, before);
      if op.PutOp? {
        PutFind(c, op.key, op.line, k);
      } else {
        GetFind(c, op.key, op.createNew, k);
      }
      if Has(c.entries, k) {
        ContentsAreLastStored(cap, before, k);
      }
    }
  }

  /** ... and the victim of a put is the least recently touched key of the cache. */
  lemma VictimIsLeastRecent(cap: nat, ops: seq<CacheOp>, x: nat, k: nat)
    requires 1 <= cap && Victim(Run(cap, ops), x).Some?
    requires Has(Run(cap, ops).entries, k)
    ensures var v := Victim(Run(cap, ops), x).value;
            && Has(Run(cap, ops).entries, v.key)
            && LastTouch(Touches(cap, ops), v.key) <= LastTouch(Touches(cap, ops), k)
  {
    ContentsAreMostRecent(cap, ops);
    LastIsLeastRecent(Run(cap, ops), Touches(cap, ops), k);
  }

  lemma HasKey(es: seq<Entry>, k: nat)
    ensures Has(es, k) <==> k in Keys(es)
  {
    FindMember(es, k);
    assert forall i :: 0 <= i < |es| ==> Keys(es)[i] == es[i].key;
  }

  lemma LastIsLeastRecent(c: Cache, log: seq<nat>, k: nat)
    requires Tracks(c, log) && Has(c.entries, k)
    ensures c.entries != []
    ensures var last := c.entries[|c.entries| - 1].key;
            Has(c.entries, last) && LastTouch(log, last) <= LastTouch(log, k)
  {
    var ks := Keys(c.entries);
    HasKey(c.entries, k);
    HasKey(c.entries, ks[|ks| - 1]);
  }

  function Evictions(cap: nat, ops: seq<CacheOp>): nat
    requires 1 <= cap
  {
    if ops == [] then 0
    else
      var before, op := ops[..|ops| - 1], ops[|ops| - 1];
      var c := Run(cap, before);
      Evictions(cap, before) + (if (op.PutOp? || op.createNew) && Victim(c, op.key).Some? then 1 else 0)
  }

  /** Cold misses count the resident keys, so they never exceed the capacity, and
      capacity misses count the evictions: every insertion is one or the other. */
  lemma {:induction false} MissCounters(cap: nat, ops: seq<CacheOp>)
    requires 1 <= cap
    ensures var c := Run(cap, ops);
            && c.coldMisses == |c.entries| <= cap
            && c.capacityMisses == Evictions(cap, ops)
  {
    if ops != [] {
      var before, op := ops[..|ops| - 1], ops[|ops| - 1];
      MissCounters(cap, before);
      ContentsAreMostRecent(cap, before);
      WithoutShape(Run(cap, before).entries, op.key);
    }
  }
}
