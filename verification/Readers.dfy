/** Two processors that only read, each read broadcast at once, reduced to what matters:
    the recency lists, the lines heard of since the last access, and the misses. Small
    enough to follow a whole schedule by calculation. */
module Readers {
  import opened Msi
  import opened Lru
  import opened LruRecency
  import opened Protocol
  import opened Machine
  import opened Ledger
  import opened Accounts
  import opened Schedules
  import opened Eager
  import opened Capacity
  import opened CoreRecency

  datatype List<T> = Nil | Cons(head: T, tail: List<T>)

  predicate In(x: nat, ks: List<nat>) {
    ks.Cons? && (ks.head == x || In(x, ks.tail))
  }

  function Drop(ks: List<nat>, x: nat): List<nat> {
    match ks
    case Nil => Nil
    case Cons(k, rest) => if k == x then Drop(rest, x) else Cons(k, Drop(rest, x))
  }

  function Prefix(ks: List<nat>, n: nat): List<nat> {
    if n == 0 || ks.Nil? then Nil else Cons(ks.head, Prefix(ks.tail, n - 1))
  }

  function Snoc(ks: List<nat>, x: nat): List<nat> {
    match ks
    case Nil => Cons(x, Nil)
    case Cons(k, rest) => Cons(k, Snoc(rest, x))
  }

  function Touch(ks: List<nat>, x: nat, cap: nat): List<nat> {
    if In(x, ks) then Cons(x, Drop(ks, x)) else Prefix(Cons(x, ks), cap)
  }

  /** Hearing of a line that is held promotes it. */
  function Hear(ks: List<nat>, q: List<nat>, cap: nat): List<nat>
    decreases q
  {
    match q
    case Nil => ks
    case Cons(x, rest) => Hear(if In(x, ks) then Touch(ks, x, cap) else ks, rest, cap)
  }

  datatype Reader = Reader(keys: List<nat>, heard: List<nat>)

  datatype Duo = Duo(a: Reader, b: Reader, misses: nat)

  /** A read by the first or the second of the two. */
  datatype ReadOp = First(x: nat) | Second(x: nat)

  function After(r: Reader, x: nat, cap: nat): Reader {
    Reader(Touch(Hear(r.keys, r.heard, cap), x, cap), Nil)
  }

  predicate Hits(r: Reader, x: nat, cap: nat) {
    In(x, Hear(r.keys, r.heard, cap))
  }

  function Told(r: Reader, x: nat): Reader {
    r.(heard := Snoc(r.heard, x))
  }

  function Read(d: Duo, op: ReadOp, cap: nat): Duo {
    match op
    case First(x) =>
      if Hits(d.a, x, cap) then Duo(After(d.a, x, cap), d.b, d.misses)
      else Duo(After(d.a, x, cap), Told(d.b, x), d.misses + 1)
    case Second(x) =>
      if Hits(d.b, x, cap) then Duo(d.a, After(d.b, x, cap), d.misses)
      else Duo(Told(d.a, x), After(d.b, x, cap), d.misses + 1)
  }

  function ReadAll(d: Duo, ops: List<ReadOp>, cap: nat): Duo
    decreases ops
  {
    match ops
    case Nil => d
    case Cons(op, rest) => ReadAll(Read(d, op, cap), rest, cap)
  }

  // ---- Lists and sequences ----

  function Seq(ks: List<nat>): seq<nat> {
    match ks case Nil => [] case Cons(k, rest) => [k] + Seq(rest)
  }

  lemma {:induction false} InSeq(x: nat, ks: List<nat>)
    ensures In(x, ks) <==> x in Seq(ks)
  {
    if ks.Cons? {
      InSeq(x, ks.tail);
    }
  }

  lemma {:induction false} DropSeq(ks: List<nat>, x: nat)
    ensures Seq(Drop(ks, x)) == Remove(Seq(ks), x)
  {
    if ks.Cons? {
      DropSeq(ks.tail, x);
      assert Seq(ks)[1..] == Seq(ks.tail);
    }
  }

  lemma {:induction false} PrefixSeq(ks: List<nat>, n: nat)
    ensures Seq(Prefix(ks, n)) == if |Seq(ks)| <= n then Seq(ks) else Seq(ks)[..n]
  {
    if n > 0 && ks.Cons? {
      PrefixSeq(ks.tail, n - 1);
    }
  }

  lemma TouchSeq(ks: List<nat>, x: nat, cap: nat)
    requires 1 <= cap && |Seq(ks)| <= cap
    ensures Seq(Touch(ks, x, cap)) == TouchKeys(Seq(ks), x, cap)
  {
    InSeq(x, ks);
    DropSeq(ks, x);
    PrefixSeq(Cons(x, ks), cap);
  }

  // ---- One core ----

  /** A core whose lines are exactly `ks`, all shared. */
  ghost predicate Shared(p: Core, cap: nat, ks: List<nat>) {
    && CoreWf(p) && p.cache.cap == cap && Keys(p.cache.entries) == Seq(ks)
    && (forall k | k in Seq(ks) :: IsLine(k) && k != 0 && Local(p, k) == S)
  }

  lemma SharedHas(p: Core, cap: nat, ks: List<nat>, x: nat)
    requires Shared(p, cap, ks)
    ensures Has(p.cache.entries, x) <==> In(x, ks)
    ensures !In(x, ks) ==> Local(p, x) == I
    ensures In(x, ks) ==> Local(p, x) == S
  {
    HasKey(p.cache.entries, x);
    InSeq(x, ks);
  }

  lemma TouchMembers(ks: seq<nat>, x: nat, cap: nat, k: nat)
    requires k in TouchKeys(ks, x, cap)
    ensures k == x || k in ks
  {
    RemoveMembers(ks, x);
  }

  lemma SnoopShared(p: Core, cap: nat, ks: List<nat>, r: BusTransaction)
    requires Shared(p, cap, ks) && r.tsn == BusRd && IsLine(r.tag)
    ensures Shared(Snoop(p, r), cap, if In(r.tag, ks) then Touch(ks, r.tag, cap) else ks)
    ensures Misses(Snoop(p, r)) == Misses(p)
  {
    var x := r.tag;
    SharedHas(p, cap, ks, x);
    SnoopKeepsWf(p, r);
    SnoopKeys(p, r);
    ApplyKeys(p.cache, GetOp(x, false));
    TouchSeq(ks, x, cap);
    SnoopCount(p, r, S);
    forall k | k in Keys(Snoop(p, r).cache.entries) ensures IsLine(k) && k != 0 && Local(Snoop(p, r), k) == S {
      SnoopEffect(p, r, k);
      if In(x, ks) {
        InSeq(x, ks);
        TouchMembers(Seq(ks), x, cap, k);
      }
    }
  }

  /** Queued transactions: reads of the lines in `q`. */
  ghost predicate Echo(rs: seq<BusTransaction>, q: List<nat>)
    decreases q
  {
    match q
    case Nil => rs == []
    case Cons(x, rest) => rs != [] && rs[0].tag == x && rs[0].tsn == BusRd && IsLine(x) && Echo(rs[1..], rest)
  }

  lemma {:induction false} EchoSnoc(rs: seq<BusTransaction>, q: List<nat>, r: BusTransaction)
    requires Echo(rs, q) && r.tsn == BusRd && IsLine(r.tag)
    ensures Echo(rs + [r], Snoc(q, r.tag))
  {
    if q.Cons? {
      EchoSnoc(rs[1..], q.tail, r);
      assert (rs + [r])[1..] == rs[1..] + [r];
    } else {
      assert (rs + [r])[1..] == [];
    }
  }

  lemma {:induction false} DrainShared(p: Core, cap: nat, ks: List<nat>, rs: seq<BusTransaction>, q: List<nat>)
    requires Shared(p, cap, ks) && Echo(rs, q)
    ensures Shared(Drain(p, rs), cap, Hear(ks, q, cap)) && Misses(Drain(p, rs)) == Misses(p)
    decreases q
  {
    if q.Cons? {
      var x := q.head;
      SnoopShared(p, cap, ks, rs[0]);
      DrainShared(Snoop(p, rs[0]), cap, if In(x, ks) then Touch(ks, x, cap) else ks, rs[1..], q.tail);
    }
  }

  lemma ReadShared(p: Core, cap: nat, ks: List<nat>, tid: nat, x: nat)
    requires Shared(p, cap, ks) && IsLine(x) && x != 0
    ensures var out, hit := Commit(p, tid, PrRd, x, 0), In(x, ks);
            && Shared(out.0, cap, Touch(ks, x, cap)) && Misses(out.0) == Misses(p) + Bit(!hit)
            && out.1 == if hit then None else Some(BusTransaction(x, tid, BusRd, 0))
  {
    var p' := Commit(p, tid, PrRd, x, 0).0;
    ConvertIsIdentityOnLines(x);
    SharedHas(p, cap, ks, x);
    SharedHas(p, cap, ks, 0);
    InSeq(0, ks);
    ReadTouches(p, tid, x, 0);
    TouchSeq(ks, x, cap);
    CommitEffect(p, tid, PrRd, x, 0);
    MissesOfAccess(p, tid, PrRd, x, 0);
    forall k | k in Keys(p'.cache.entries) ensures IsLine(k) && k != 0 && Local(p', k) == S {
      TouchMembers(Seq(ks), x, cap, k);
      if k != x {
        HasKey(p'.cache.entries, k);
        CommitKeeps(p, tid, PrRd, x, 0, k);
      }
    }
  }

  // ---- The system ----

  /** A processor between two accesses that stands for `r`. */
  ghost predicate Reading(p: Proc, cap: nat, r: Reader) {
    p.phase.Idle? && p.traces == [] && Shared(p.core, cap, r.keys) && Echo(p.requests, r.heard)
  }

  ghost predicate Shows(s: Sys, cap: nat, d: Duo) {
    && 2 <= |s.procs| && CapsOk(s) && s.sending.Free? && s.bus == []
    && Reading(s.procs[0], cap, d.a) && Reading(s.procs[1], cap, d.b)
    && (forall j :: 2 <= j < |s.procs| ==> Misses(s.procs[j].core) == 0)
    && Misses(s.procs[0].core) + Misses(s.procs[1].core) == d.misses
  }

  function ReadActs(i: nat, x: nat): seq<Action> {
    [Arrive(i, Trace(x, 'R', 0)), Turn(i), Transmit]
  }

  lemma CarryThree(s: Sys, a: Action, b: Action, c: Action)
    requires CapsOk(s)
    ensures Carry(s, [a, b, c]) == Try(Try(Try(s, a), b), c)
  {
    CarrySnoc(s, [], a);
    CarrySnoc(s, [] + [a], b);
    CarrySnoc(s, [] + [a] + [b], c);
    assert [] + [a] + [b] + [c] == [a, b, c];
  }

  /** Processor `i` reads line `x`: what this does to it and what it puts on the bus. */
  lemma ServeRead(s: Sys, cap: nat, i: nat, r: Reader, x: nat)
    requires CapsOk(s) && s.sending.Free? && s.bus == [] && i < |s.procs| && Reading(s.procs[i], cap, r)
    requires IsLine(x) && x != 0
    ensures var s', p := Try(Try(s, Arrive(i, Trace(x, 'R', 0))), Turn(i)), s.procs[i];
            && s'.procs == s.procs[i := s'.procs[i]] && s'.sending.Free?
            && Reading(s'.procs[i], cap, After(r, x, cap))
            && Misses(s'.procs[i].core) == Misses(p.core) + Bit(!Hits(r, x, cap))
            && s'.bus == if Hits(r, x, cap) then [] else [BusTransaction(x, i, BusRd, 0)]
  {
    var t, p := Trace(x, 'R', 0), s.procs[i];
    var mid := Try(s, Arrive(i, t));
    assert p.traces + [t] == [t];
    assert mid == WithProc(s, i, p.(traces := [t]));
    DrainShared(p.core, cap, r.keys, p.requests, r.heard);
    ReadShared(Drain(p.core, p.requests), cap, Hear(r.keys, r.heard, cap), i, x);
    assert Try(mid, Turn(i)) == Serve(mid, i);
  }

  lemma TellReader(p: Proc, cap: nat, r: Reader, tell: BusTransaction)
    requires Reading(p, cap, r) && tell.tsn == BusRd && IsLine(tell.tag)
    ensures Reading(p.(requests := p.requests + [tell]), cap, Told(r, tell.tag))
  {
    EchoSnoc(p.requests, r.heard, tell);
  }

  function Index(op: ReadOp): nat {
    if op.First? then 0 else 1
  }

  /** The reader that reads, and the other one. */
  function Me(d: Duo, op: ReadOp): Reader {
    if op.First? then d.a else d.b
  }

  function You(d: Duo, op: ReadOp): Reader {
    if op.First? then d.b else d.a
  }

  /** Processor `i` has made the read and nobody has been told yet. */
  ghost predicate Served(s: Sys, mid: Sys, cap: nat, d: Duo, op: ReadOp) {
    var i, hit := Index(op), Hits(Me(d, op), op.x, cap);
    && |mid.procs| == |s.procs| && CapsOk(mid) && mid.sending.Free? && i < |s.procs|
    && (forall j :: 0 <= j < |s.procs| && j != i ==> mid.procs[j] == s.procs[j])
    && Reading(mid.procs[i], cap, After(Me(d, op), op.x, cap))
    && Misses(mid.procs[i].core) == Misses(s.procs[i].core) + Bit(!hit)
    && mid.bus == if hit then [] else [BusTransaction(op.x, i, BusRd, 0)]
  }

  lemma HitShows(s: Sys, mid: Sys, cap: nat, d: Duo, op: ReadOp)
    requires Shows(s, cap, d) && Served(s, mid, cap, d, op) && Hits(Me(d, op), op.x, cap)
    ensures Shows(Try(mid, Transmit), cap, Read(d, op, cap))
  {
    assert Try(mid, Transmit) == mid;
  }

  lemma MissShows(s: Sys, mid: Sys, cap: nat, d: Duo, op: ReadOp)
    requires Shows(s, cap, d) && Served(s, mid, cap, d, op) && !Hits(Me(d, op), op.x, cap) && IsLine(op.x)
    ensures Shows(Try(mid, Transmit), cap, Read(d, op, cap))
  {
    var i := Index(op);
    TellReader(s.procs[1 - i], cap, You(d, op), BusTransaction(op.x, i, BusRd, 0));
  }

  lemma ReadIsServed(s: Sys, cap: nat, d: Duo, op: ReadOp)
    requires Shows(s, cap, d) && IsLine(op.x) && op.x != 0
    ensures var i, t := Index(op), Trace(op.x, 'R', 0);
            Served(s, Try(Try(s, Arrive(i, t)), Turn(i)), cap, d, op)
  {
    ServeRead(s, cap, Index(op), Me(d, op), op.x);
  }

  lemma ReadShows(s: Sys, cap: nat, d: Duo, op: ReadOp)
    requires Shows(s, cap, d) && IsLine(op.x) && op.x != 0
    ensures Shows(Carry(s, ReadActs(Index(op), op.x)), cap, Read(d, op, cap))
  {
    var i, t := Index(op), Trace(op.x, 'R', 0);
    var mid := Try(Try(s, Arrive(i, t)), Turn(i));
    CarryThree(s, Arrive(i, t), Turn(i), Transmit);
    ReadIsServed(s, cap, d, op);
    if Hits(Me(d, op), op.x, cap) {
      HitShows(s, mid, cap, d, op);
    } else {
      MissShows(s, mid, cap, d, op);
    }
  }

  function ActsOf(ops: List<ReadOp>): seq<Action> {
    match ops
    case Nil => []
    case Cons(op, rest) => ReadActs(Index(op), op.x) + ActsOf(rest)
  }

  predicate LinesOnly(ops: List<ReadOp>) {
    ops.Cons? ==> IsLine(ops.head.x) && ops.head.x != 0 && LinesOnly(ops.tail)
  }

  /** Following the readers follows the simulator. */
  lemma {:induction false} ReadersFollow(s: Sys, cap: nat, d: Duo, ops: List<ReadOp>)
    requires Shows(s, cap, d) && LinesOnly(ops)
    ensures Shows(Carry(s, ActsOf(ops)), cap, ReadAll(d, ops, cap))
    decreases ops
  {
    if ops.Cons? {
      var acts := ReadActs(Index(ops.head), ops.head.x);
      ReadShows(s, cap, d, ops.head);
      ReadersFollow(Carry(s, acts), cap, Read(d, ops.head, cap), ops.tail);
      CarryAppend(s, acts, ActsOf(ops.tail));
    }
  }

  function Fresh(): Duo {
    Duo(Reader(Nil, Nil), Reader(Nil, Nil), 0)
  }

  lemma {:induction false} TotalOfTwo(procs: seq<Proc>)
    requires 2 <= |procs| && forall j :: 2 <= j < |procs| ==> Misses(procs[j].core) == 0
    ensures TotalMisses(procs) == Misses(procs[0].core) + Misses(procs[1].core)
  {
    var init := procs[..|procs| - 1];
    if |procs| == 2 {
      assert init[..0] == [];
      assert TotalMisses(init[..0]) == 0;
    } else {
      TotalOfTwo(init);
    }
  }

  /** The simulator's misses are the readers'. */
  lemma ReadersCount(n: nat, cap: nat, ops: List<ReadOp>)
    requires 2 <= n && 1 <= cap && LinesOnly(ops)
    ensures TotalMisses(Carry(Init(n, cap), ActsOf(ops)).procs) == ReadAll(Fresh(), ops, cap).misses
  {
    var s := Init(n, cap);
    assert Shows(s, cap, Fresh());
    ReadersFollow(s, cap, Fresh(), ops);
    TotalOfTwo(Carry(s, ActsOf(ops)).procs);
  }
}
