/** Whether a larger cache can make the whole simulator miss more. With one processor it
    cannot; with two or more it can, because a miss in one cache makes other caches
    promote the line. */
module CapacityRise {
  import opened Machine
  import opened Accounts
  import opened Schedules
  import opened Eager
  import opened Capacity
  import opened Readers
  import Driver

  // ---- One processor ----

  /** A system of one processor, which never hears of anything. */
  ghost predicate Solo(s: Sys) {
    && |s.procs| == 1 && CapsOk(s) && s.sending.Free? && s.procs[0].requests == []
    && (forall r | r in s.bus :: r.tid == 0)
  }

  /** Two such systems that differ only in what is in the cache and on the bus. */
  ghost predicate InStep(s: Sys, t: Sys) {
    Solo(s) && Solo(t) && t.procs[0] == s.procs[0].(core := t.procs[0].core)
  }

  lemma RoundSolo(s: Sys)
    requires Solo(s) && CanTurn(s, 0)
    ensures var p, p' := s.procs[0], Round(s, 0).procs[0];
            && Solo(Round(s, 0))
            && p' == p.(core := p'.core, traces := p.traces[1..],
                        history := p.history + if IsAccess(p.traces[0]) then
                                     [Accessed(OpOf(p.traces[0]), p.traces[0].addr, p.traces[0].cnt)] else [])
  {
    DrainProcDone(s.procs[0]);
    assert s.procs[0].history + [] == s.procs[0].history;
  }

  lemma TransmitSolo(s: Sys)
    requires Solo(s) && s.bus != []
    ensures Solo(Broadcast(s)) && Broadcast(s).procs[0] == s.procs[0]
  {
    assert s.bus[0] in s.bus;
  }

  lemma TryInStep(s: Sys, t: Sys, a: Action)
    requires InStep(s, t)
    ensures InStep(Try(s, a), Try(t, a))
  {
    if a.Transmit? {
      if s.bus != [] {
        TransmitSolo(s);
      }
      if t.bus != [] {
        TransmitSolo(t);
      }
    } else if a.Turn? && CanAct(s, a) {
      RoundSolo(s);
      RoundSolo(t);
    }
  }

  lemma {:induction false} CarryInStep(s: Sys, t: Sys, acts: seq<Action>)
    requires InStep(s, t)
    ensures InStep(Carry(s, acts), Carry(t, acts))
  {
    if acts != [] {
      CarryInStep(s, t, acts[..|acts| - 1]);
      TryInStep(Carry(s, acts[..|acts| - 1]), Carry(t, acts[..|acts| - 1]), acts[|acts| - 1]);
    }
  }

  /** Under the same schedule a lone processor with more cache misses no more often. */
  lemma LoneProcessorGains(s: nat, l: nat, acts: seq<Action>)
    requires 1 <= s <= l
    ensures TotalMisses(Carry(Init(1, l), acts).procs) <= TotalMisses(Carry(Init(1, s), acts).procs)
  {
    var small, large := Carry(Init(1, s), acts), Carry(Init(1, l), acts);
    CarryInStep(Init(1, s), Init(1, l), acts);
    Driver.CarryReaches(1, s, acts);
    Driver.CarryReaches(1, l, acts);
    HistoriesExplain(1, s, small, 0);
    HistoriesExplain(1, l, large, 0);
    LargerReplayDominates(s, l, 0, small.procs[0].history);
    TotalOfOne(small.procs);
    TotalOfOne(large.procs);
  }

  lemma TotalOfOne(procs: seq<Proc>)
    requires |procs| == 1
    ensures TotalMisses(procs) == Misses(procs[0].core)
  {
    assert TotalMisses(procs[..0]) == 0;
  }

  // ---- Two processors ----

  function One(a: nat): List<nat> {
    Cons(a, Nil)
  }

  function Two(a: nat, b: nat): List<nat> {
    Cons(a, One(b))
  }

  function Three(a: nat, b: nat, c: nat): List<nat> {
    Cons(a, Two(b, c))
  }

  function Four(a: ReadOp, b: ReadOp, c: ReadOp, d: ReadOp, rest: List<ReadOp>): List<ReadOp> {
    Cons(a, Cons(b, Cons(c, Cons(d, rest))))
  }

  function ReadFour(s: Duo, a: ReadOp, b: ReadOp, c: ReadOp, d: ReadOp, cap: nat): Duo {
    Read(Read(Read(Read(s, a, cap), b, cap), c, cap), d, cap)
  }

  lemma FourAtOnce(s: Duo, a: ReadOp, b: ReadOp, c: ReadOp, d: ReadOp, rest: List<ReadOp>, cap: nat)
    ensures ReadAll(s, Four(a, b, c, d, rest), cap) == ReadAll(ReadFour(s, a, b, c, d, cap), rest, cap)
  {
    var s1 := Read(s, a, cap);
    var s2 := Read(s1, b, cap);
    assert ReadAll(s, Four(a, b, c, d, rest), cap) == ReadAll(s1, Cons(b, Cons(c, Cons(d, rest))), cap);
    assert ReadAll(s1, Cons(b, Cons(c, Cons(d, rest))), cap) == ReadAll(s2, Cons(c, Cons(d, rest)), cap);
  }

  /** Twelve reads of four lines. Half way through, the smaller caches miss a line that the
      larger ones hold; the transaction this takes makes the other processor keep that
      line, which the larger caches then lose, and losing it costs them another. */
  function Reads(): List<ReadOp> {
    Four(First(64), First(128), Second(64), First(192),
         Four(Second(128), Second(256), Second(64), First(256),
              Four(Second(192), Second(128), First(64), First(256), Nil)))
  }

  lemma SmallBegins()
    ensures ReadFour(Fresh(),
                     First(64), First(128), Second(64), First(192), 2) ==
            Duo(Reader(Two(192, 64), Nil), Reader(One(64), One(192)), 4)
  {
  }

  lemma SmallContinues()
    ensures ReadFour(Duo(Reader(Two(192, 64), Nil), Reader(One(64), One(192)), 4),
                     Second(128), Second(256), Second(64), First(256), 2) ==
            Duo(Reader(Two(256, 64), Nil), Reader(Two(64, 256), One(256)), 8)
  {
  }

  lemma SmallEnds()
    ensures ReadFour(Duo(Reader(Two(256, 64), Nil), Reader(Two(64, 256), One(256)), 8),
                     Second(192), Second(128), First(64), First(256), 2) ==
            Duo(Reader(Two(256, 64), Nil), Reader(Two(128, 192), Nil), 10)
  {
  }

  lemma SmallMisses()
    ensures ReadAll(Fresh(), Reads(), 2).misses == 10
  {
    var d1 := Duo(Reader(Two(192, 64), Nil), Reader(One(64), One(192)), 4);
    var d2 := Duo(Reader(Two(256, 64), Nil), Reader(Two(64, 256), One(256)), 8);
    var d3 := Duo(Reader(Two(256, 64), Nil), Reader(Two(128, 192), Nil), 10);
    SmallBegins();
    SmallContinues();
    SmallEnds();
    FourAtOnce(d2, Second(192), Second(128), First(64), First(256), Nil, 2);
    FourAtOnce(d1, Second(128), Second(256), Second(64), First(256),
               Four(Second(192), Second(128), First(64), First(256), Nil), 2);
    FourAtOnce(Fresh(), First(64), First(128), Second(64), First(192),
               Four(Second(128), Second(256), Second(64), First(256),
                    Four(Second(192), Second(128), First(64), First(256), Nil)), 2);
    assert ReadAll(d3, Nil, 2) == d3;
  }

  lemma LargeBegins()
    ensures ReadFour(Fresh(),
                     First(64), First(128), Second(64), First(192), 3) ==
            Duo(Reader(Three(192, 64, 128), Nil), Reader(One(64), One(192)), 4)
  {
  }

  lemma LargeContinues()
    ensures ReadFour(Duo(Reader(Three(192, 64, 128), Nil), Reader(One(64), One(192)), 4),
                     Second(128), Second(256), Second(64), First(256), 3) ==
            Duo(Reader(Three(256, 128, 192), Nil), Reader(Three(64, 256, 128), One(256)), 7)
  {
  }

  lemma LargeEnds()
    ensures ReadFour(Duo(Reader(Three(256, 128, 192), Nil), Reader(Three(64, 256, 128), One(256)), 7),
                     Second(192), Second(128), First(64), First(256), 3) ==
            Duo(Reader(Three(256, 64, 128), Nil), Reader(Three(128, 192, 256), Two(64, 256)), 11)
  {
  }

  lemma LargeMisses()
    ensures ReadAll(Fresh(), Reads(), 3).misses == 11
  {
    var d1 := Duo(Reader(Three(192, 64, 128), Nil), Reader(One(64), One(192)), 4);
    var d2 := Duo(Reader(Three(256, 128, 192), Nil), Reader(Three(64, 256, 128), One(256)), 7);
    var d3 := Duo(Reader(Three(256, 64, 128), Nil), Reader(Three(128, 192, 256), Two(64, 256)), 11);
    LargeBegins();
    LargeContinues();
    LargeEnds();
    FourAtOnce(d2, Second(192), Second(128), First(64), First(256), Nil, 3);
    FourAtOnce(d1, Second(128), Second(256), Second(64), First(256),
               Four(Second(192), Second(128), First(64), First(256), Nil), 3);
    FourAtOnce(Fresh(), First(64), First(128), Second(64), First(192),
               Four(Second(128), Second(256), Second(64), First(256),
                    Four(Second(192), Second(128), First(64), First(256), Nil)), 3);
    assert ReadAll(d3, Nil, 3) == d3;
  }

  /** With two processors or more, a third line per cache can cost a miss. */
  lemma MoreCacheMoreMisses(n: nat) returns (acts: seq<Action>)
    requires 2 <= n
    ensures TotalMisses(Carry(Init(n, 2), acts).procs) < TotalMisses(Carry(Init(n, 3), acts).procs)
  {
    acts := ActsOf(Reads());
    ReadersCount(n, 2, Reads());
    ReadersCount(n, 3, Reads());
    SmallMisses();
    LargeMisses();
  }

  /** Over all schedules and all pairs of capacities, the misses that the simulator reports
      never rise with the capacity exactly when it has no more than one processor. */
  lemma MissesNeverRiseIff(n: nat)
    ensures (forall s: nat, l: nat, acts | 1 <= s <= l ::
               TotalMisses(Carry(Init(n, l), acts).procs) <= TotalMisses(Carry(Init(n, s), acts).procs))
            <==> n <= 1
  {
    if n == 1 {
      forall s: nat, l: nat, acts | 1 <= s <= l
        ensures TotalMisses(Carry(Init(n, l), acts).procs) <= TotalMisses(Carry(Init(n, s), acts).procs)
      {
        LoneProcessorGains(s, l, acts);
      }
    } else if 2 <= n {
      var acts := MoreCacheMoreMisses(n);
    }
  }
}
