/** The vocabulary shared by every component of the simulator: line states, bus
    transactions, cache lines and the rounding of an address to its line. */
module Msi {
  datatype Option<+T> = None | Some(value: T)

  datatype State = M | S | I

  /** What a processor asks for. */
  datatype PrTsn = PrRd | PrWr

  /** What travels on the bus. */
  datatype BusTsn = BusRd | BusRdX

  /** Addresses are naturals and 0 is the null pointer. Lines carry no data. */
  datatype Cacheline = Cacheline(tag: nat, state: State, cnt: int)

  datatype BusTransaction = BusTransaction(tag: nat, tid: nat, tsn: BusTsn, cnt: int)

  datatype Trace = Trace(addr: nat, kind: char, cnt: int)

  const CACHELINE_SIZE: nat := 64

  /** The 64-byte line that contains an address. */
  function Convert(addr: nat): (tag: nat)
    ensures tag % 64 == 0 && tag <= addr < tag + 64 && IsLine(tag)
  {
    addr / CACHELINE_SIZE * CACHELINE_SIZE
  }

  predicate IsLine(a: nat) {
    a % CACHELINE_SIZE == 0
  }

  lemma ConvertIsIdentityOnLines(a: nat)
    ensures IsLine(a) <==> Convert(a) == a
  {
  }

  /** Two addresses share a line exactly when they agree in all but the last six bits. */
  lemma SameLineIff(a: nat, b: nat)
    ensures Convert(a) == Convert(b) <==> a / 64 == b / 64
    ensures IsLine(a) <==> a % 64 == 0
  {
  }

  /** The line a lookup reports when the key is absent; its null tag is the
      "absent" marker that callers test. */
  const NO_LINE := Cacheline(0, I, 0)

  /** The line a creating lookup installs. */
  function FreshLine(key: nat): Cacheline {
    Cacheline(key, I, 0)
  }

  ghost predicate NoRepeats<T>(s: seq<T>) {
    forall i, j :: 0 <= i < j < |s| ==> s[i] != s[j]
  }

  /** M above S above I. */
  function Rank(st: State): nat {
    match st case M => 2 case S => 1 case I => 0
  }

  /** How a cached line reacts to another processor's transaction on it. */
  function SnoopTable(st: State, tsn: BusTsn): (st': State)
    ensures Rank(st') <= Rank(st)
  {
    match (st, tsn)
    case (M, BusRd) => S
    case (M, BusRdX) => I
    case (S, BusRdX) => I
    case _ => st
  }
}
