/** The cache as a value: entries from most to least recently used, a capacity
    and the two miss counters. The mutable list-and-index cache is proved equal
    to this one, and everything else is stated over it. */
module Lru {
  import opened Msi

  datatype Entry = Entry(key: nat, line: Cacheline)

  datatype Cache = Cache(entries: seq<Entry>, cap: nat, coldMisses: nat, capacityMisses: nat)

  function EmptyCache(cap: nat): Cache {
    Cache([], cap, 0, 0)
  }

  function Find(es: seq<Entry>, k: nat): Option<Cacheline> {
    if es == [] then None
    else if es[0].key == k then Some(es[0].line)
    else Find(es[1..], k)
  }

  predicate Has(es: seq<Entry>, k: nat) {
    Find(es, k).Some?
  }

  function Without(es: seq<Entry>, k: nat): seq<Entry> {
    if es == [] then []
    else if es[0].key == k then Without(es[1..], k)
    else [es[0]] + Without(es[1..], k)
  }

  ghost predicate Distinct(es: seq<Entry>) {
    forall i, j :: 0 <= i < j < |es| ==> es[i].key != es[j].key
  }

  ghost predicate Wf(c: Cache) {
    && 1 <= c.cap
    && |c.entries| <= c.cap
    && Distinct(c.entries)
  }

  /** The entry that `Put` throws out, if any. */
  function Victim(c: Cache, k: nat): Option<Entry> {
    if Has(c.entries, k) || |c.entries| != c.cap || c.cap == 0 then None
    else Some(c.entries[|c.entries| - 1])
  }

  function Put(c: Cache, k: nat, v: Cacheline): Cache
    requires 1 <= c.cap
  {
    var e := Entry(k, v);
    if Has(c.entries, k) then
      c.(entries := [e] + Without(c.entries, k))
    else if |c.entries| == c.cap then
      c.(entries := [e] + c.entries[..|c.entries| - 1], capacityMisses := c.capacityMisses + 1)
    else
      c.(entries := [e] + c.entries, coldMisses := c.coldMisses + 1)
  }

  /** A hit moves the entry to the front; a miss installs a fresh line when asked to. */
  function Get(c: Cache, k: nat, createNew: bool): (Cache, Cacheline)
    requires 1 <= c.cap
  {
    match Find(c.entries, k)
    case Some(v) => (c.(entries := [Entry(k, v)] + Without(c.entries, k)), v)
    case None =>
      if createNew then (Put(c, k, FreshLine(k)), FreshLine(k))
      else (c, NO_LINE)
  }

  // ---- Finding keys after a removal ----

  lemma {:induction false} FindWithout(es: seq<Entry>, k: nat, j: nat)
    ensures Find(Without(es, k), j) == if j == k then None else Find(es, j)
  {
    if es != [] {
      FindWithout(es[1..], k, j);
      if es[0].key != k {
        assert Without(es, k)[1..] == Without(es[1..], k);
      }
    }
  }

  lemma {:induction false} FindMember(es: seq<Entry>, k: nat)
    ensures Has(es, k) <==> exists i :: 0 <= i < |es| && es[i].key == k
    ensures Has(es, k) ==> exists i :: 0 <= i < |es| && es[i] == Entry(k, Find(es, k).value)
  {
    if es != [] {
      FindMember(es[1..], k);
      assert es[0] == Entry(es[0].key, es[0].line);
      assert forall i :: 0 < i < |es| ==> es[i] == es[1..][i - 1];
      assert forall i :: 0 <= i < |es| - 1 ==> es[1..][i] == es[i + 1];
    }
  }

  lemma {:induction false} FindAt(es: seq<Entry>, i: nat)
    requires Distinct(es) && i < |es|
    ensures Find(es, es[i].key) == Some(es[i].line)
  {
    if i > 0 {
      assert es[0].key != es[i].key;
      FindAt(es[1..], i - 1);
    }
  }

  lemma {:induction false} FindInit(es: seq<Entry>, j: nat)
    requires es != [] && Distinct(es)
    ensures Find(es[..|es| - 1], j) == if j == es[|es| - 1].key then None else Find(es, j)
  {
    if |es| > 1 {
      assert es[..|es| - 1][1..] == es[1..][..|es| - 2];
      FindInit(es[1..], j);
      assert es[0].key != es[|es| - 1].key;
    }
  }

  lemma {:induction false} WithoutShape(es: seq<Entry>, k: nat)
    requires Distinct(es)
    ensures Distinct(Without(es, k))
    ensures forall e :: e in Without(es, k) <==> e in es && e.key != k
    ensures |Without(es, k)| == |es| - (if Has(es, k) then 1 else 0)
    ensures !Has(es, k) ==> Without(es, k) == es
  {
    if es != [] {
      var rest := es[1..];
      WithoutShape(rest, k);
      assert forall e :: e in es <==> e == es[0] || e in rest;
      if es[0].key == k {
        FindMember(rest, k);
        assert !Has(rest, k);
      } else {
        var w := Without(rest, k);
        assert forall e :: e in Without(es, k) <==> e == es[0] || e in w;
        forall i | 0 <= i < |w| ensures w[i].key != es[0].key {
          assert w[i] in rest;
        }
      }
    }
  }

  // ---- What one operation does to every key ----

  lemma PutFind(c: Cache, k: nat, v: Cacheline, j: nat)
    requires Wf(c)
    ensures Find(Put(c, k, v).entries, j) ==
            if j == k then Some(v)
            else if Victim(c, k).Some? && Victim(c, k).value.key == j then None
            else Find(c.entries, j)
  {
    var c' := Put(c, k, v);
    assert c'.entries[1..] == if Has(c.entries, k) then Without(c.entries, k)
                              else if |c.entries| == c.cap then c.entries[..|c.entries| - 1]
                              else c.entries;
    FindWithout(c.entries, k, j);
    if |c.entries| == c.cap {
      FindInit(c.entries, j);
    }
  }

  lemma ConsDistinct(e: Entry, es: seq<Entry>)
    requires Distinct(es) && !Has(es, e.key)
    ensures Distinct([e] + es)
  {
    FindMember(es, e.key);
  }

  lemma PutWf(c: Cache, k: nat, v: Cacheline)
    requires Wf(c)
    ensures Wf(Put(c, k, v))
  {
    var es := c.entries;
    if Has(es, k) {
      WithoutShape(es, k);
      FindWithout(es, k, k);
      ConsDistinct(Entry(k, v), Without(es, k));
    } else if |es| == c.cap {
      FindInit(es, k);
      ConsDistinct(Entry(k, v), es[..|es| - 1]);
    } else {
      ConsDistinct(Entry(k, v), es);
    }
  }

  lemma GetWf(c: Cache, k: nat, createNew: bool)
    requires Wf(c)
    ensures Wf(Get(c, k, createNew).0)
  {
    PutWf(c, k, if Has(c.entries, k) then Find(c.entries, k).value else FreshLine(k));
  }

  lemma GetFind(c: Cache, k: nat, createNew: bool, j: nat)
    requires Wf(c)
    ensures var found, c' := Find(c.entries, k), Get(c, k, createNew).0;
            Find(c'.entries, j) ==
            if found.Some? || !createNew then Find(c.entries, j)
            else if j == k then Some(FreshLine(k))
            else if Victim(c, k).Some? && Victim(c, k).value.key == j then None
            else Find(c.entries, j)
  {
    PutFind(c, k, FreshLine(k), j);
    if Has(c.entries, k) {
      FindWithout(c.entries, k, j);
      assert Get(c, k, createNew).0.entries[1..] == Without(c.entries, k);
    }
  }
}
