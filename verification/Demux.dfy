/** The input loops: renaming thread ids in first-seen order, splitting one global
    trace into per-processor queues, and naming symbolic addresses. */
module Demux {
  import opened Msi

  /** The distinct elements of a sequence in the order they first appear. */
  function FirstSeen<T(==)>(xs: seq<T>): seq<T> {
    if xs == [] then []
    else
      var before, x := FirstSeen(xs[..|xs| - 1]), xs[|xs| - 1];
      if x in before then before else before + [x]
  }

  lemma {:induction false} FirstSeenMembers<T>(xs: seq<T>)
    ensures forall x :: x in FirstSeen(xs) <==> x in xs
  {
    if xs != [] {
      var before, x := xs[..|xs| - 1], xs[|xs| - 1];
      FirstSeenMembers(before);
      assert forall y :: y in xs <==> y in before || y == x;
    }
  }

  lemma {:induction false} FirstSeenNoRepeats<T>(xs: seq<T>)
    ensures NoRepeats(FirstSeen(xs))
  {
    if xs != [] {
      FirstSeenNoRepeats(xs[..|xs| - 1]);
    }
  }

  lemma {:induction false} FirstSeenPrefix<T>(xs: seq<T>, k: nat)
    requires k <= |xs|
    ensures FirstSeen(xs[..k]) <= FirstSeen(xs)
  {
    if k == |xs| {
      assert xs[..k] == xs;
    } else {
      FirstSeenPrefix(xs[..|xs| - 1], k);
      assert xs[..|xs| - 1][..k] == xs[..k];
    }
  }

  /** Where an element first appears. */
  function FirstIndex<T(==)>(xs: seq<T>, x: T): (p: nat)
    requires x in xs
    ensures p < |xs| && xs[p] == x && x !in xs[..p]
  {
    if xs[0] == x then 0 else 1 + FirstIndex(xs[1..], x)
  }

  lemma {:induction false} FirstIndexUnique<T>(xs: seq<T>, x: T, p: nat)
    requires p < |xs| && xs[p] == x && x !in xs[..p]
    ensures FirstIndex(xs, x) == p
  {
    if p > 0 {
      assert xs[0] in xs[..p];
      assert xs[1..][..p - 1] == xs[..p][1..];
      FirstIndexUnique(xs[1..], x, p - 1);
    }
  }

  /** Elements are numbered by first appearance. */
  lemma {:induction false} FirstSeenInOrder<T>(xs: seq<T>, i: nat, j: nat)
    requires i < j < |FirstSeen(xs)|
    ensures FirstSeen(xs)[i] in xs && FirstSeen(xs)[j] in xs
    ensures FirstIndex(xs, FirstSeen(xs)[i]) < FirstIndex(xs, FirstSeen(xs)[j])
  {
    var before, x, ids := xs[..|xs| - 1], xs[|xs| - 1], FirstSeen(xs);
    FirstSeenMembers(xs);
    FirstSeenMembers(before);
    assert ids[i] == FirstSeen(before)[i];
    var p := FirstIndex(before, ids[i]);
    assert xs[..p] == before[..p];
    FirstIndexUnique(xs, ids[i], p);
    if j < |FirstSeen(before)| {
      FirstSeenInOrder(before, i, j);
      var q := FirstIndex(before, ids[j]);
      assert xs[..q] == before[..q];
      FirstIndexUnique(xs, ids[j], q);
    } else {
      FirstIndexUnique(xs, x, |before|);
    }
  }

  // ---- The trace records ----

  datatype Record = Record(addr: nat, kind: char, rid: int)

  function Rids(rs: seq<Record>): (ids: seq<int>)
    ensures |ids| == |rs| && forall i :: 0 <= i < |rs| ==> ids[i] == rs[i].rid
  {
    seq(|rs|, i requires 0 <= i < |rs| => rs[i].rid)
  }

  /** The records of one thread in program order, numbered by their place in the trace. */
  function Own(rs: seq<Record>, id: int): seq<Trace> {
    if rs == [] then []
    else
      var before, r := rs[..|rs| - 1], rs[|rs| - 1];
      Own(before, id) + if r.rid == id then [Trace(r.addr, r.kind, |rs|)] else []
  }

  /** `t` is a record of thread `id` at the place its number says. */
  predicate Stems(t: Trace, rs: seq<Record>, id: int) {
    1 <= t.cnt <= |rs| && rs[t.cnt - 1] == Record(t.addr, t.kind, id)
  }

  /** A thread's queue holds exactly its records, in order, with their numbers. */
  lemma {:induction false} OwnIsSubsequence(rs: seq<Record>, id: int)
    ensures var q := Own(rs, id);
            && (forall t :: t in q <==> Stems(t, rs, id))
            && (forall i, j :: 0 <= i < j < |q| ==> q[i].cnt < q[j].cnt)
  {
    if rs != [] {
      var before, r := rs[..|rs| - 1], rs[|rs| - 1];
      var was, q, last := Own(before, id), Own(rs, id), Trace(r.addr, r.kind, |rs|);
      OwnIsSubsequence(before, id);
      assert forall t :: t in q <==> t in was || (r.rid == id && t == last);
      forall t ensures Stems(t, rs, id) <==> Stems(t, before, id) || (r.rid == id && t == last) {
      }
      forall i, j | 0 <= i < j < |q| ensures q[i].cnt < q[j].cnt {
        assert i < |was| && q[i] == was[i] && was[i] in was;
      }
    }
  }

  lemma {:induction false} OwnAbsent(rs: seq<Record>, id: int)
    requires forall i :: 0 <= i < |rs| ==> rs[i].rid != id
    ensures Own(rs, id) == []
  {
    if rs != [] {
      OwnAbsent(rs[..|rs| - 1], id);
    }
  }

  // ---- Merging the queues back ----

  function QueuesFor(rs: seq<Record>, ids: seq<int>): (qs: seq<seq<Trace>>)
    ensures |qs| == |ids| && forall i :: 0 <= i < |ids| ==> qs[i] == Own(rs, ids[i])
  {
    seq(|ids|, i requires 0 <= i < |ids| => Own(rs, ids[i]))
  }

  predicate EndsWith(q: seq<Trace>, m: nat) {
    q != [] && q[|q| - 1].cnt == m
  }

  /** The first queue, from `i` on, whose last trace carries number `m`. */
  function FindTail(qs: seq<seq<Trace>>, m: nat, i: nat): (t: nat)
    requires i <= |qs|
    ensures i <= t <= |qs| && (t < |qs| ==> EndsWith(qs[t], m))
    ensures t == |qs| ==> forall j :: i <= j < |qs| ==> !EndsWith(qs[j], m)
    decreases |qs| - i
  {
    if i == |qs| || EndsWith(qs[i], m) then i else FindTail(qs, m, i + 1)
  }

  /** Merge queues by number, from the last trace back to the first. */
  function Merge(qs: seq<seq<Trace>>, ids: seq<int>, m: nat): seq<Record>
    requires |qs| == |ids|
    decreases m
  {
    if m == 0 then []
    else
      var t := FindTail(qs, m, 0);
      if t == |qs| then []
      else
        var q := qs[t];
        var last := q[|q| - 1];
        Merge(qs[t := q[..|q| - 1]], ids, m - 1) + [Record(last.addr, last.kind, ids[t])]
  }

  /** The last record changes no other thread's queue, and no such queue ends with its number. */
  lemma OthersQueues(rs: seq<Record>, id: int)
    requires rs != [] && id != rs[|rs| - 1].rid
    ensures Own(rs, id) == Own(rs[..|rs| - 1], id) && !EndsWith(Own(rs, id), |rs|)
  {
    var q := Own(rs[..|rs| - 1], id);
    OwnIsSubsequence(rs[..|rs| - 1], id);
    assert q != [] ==> q[|q| - 1] in q;
  }

  /** Only the queue of the last record ends with the last number. */
  lemma LastBelongs(rs: seq<Record>, ids: seq<int>, t: nat)
    requires rs != [] && NoRepeats(ids) && t < |ids| && ids[t] == rs[|rs| - 1].rid
    ensures FindTail(QueuesFor(rs, ids), |rs|, 0) == t
    ensures var qs := QueuesFor(rs, ids);
            qs[t := qs[t][..|qs[t]| - 1]] == QueuesFor(rs[..|rs| - 1], ids)
  {
    var qs := QueuesFor(rs, ids);
    forall i | 0 <= i < |ids| && i != t
      ensures qs[i] == Own(rs[..|rs| - 1], ids[i]) && !EndsWith(qs[i], |rs|)
    {
      OthersQueues(rs, ids[i]);
    }
    assert EndsWith(qs[t], |rs|);
  }

  /** The last merged record is the last one read. */
  lemma {:induction false} MergeLast(rs: seq<Record>, ids: seq<int>, t: nat)
    requires rs != [] && NoRepeats(ids) && t < |ids| && ids[t] == rs[|rs| - 1].rid
    ensures Merge(QueuesFor(rs, ids), ids, |rs|) ==
            Merge(QueuesFor(rs[..|rs| - 1], ids), ids, |rs| - 1) + [rs[|rs| - 1]]
  {
    LastBelongs(rs, ids, t);
    var q := QueuesFor(rs, ids)[t];
    assert q[|q| - 1] == Trace(rs[|rs| - 1].addr, rs[|rs| - 1].kind, |rs|);
  }

  lemma {:induction false} MergeRebuilds(rs: seq<Record>, ids: seq<int>)
    requires NoRepeats(ids) && forall i :: 0 <= i < |rs| ==> rs[i].rid in ids
    ensures Merge(QueuesFor(rs, ids), ids, |rs|) == rs
  {
    if rs != [] {
      var t :| 0 <= t < |ids| && ids[t] == rs[|rs| - 1].rid;
      MergeLast(rs, ids, t);
      MergeRebuilds(rs[..|rs| - 1], ids);
    }
  }

  /** Round trip: merging the per-processor queues by their numbers, and undoing the
      renaming, gives back the input trace. */
  lemma DemuxRoundTrip(rs: seq<Record>)
    ensures var ids := FirstSeen(Rids(rs));
            Merge(QueuesFor(rs, ids), ids, |rs|) == rs
  {
    var ids := FirstSeen(Rids(rs));
    FirstSeenNoRepeats(Rids(rs));
    FirstSeenMembers(Rids(rs));
    forall i | 0 <= i < |rs| ensures rs[i].rid in ids {
      assert Rids(rs)[i] in Rids(rs);
    }
    MergeRebuilds(rs, ids);
  }

  // ---- The loops ----

  ghost predicate Inverse(tidMap: map<int, nat>, antiMap: seq<int>) {
    && (forall i :: 0 <= i < |antiMap| ==> antiMap[i] in tidMap && tidMap[antiMap[i]] == i)
    && (forall id :: id in tidMap ==> tidMap[id] < |antiMap| && antiMap[tidMap[id]] == id)
  }

  lemma InverseDistinct(tidMap: map<int, nat>, antiMap: seq<int>)
    requires Inverse(tidMap, antiMap)
    ensures NoRepeats(antiMap)
  {
    assert forall i :: 0 <= i < |antiMap| ==> tidMap[antiMap[i]] == i;
  }

  /** What the queues hold after some records: thread `ids[i]`'s own for processor `i`,
      nothing for the processors no thread has been given to. */
  ghost predicate Split(queues: seq<seq<Trace>>, rs: seq<Record>, ids: seq<int>) {
    && |ids| <= |queues|
    && (forall i :: 0 <= i < |ids| ==> queues[i] == Own(rs, ids[i]))
    && (forall i :: |ids| <= i < |queues| ==> queues[i] == [])
  }

  /** A thread never seen before gets the next, still empty, queue. */
  lemma SplitNew(queues: seq<seq<Trace>>, rs: seq<Record>, ids: seq<int>, id: int)
    requires Split(queues, rs, ids) && |ids| < |queues| && forall i :: 0 <= i < |rs| ==> rs[i].rid != id
    ensures Split(queues, rs, ids + [id])
  {
    OwnAbsent(rs, id);
  }

  /** Look a thread id up, entering it when it is new. */
  method Rename(tidMap: map<int, nat>, antiMap: seq<int>, rid: int)
    returns (tidMap': map<int, nat>, antiMap': seq<int>, tid: nat)
    requires Inverse(tidMap, antiMap)
    ensures Inverse(tidMap', antiMap') && NoRepeats(antiMap')
    ensures antiMap' == if rid in antiMap then antiMap else antiMap + [rid]
    ensures tid < |antiMap'| && antiMap'[tid] == rid
  {
    tidMap', antiMap' := tidMap, antiMap;
    if rid !in tidMap {
      tidMap' := tidMap[rid := |antiMap|];
      antiMap' := antiMap + [rid];
    }
    tid := tidMap'[rid];
    InverseDistinct(tidMap', antiMap');
  }

  /** A prefix of the trace needs no more processors than the whole. */
  lemma PrefixIds(records: seq<Record>, k: nat)
    requires k < |records|
    ensures records[..k + 1] == records[..k] + [records[k]]
    ensures |FirstSeen(Rids(records[..k] + [records[k]]))| <= |FirstSeen(Rids(records))|
  {
    FirstSeenPrefix(Rids(records), k + 1);
    assert records[..k + 1] == records[..k] + [records[k]];
    assert Rids(records[..k + 1]) == Rids(records)[..k + 1];
  }

  /** Queues and renaming after some records. */
  ghost predicate Demuxed(queues: seq<seq<Trace>>, antiMap: seq<int>, rs: seq<Record>) {
    antiMap == FirstSeen(Rids(rs)) && NoRepeats(antiMap) && Split(queues, rs, antiMap)
  }

  lemma NextIds(rs: seq<Record>, r: Record)
    ensures var ids := FirstSeen(Rids(rs));
            && FirstSeen(Rids(rs + [r])) == (if r.rid in ids then ids else ids + [r.rid])
            && (r.rid !in ids ==> forall i :: 0 <= i < |rs| ==> rs[i].rid != r.rid)
  {
    assert Rids(rs + [r]) == Rids(rs) + [r.rid];
    FirstSeenMembers(Rids(rs));
    forall i | 0 <= i < |rs| ensures rs[i].rid in FirstSeen(Rids(rs)) {
      assert rs[i].rid == Rids(rs)[i];
    }
  }

  lemma NextSplit(queues: seq<seq<Trace>>, ids: seq<int>, ids': seq<int>, rs: seq<Record>, r: Record, tid: nat)
    requires Split(queues, rs, ids) && |ids'| <= |queues| && NoRepeats(ids')
    requires ids' == if r.rid in ids then ids else ids + [r.rid]
    requires r.rid !in ids ==> forall i :: 0 <= i < |rs| ==> rs[i].rid != r.rid
    requires tid < |ids'| && ids'[tid] == r.rid
    ensures Split(queues[tid := queues[tid] + [Trace(r.addr, r.kind, |rs| + 1)]], rs + [r], ids')
  {
    if r.rid !in ids {
      SplitNew(queues, rs, ids, r.rid);
    }
  }

  lemma NextRecord(queues: seq<seq<Trace>>, ids: seq<int>, ids': seq<int>, rs: seq<Record>, r: Record, tid: nat)
    requires Demuxed(queues, ids, rs) && |FirstSeen(Rids(rs + [r]))| <= |queues|
    requires ids' == if r.rid in ids then ids else ids + [r.rid]
    requires NoRepeats(ids') && tid < |ids'| && ids'[tid] == r.rid
    ensures tid < |queues|
    ensures Demuxed(queues[tid := queues[tid] + [Trace(r.addr, r.kind, |rs| + 1)]], ids', rs + [r])
  {
    NextIds(rs, r);
    NextSplit(queues, ids, ids', rs, r, tid);
  }

  const BASE: nat := 0x10000000
  const STRIDE: nat := 1024

  lemma StrideIsLines(k: nat)
    ensures IsLine(BASE + STRIDE * k)
  {
    assert BASE + STRIDE * k == 64 * (0x400000 + 16 * k);
  }

  /** The address of the `k`-th name: a kilobyte apart, from 0x10000000 on. */
  function NthAddress(k: nat): (addr: nat)
    ensures addr == 0x10000000 + 1024 * k && addr != 0 && IsLine(addr)
  {
    StrideIsLines(k);
    BASE + STRIDE * k
  }

  lemma NextAddress(k: nat)
    ensures NthAddress(k + 1) == NthAddress(k) + STRIDE
  {
  }

  ghost predicate Named<T>(addrMap: map<T, nat>, seen: seq<T>, next: nat) {
    && (forall a | a in addrMap :: a in seen)
    && (forall k :: 0 <= k < |seen| ==> seen[k] in addrMap && addrMap[seen[k]] == NthAddress(k))
    && next == NthAddress(|seen|)
  }

  lemma NextName<T>(names: seq<T>, cnt: nat)
    requires cnt < |names|
    ensures var seen := FirstSeen(names[..cnt]);
            FirstSeen(names[..cnt + 1]) == if names[cnt] in seen then seen else seen + [names[cnt]]
  {
    assert names[..cnt + 1][..cnt] == names[..cnt];
  }

  lemma NamedNext<T>(addrMap: map<T, nat>, seen: seq<T>, next: nat, name: T)
    requires Named(addrMap, seen, next) && name !in seen
    ensures Named(addrMap[name := next], seen + [name], next + STRIDE)
  {
    NextAddress(|seen|);
  }

  /** The address that the input gives to a name: it says when the name was first seen. */
  function AddressOf<T(==)>(names: seq<T>, name: T): (addr: nat)
    requires name in FirstSeen(names)
    ensures IsLine(addr) && addr != 0
  {
    NthAddress(FirstIndex(FirstSeen(names), name))
  }

  lemma NamedIsAddress<T>(addrMap: map<T, nat>, names: seq<T>, next: nat, name: T)
    requires Named(addrMap, FirstSeen(names), next) && name in addrMap
    ensures name in FirstSeen(names) && addrMap[name] == AddressOf(names, name)
  {
    var k := FirstIndex(FirstSeen(names), name);
    assert FirstSeen(names)[k] == name;
  }

  /** Different names get different addresses. */
  lemma AddressesDiffer<T>(names: seq<T>, a: T, b: T)
    requires a in FirstSeen(names) && b in FirstSeen(names) && AddressOf(names, a) == AddressOf(names, b)
    ensures a == b
  {
    var seen := FirstSeen(names);
    assert seen[FirstIndex(seen, a)] == a && seen[FirstIndex(seen, b)] == b;
  }

  /** The addresses handed out so far are the ones in the map. */
  ghost predicate MapsTo<T>(addrMap: map<T, nat>, names: seq<T>, addrs: seq<nat>) {
    |addrs| == |names| && forall i :: 0 <= i < |names| ==> names[i] in addrMap && addrs[i] == addrMap[names[i]]
  }

  lemma MapsMore<T>(addrMap: map<T, nat>, names: seq<T>, addrs: seq<nat>, name: T, next: nat)
    requires MapsTo(addrMap, names, addrs)
    ensures name in addrMap ==> MapsTo(addrMap, names + [name], addrs + [addrMap[name]])
    ensures name !in addrMap ==> MapsTo(addrMap[name := next], names + [name], addrs + [next])
  {
  }

  /** Every address says when its name was first seen. */
  ghost predicate Addressed<T>(names: seq<T>, addrs: seq<nat>) {
    && |addrs| == |names|
    && (forall i :: 0 <= i < |addrs| ==> names[i] in FirstSeen(names) && addrs[i] == AddressOf(names, names[i]))
  }

  /** Equal names share an address, different names never share a line, and every address
      is a line other than the null one. */
  lemma AddressesTellNames<T>(names: seq<T>, addrs: seq<nat>, i: nat, j: nat)
    requires Addressed(names, addrs) && i < |addrs| && j < |addrs|
    ensures IsLine(addrs[i]) && addrs[i] != 0 && (addrs[i] == addrs[j] <==> names[i] == names[j])
  {
    if addrs[i] == addrs[j] {
      AddressesDiffer(names, names[i], names[j]);
    }
  }

  /** Give each new name the next kilobyte from 0x10000000 on, in first-seen order. */
  method NameAddresses<T(==)>(names: seq<T>) returns (addrs: seq<nat>)
    ensures Addressed(names, addrs)
    ensures forall i :: 0 <= i < |addrs| ==> IsLine(addrs[i]) && addrs[i] != 0
    ensures forall i, j :: 0 <= i < |addrs| && 0 <= j < |addrs| ==>
              (addrs[i] == addrs[j] <==> names[i] == names[j])
  {
    addrs := [];
    var addrMap: map<T, nat>, basePtr: nat := map[], BASE;
    for cnt := 0 to |names|
      invariant Named(addrMap, FirstSeen(names[..cnt]), basePtr) && MapsTo(addrMap, names[..cnt], addrs)
    {
      NextName(names, cnt);
      MapsMore(addrMap, names[..cnt], addrs, names[cnt], basePtr);
      assert names[..cnt + 1] == names[..cnt] + [names[cnt]];
      if names[cnt] !in addrMap {
        NamedNext(addrMap, FirstSeen(names[..cnt]), basePtr, names[cnt]);
        addrMap := addrMap[names[cnt] := basePtr];
        basePtr := basePtr + STRIDE;
      }
      addrs := addrs + [addrMap[names[cnt]]];
    }
    assert names[..|names|] == names;
    forall i | 0 <= i < |addrs| ensures names[i] in FirstSeen(names) && addrs[i] == AddressOf(names, names[i]) {
      NamedIsAddress(addrMap, names, basePtr, names[i]);
    }
    forall i, j | 0 <= i < |addrs| && 0 <= j < |addrs|
      ensures IsLine(addrs[i]) && addrs[i] != 0 && (addrs[i] == addrs[j] <==> names[i] == names[j])
    {
      AddressesTellNames(names, addrs, i, j);
    }
  }
}
