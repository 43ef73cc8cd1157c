/** The stack property: the same calls run on a smaller and on a larger cache
    leave the smaller recency list inside the larger one, so neither the total
    number of misses nor the capacity misses ever rise with the capacity. */
module LruInclusion {
  import opened Msi
  import opened Lru
  import opened LruRecency

  ghost predicate Subseq(a: seq<nat>, b: seq<nat>) {
    if a == [] then true
    else if b == [] then false
    else if a[0] == b[0] then Subseq(a[1..], b[1..])
    else Subseq(a, b[1..])
  }

  lemma {:induction false} SubseqReflexive(a: seq<nat>)
    ensures Subseq(a, a)
  {
    if a != [] {
      SubseqReflexive(a[1..]);
    }
  }

  lemma {:induction false} SubseqMembers(a: seq<nat>, b: seq<nat>)
    requires Subseq(a, b)
    ensures |a| <= |b| && forall k :: k in a ==> k in b
  {
    if a != [] {
      if a[0] == b[0] {
        SubseqMembers(a[1..], b[1..]);
      } else {
        SubseqMembers(a, b[1..]);
      }
      assert forall k :: k in a <==> k == a[0] || k in a[1..];
    }
  }

  /** Shortening the one or lengthening the other keeps the relation. */
  lemma {:induction false} SubseqDropHead(a: seq<nat>, b: seq<nat>)
    requires a != [] && Subseq(a, b)
    ensures Subseq(a[1..], b)
    decreases |a| + |b|
  {
    if a[0] != b[0] {
      SubseqDropHead(a, b[1..]);
    }
    SubseqCons(a[1..], b[1..], b[0]);
    assert [b[0]] + b[1..] == b;
  }

  lemma {:induction false} SubseqCons(a: seq<nat>, b: seq<nat>, x: nat)
    requires Subseq(a, b)
    ensures Subseq(a, [x] + b)
    decreases |a| + |b| + 1
  {
    assert ([x] + b)[1..] == b;
    if a != [] && a[0] == x {
      SubseqDropHead(a, b);
    }
  }

  lemma {:induction false} SubseqDropLast(a: seq<nat>, b: seq<nat>)
    requires a != [] && Subseq(a, b)
    ensures Subseq(a[..|a| - 1], b)
  {
    if |a| > 1 {
      if a[0] == b[0] {
        SubseqDropLast(a[1..], b[1..]);
        assert a[..|a| - 1][1..] == a[1..][..|a| - 2];
      } else {
        SubseqDropLast(a, b[1..]);
      }
    }
  }

  lemma {:induction false} RemoveAbsent(a: seq<nat>, x: nat)
    requires x !in a
    ensures Remove(a, x) == a
  {
    if a != [] {
      RemoveAbsent(a[1..], x);
    }
  }

  lemma {:induction false} RemoveLast(a: seq<nat>)
    requires a != [] && NoRepeats(a)
    ensures Remove(a, a[|a| - 1]) == a[..|a| - 1]
  {
    if |a| > 1 {
      RemoveLast(a[1..]);
      assert a[0] != a[|a| - 1];
    }
  }

  lemma {:induction false} SubseqRemove(a: seq<nat>, b: seq<nat>, x: nat)
    requires Subseq(a, b)
    ensures Subseq(Remove(a, x), Remove(b, x))
  {
    if a != [] {
      if a[0] == b[0] {
        SubseqRemove(a[1..], b[1..], x);
      } else {
        SubseqRemove(a, b[1..], x);
        if b[0] != x {
          SubseqCons(Remove(a, x), Remove(b[1..], x), b[0]);
        }
      }
    }
  }

  /** The last element of the longer sequence can only be last in the shorter. */
  lemma {:induction false} SubseqLast(a: seq<nat>, b: seq<nat>)
    requires Subseq(a, b) && b != [] && NoRepeats(b) && b[|b| - 1] in a
    ensures a[|a| - 1] == b[|b| - 1]
  {
    if a[0] == b[0] {
      if |b| > 1 {
        assert a[0] != b[|b| - 1];
        SubseqLast(a[1..], b[1..]);
      } else {
        SubseqMembers(a[1..], b[1..]);
      }
    } else {
      SubseqMembers(a, b[1..]);
      SubseqLast(a, b[1..]);
    }
  }

  lemma NoRepeatsCons(x: nat, a: seq<nat>)
    requires NoRepeats(a) && x !in a
    ensures NoRepeats([x] + a)
  {
  }

  lemma {:induction false} SubseqNoRepeats(a: seq<nat>, b: seq<nat>)
    requires Subseq(a, b) && NoRepeats(b)
    ensures NoRepeats(a)
  {
    if a != [] {
      if a[0] == b[0] {
        SubseqNoRepeats(a[1..], b[1..]);
        SubseqMembers(a[1..], b[1..]);
        NoRepeatsCons(a[0], a[1..]);
        assert [a[0]] + a[1..] == a;
      } else {
        SubseqNoRepeats(a, b[1..]);
      }
    }
  }

  lemma SubseqDropBoth(a: seq<nat>, b: seq<nat>)
    requires Subseq(a, b) && NoRepeats(b) && a != []
    ensures b != [] && Subseq(a[..|a| - 1], b[..|b| - 1])
  {
    var y := b[|b| - 1];
    SubseqNoRepeats(a, b);
    SubseqRemove(a, b, y);
    RemoveLast(b);
    if y in a {
      SubseqLast(a, b);
      RemoveLast(a);
    } else {
      RemoveAbsent(a, y);
      SubseqDropLast(a, b[..|b| - 1]);
    }
  }

  // ---- One operation on both caches ----

  /** The smaller list sits inside the larger, and equals it until it fills up. */
  ghost predicate Included(a: seq<nat>, s: nat, b: seq<nat>, l: nat) {
    && 1 <= s <= l
    && |a| <= s && |b| <= l && NoRepeats(b)
    && Subseq(a, b)
    && (|a| < s ==> a == b)
  }

  lemma TouchBoth(a: seq<nat>, s: nat, b: seq<nat>, l: nat, x: nat)
    requires Included(a, s, b, l)
    ensures Subseq(TouchKeys(a, x, s), TouchKeys(b, x, l))
  {
    SubseqMembers(a, b);
    SubseqRemove(a, b, x);
    if x !in a {
      RemoveAbsent(a, x);
      if |a| == s {
        if x in b {
          SubseqDropLast(a, Remove(b, x));
        } else if |b| == l {
          SubseqDropBoth(a, b);
        } else {
          SubseqDropLast(a, b);
        }
      }
    }
  }

  lemma TouchLargerOnly(a: seq<nat>, b: seq<nat>, x: nat)
    requires Subseq(a, b) && x !in a
    ensures Subseq(a, [x] + Remove(b, x))
  {
    SubseqRemove(a, b, x);
    RemoveAbsent(a, x);
    SubseqCons(a, Remove(b, x), x);
  }

  lemma {:induction false} RemoveLength(a: seq<nat>, x: nat)
    requires NoRepeats(a)
    ensures |Remove(a, x)| == |a| - (if x in a then 1 else 0)
    ensures forall k :: k in Remove(a, x) ==> k in a && k != x
    ensures NoRepeats(Remove(a, x))
  {
    if a != [] {
      RemoveLength(a[1..], x);
      if a[0] == x {
        RemoveAbsent(a[1..], x);
      } else {
        NoRepeatsCons(a[0], Remove(a[1..], x));
      }
    }
  }

  /** What `Included` says of two caches, counters included. */
  ghost predicate Dominated(small: Cache, large: Cache) {
    && Included(Keys(small.entries), small.cap, Keys(large.entries), large.cap)
    && small.coldMisses + small.capacityMisses >= large.coldMisses + large.capacityMisses
  }

  lemma TouchLengths(a: seq<nat>, s: nat, x: nat)
    requires 1 <= s && |a| <= s && NoRepeats(a)
    ensures |TouchKeys(a, x, s)| <= s && NoRepeats(TouchKeys(a, x, s))
    ensures |TouchKeys(a, x, s)| == if x in a || |a| == s then |a| else |a| + 1
  {
    RemoveLength(a, x);
  }

  lemma ApplyIncluded(small: Cache, large: Cache, op: CacheOp)
    requires Included(Keys(small.entries), small.cap, Keys(large.entries), large.cap)
    ensures var a', b' := Keys(Apply(small, op).entries), Keys(Apply(large, op).entries);
            Included(a', small.cap, b', large.cap)
  {
    var a, b, x := Keys(small.entries), Keys(large.entries), op.key;
    ApplyKeys(small, op);
    ApplyKeys(large, op);
    HasKey(small.entries, x);
    HasKey(large.entries, x);
    SubseqMembers(a, b);
    SubseqNoRepeats(a, b);
    TouchLengths(a, small.cap, x);
    TouchLengths(b, large.cap, x);
    if IsTouch(small, op) {
      TouchBoth(a, small.cap, b, large.cap, x);
    } else if IsTouch(large, op) {
      TouchLargerOnly(a, b, x);
    }
  }

  lemma ApplyMisses(c: Cache, op: CacheOp)
    requires 1 <= c.cap
    ensures var c' := Apply(c, op);
            && c'.cap == c.cap
            && c'.coldMisses + c'.capacityMisses == c.coldMisses + c.capacityMisses +
               (if IsTouch(c, op) && op.key !in Keys(c.entries) then 1 else 0)
  {
    FindMember(c.entries, op.key);
  }

  lemma ApplyDominated(small: Cache, large: Cache, op: CacheOp)
    requires Dominated(small, large)
    ensures Dominated(Apply(small, op), Apply(large, op))
  {
    ApplyIncluded(small, large, op);
    ApplyMisses(small, op);
    ApplyMisses(large, op);
    SubseqMembers(Keys(small.entries), Keys(large.entries));
    FindMember(small.entries, op.key);
  }

  lemma {:induction false} RunDominated(s: nat, l: nat, ops: seq<CacheOp>)
    requires 1 <= s <= l
    ensures Dominated(Run(s, ops), Run(l, ops))
  {
    if ops != [] {
      RunDominated(s, l, ops[..|ops| - 1]);
      ApplyDominated(Run(s, ops[..|ops| - 1]), Run(l, ops[..|ops| - 1]), ops[|ops| - 1]);
    }
  }

  /** Inclusion, for every sequence of calls and every pair of capacities. */
  lemma LargerCacheNeverMissesMore(s: nat, l: nat, ops: seq<CacheOp>)
    requires 1 <= s <= l
    ensures var small, large := Run(s, ops), Run(l, ops);
            && Subseq(Keys(small.entries), Keys(large.entries))
            && small.coldMisses + small.capacityMisses >= large.coldMisses + large.capacityMisses
            && small.capacityMisses >= large.capacityMisses
  {
    RunDominated(s, l, ops);
    MissCounters(s, ops);
    MissCounters(l, ops);
    SubseqMembers(Keys(Run(s, ops).entries), Keys(Run(l, ops).entries));
  }
}
