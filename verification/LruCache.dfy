/** The cache as the program keeps it: a list whose nodes are addressed by stable
    iterators, and a hash index from keys to iterators. */
module LruCache {
  import opened Msi
  import Lru

  type Iter = nat

  /** A linked list of entries. A handle stands for an iterator, `order` lists the
      handles front to back, `nodes` holds the live nodes (a handle outside it
      dangles) and `next` is the first handle never used. */
  datatype NodeList = NodeList(order: seq<Iter>, nodes: map<Iter, Lru.Entry>, next: Iter) {
    ghost predicate Live() {
      && (forall n :: n in order <==> n in nodes)
      && (forall n :: n in nodes ==> n < next)
      && NoRepeats(order)
    }

    ghost function Entries(): (es: seq<Lru.Entry>)
      requires Live()
      ensures |es| == |order|
    {
      Shown(order, nodes)
    }

    function Erase(it: Iter): NodeList {
      NodeList(Unlink(order, it), nodes - {it}, next)
    }

    function PushFront(e: Lru.Entry): NodeList {
      NodeList([next] + order, nodes[next := e], next + 1)
    }

    function SetLine(it: Iter, line: Cacheline): NodeList
      requires it in nodes
    {
      this.(nodes := nodes[it := nodes[it].(line := line)])
    }

    function Begin(): Iter
      requires order != []
    {
      order[0]
    }

    function Back(): Iter
      requires order != []
    {
      order[|order| - 1]
    }
  }

  function Unlink(order: seq<Iter>, it: Iter): seq<Iter> {
    if order == [] then []
    else if order[0] == it then order[1..]
    else [order[0]] + Unlink(order[1..], it)
  }

  lemma {:induction false} UnlinkMembers(order: seq<Iter>, it: Iter)
    requires NoRepeats(order)
    ensures NoRepeats(Unlink(order, it))
    ensures forall n :: n in Unlink(order, it) <==> n in order && n != it
    ensures |Unlink(order, it)| == |order| - (if it in order then 1 else 0)
  {
    if order != [] {
      var rest := order[1..];
      UnlinkMembers(rest, it);
      assert forall n :: n in order <==> n == order[0] || n in rest;
      if order[0] != it {
        var r := Unlink(rest, it);
        assert forall n :: n in Unlink(order, it) <==> n == order[0] || n in r;
        forall i | 0 <= i < |r| ensures r[i] != order[0] {
          assert r[i] in rest;
        }
      }
    }
  }

  /** The entries that a run of handles shows. */
  ghost function Shown(order: seq<Iter>, nodes: map<Iter, Lru.Entry>): (es: seq<Lru.Entry>)
    requires forall n :: n in order ==> n in nodes
    ensures |es| == |order|
  {
    seq(|order|, i requires 0 <= i < |order| => nodes[order[i]])
  }

  /** Unlinking a node removes exactly its key from what is shown. */
  lemma {:induction false} UnlinkShown(order: seq<Iter>, nodes: map<Iter, Lru.Entry>, it: Iter)
    requires NoRepeats(order) && it in order && forall n :: n in order ==> n in nodes
    requires Lru.Distinct(Shown(order, nodes))
    ensures forall n :: n in Unlink(order, it) ==> n in nodes
    ensures Shown(Unlink(order, it), nodes) == Lru.Without(Shown(order, nodes), nodes[it].key)
  {
    var es, rest := Shown(order, nodes), order[1..];
    UnlinkMembers(order, it);
    assert es[1..] == Shown(rest, nodes);
    if order[0] == it {
      Lru.FindMember(es[1..], es[0].key);
      Lru.WithoutShape(es[1..], es[0].key);
    } else {
      UnlinkShown(rest, nodes, it);
      var p :| 0 <= p < |order| && order[p] == it;
      assert es[p].key != es[0].key;
      assert Shown(Unlink(order, it), nodes) == [es[0]] + Shown(Unlink(rest, it), nodes);
    }
  }

  /** Nodes that are not listed do not show. */
  lemma ShownFrame(order: seq<Iter>, nodes: map<Iter, Lru.Entry>, nodes': map<Iter, Lru.Entry>)
    requires forall n :: n in order ==> n in nodes && n in nodes' && nodes'[n] == nodes[n]
    ensures Shown(order, nodes') == Shown(order, nodes)
  {
  }

  lemma EraseEntries(l: NodeList, it: Iter)
    requires l.Live() && it in l.nodes && Lru.Distinct(l.Entries())
    ensures l.Erase(it).Live() && |l.Erase(it).order| == |l.order| - 1
    ensures l.Erase(it).Entries() == Lru.Without(l.Entries(), l.nodes[it].key)
  {
    UnlinkMembers(l.order, it);
    UnlinkShown(l.order, l.nodes, it);
    ShownFrame(Unlink(l.order, it), l.nodes, l.nodes - {it});
  }

  lemma PushFrontEntries(l: NodeList, e: Lru.Entry)
    requires l.Live()
    ensures l.PushFront(e).Live()
    ensures l.PushFront(e).Entries() == [e] + l.Entries()
  {
    var l' := l.PushFront(e);
    assert forall n :: n in l'.order <==> n == l.next || n in l.order;
    assert forall i :: 0 < i < |l'.order| ==> l'.order[i] == l.order[i - 1] && l.order[i - 1] in l.order;
    ShownFrame(l.order, l.nodes, l'.nodes);
  }

  lemma EraseBack(l: NodeList)
    requires l.Live() && l.order != []
    ensures var l' := l.Erase(l.Back());
            l'.Live() && |l'.order| == |l.order| - 1 && l'.Entries() == l.Entries()[..|l.order| - 1]
  {
    UnlinkLast(l.order);
    UnlinkMembers(l.order, l.Back());
  }

  lemma {:induction false} UnlinkLast(order: seq<Iter>)
    requires order != [] && NoRepeats(order)
    ensures Unlink(order, order[|order| - 1]) == order[..|order| - 1]
  {
    if |order| > 1 {
      UnlinkLast(order[1..]);
    }
  }

  /** Index and list agree: each index entry points at the live node that holds
      its key, and each live node is pointed at. */
  ghost predicate Agree(nodes: map<Iter, Lru.Entry>, index: map<nat, Iter>) {
    && (forall k :: k in index ==> index[k] in nodes && nodes[index[k]].key == k)
    && (forall n :: n in nodes ==> nodes[n].key in index && index[nodes[n].key] == n)
  }

  lemma AgreeDistinct(l: NodeList, index: map<nat, Iter>)
    requires l.Live() && Agree(l.nodes, index)
    ensures Lru.Distinct(l.Entries())
  {
  }

  /** The index answers membership and lookup for the list. */
  lemma IndexIsFind(l: NodeList, index: map<nat, Iter>, k: nat)
    requires l.Live() && Agree(l.nodes, index)
    ensures k in index <==> Lru.Has(l.Entries(), k)
    ensures k in index ==> Lru.Find(l.Entries(), k) == Some(l.nodes[index[k]].line)
  {
    var es := l.Entries();
    AgreeDistinct(l, index);
    Lru.FindMember(es, k);
    if k in index {
      var i :| 0 <= i < |l.order| && l.order[i] == index[k];
      assert es[i].key == k;
      Lru.FindAt(es, i);
    }
    forall i | 0 <= i < |es| ensures es[i].key in index {
      assert l.order[i] in l.order;
    }
  }

  lemma DropAgrees(nodes: map<Iter, Lru.Entry>, index: map<nat, Iter>, it: Iter)
    requires Agree(nodes, index) && it in nodes
    ensures Agree(nodes - {it}, index - {nodes[it].key})
  {
  }

  lemma AddAgrees(nodes: map<Iter, Lru.Entry>, index: map<nat, Iter>, at: Iter, e: Lru.Entry)
    requires Agree(nodes, index) && at !in nodes && e.key !in index
    ensures Agree(nodes[at := e], index[e.key := at])
  {
  }

  lemma RepointAgrees(nodes: map<Iter, Lru.Entry>, index: map<nat, Iter>, it: Iter, at: Iter)
    requires Agree(nodes, index) && it in nodes && at !in nodes
    ensures Agree((nodes - {it})[at := nodes[it]], index[nodes[it].key := at])
  {
  }

  class LRUCache {
    var list: NodeList
    var index: map<nat, Iter>
    var cap: nat
    var coldMisses: nat
    var capacityMisses: nat
    ghost var model: Lru.Cache

    /** Index and list agree, and together they stand for `model`. */
    ghost predicate Valid()
      reads this
    {
      && 1 <= cap
      && list.Live() && Agree(list.nodes, index) && |index| == |list.order|
      && model == Lru.Cache(list.Entries(), cap, coldMisses, capacityMisses)
    }

    constructor (capacity: nat)
      requires 1 <= capacity
      ensures Valid() && model == Lru.EmptyCache(capacity)
    {
      list, index := NodeList([], map[], 0), map[];
      cap, coldMisses, capacityMisses := capacity, 0, 0;
      model := Lru.EmptyCache(capacity);
    }

    /** Copy the node, unlink it, relink the copy at the front, repoint the index. */
    method Promote(it: Iter)
      requires Valid() && it in list.nodes
      modifies this`list, this`index, this`model
      ensures Valid()
      ensures model.entries == [old(list).nodes[it]] +
                               Lru.Without(old(model).entries, old(list).nodes[it].key)
    {
      var l, pair := list, list.nodes[it];
      AgreeDistinct(l, index);
      EraseEntries(l, it);
      PushFrontEntries(l.Erase(it), pair);
      RepointAgrees(l.nodes, index, it, l.next);
      l := l.Erase(it);
      l := l.PushFront(pair);
      model := model.(entries := l.Entries());
      list, index := l, index[pair.key := l.Begin()];
    }

    method Get(key: nat, createNew: bool) returns (line: Cacheline)
      requires Valid()
      modifies this
      ensures Valid() && (model, line) == Lru.Get(old(model), key, createNew)
    {
      IndexIsFind(list, index, key);
      if key !in index {
        if createNew {
          line := FreshLine(key);
          Put(key, line);
        } else {
          line := NO_LINE;
        }
      } else {
        line := list.nodes[index[key]].line;
        Promote(index[key]);
      }
    }

    method Put(key: nat, value: Cacheline)
      requires Valid()
      modifies this
      ensures Valid() && model == Lru.Put(old(model), key, value)
    {
      IndexIsFind(list, index, key);
      if key !in index {
        if |index| == cap {
          EvictBack();
          capacityMisses := capacityMisses + 1;
          model := model.(capacityMisses := capacityMisses);
        } else {
          coldMisses := coldMisses + 1;
          model := model.(coldMisses := coldMisses);
        }
        InsertFront(Lru.Entry(key, value));
      } else {
        Overwrite(index[key], value);
      }
    }

    method EvictBack()
      requires Valid() && list.order != []
      modifies this`list, this`index, this`model
      ensures Valid() && index.Keys <= old(index).Keys
      ensures model.entries == old(model).entries[..|old(model).entries| - 1]
    {
      var l, last := list, list.Back();
      EraseBack(l);
      assert last in l.order;
      DropAgrees(l.nodes, index, last);
      model := model.(entries := l.Erase(last).Entries());
      index, list := index - {l.nodes[last].key}, l.Erase(last);
    }

    method InsertFront(e: Lru.Entry)
      requires Valid() && e.key !in index
      modifies this`list, this`index, this`model
      ensures Valid() && model.entries == [e] + old(model).entries
    {
      PushFrontEntries(list, e);
      AddAgrees(list.nodes, index, list.next, e);
      var l := list.PushFront(e);
      model := model.(entries := l.Entries());
      list, index := l, index[e.key := l.Begin()];
    }

    method Overwrite(it: Iter, value: Cacheline)
      requires Valid() && it in list.nodes
      modifies this`list, this`index, this`model
      ensures Valid()
      ensures var k := old(list).nodes[it].key;
              model.entries == [Lru.Entry(k, value)] + Lru.Without(old(model).entries, k)
    {
      AgreeDistinct(list, index);
      EraseEntries(list, it);
      var l := list.SetLine(it, value);
      assert l.Erase(it) == list.Erase(it);
      list := l;
      model := model.(entries := list.Entries());
      AgreeDistinct(list, index);
      EraseEntries(list, it);
      Promote(it);
    }
  }
}
