/**
 Sequences of calls on one linked tree, and all the rebalancing that they do together.
 */
module TreeRuns {
  import opened RankTree
  import opened TreeLinks
  import opened LinkedTree
  import opened TreeMap
  import Cost = RankTreeCost

  /** RB_INSERT of a new node, or RB_FIND and RB_REMOVE of the node with the key. */
  datatype Call<K, V> = Add(key: K, data: V) | Drop(key: K)

  /** What the calls leave in a map, and how many of them add a key and take one out. */
  datatype Outcome<!K, V> = Outcome(items: map<K, V>, inserted: nat, removed: nat)

  /** A call for an absent key adds it, and one for a key that is there removes it. */
  function Then<K(==), V>(o: Outcome<K, V>, call: Call<K, V>): Outcome<K, V> {
    match call
    case Add(k, d) => if k in o.items then o else Outcome(o.items[k := d], o.inserted + 1, o.removed)
    case Drop(k) => if k in o.items then Outcome(o.items - {k}, o.inserted, o.removed + 1) else o
  }

  function Performed<K(==), V>(items: map<K, V>, calls: seq<Call<K, V>>): Outcome<K, V> {
    if calls == [] then Outcome(items, 0, 0)
    else Then(Performed(items, calls[..|calls| - 1]), calls[|calls| - 1])
  }

  /** Every node inserted is still there, or was removed. */
  lemma {:induction false} PerformedBalance<K, V>(items: map<K, V>, calls: seq<Call<K, V>>)
    ensures var o := Performed(items, calls);
            |o.items| + o.removed == |items| + o.inserted && o.inserted + o.removed <= |calls|
    decreases |calls|
  {
    if calls != [] {
      var o, last := Performed(items, calls[..|calls| - 1]), calls[|calls| - 1];
      PerformedBalance(items, calls[..|calls| - 1]);
      if last.Drop? && last.key in o.items { Smaller(o.items, last.key); }
    }
  }

  lemma Smaller<K, V>(m: map<K, V>, k: K)
    requires k in m
    ensures |m - {k}| == |m| - 1
  {
    assert (m - {k}).Keys == m.Keys - {k};
  }

  /** One call, and whether it added or removed a node. */
  method ApplyCall<K(!new), V>(head: Head<K, V>, call: Call<K, V>, ghost v: View<K, V>)
    returns (done: bool, ghost w: View<K, V>, ghost steps: nat)
    requires Stores(head, v)
    modifies head, head.mem.Keys`entry
    ensures Stores(head, w) && fresh(head.mem.Keys - old(head.mem.Keys))
    ensures done == (call.Add? <==> call.key !in v.items)
    ensures w.items == if !done then v.items else if call.Add? then v.items[call.key := call.data]
                       else v.items - {call.key}
    ensures steps + Cost.Potential(w.shape) <=
            Cost.Potential(v.shape) + if !done then 0 else if call.Add? then 4 else 5
  {
    if call.Add? {
      var e := new Elem(call.key, call.data);
      var found;
      found, w, steps := InsertEntry(head, e, v);
      done := found == null;
    } else {
      done, w, steps := DelEntry(head, call.key, v);
    }
  }

  /** The same, counted. */
  method PerformOne<K(!new), V>(head: Head<K, V>, call: Call<K, V>, ghost v: View<K, V>, ins: nat, rem: nat)
    returns (inserted: nat, removed: nat, ghost w: View<K, V>, ghost steps: nat)
    requires Stores(head, v)
    modifies head, head.mem.Keys`entry
    ensures Stores(head, w) && fresh(head.mem.Keys - old(head.mem.Keys))
    ensures Outcome(w.items, inserted, removed) == Then(Outcome(v.items, ins, rem), call)
    ensures steps + Cost.Potential(w.shape) <= Cost.Potential(v.shape) + 4 * (inserted - ins) + 5 * (removed - rem)
  {
    var done;
    done, w, steps := ApplyCall(head, call, v);
    inserted := if done && call.Add? then ins + 1 else ins;
    removed := if done && call.Drop? then rem + 1 else rem;
  }

  /**
   Any sequence of calls on one tree does what it does to a map, and the rebalancing loops
   run at most 4 times for each node inserted and 5 times for each node removed, in total,
   beyond the potential of the tree at the start.
   */
  method Perform<K(!new), V>(head: Head<K, V>, calls: seq<Call<K, V>>, ghost v: View<K, V>)
    returns (inserted: nat, removed: nat, ghost w: View<K, V>, ghost total: nat)
    requires Stores(head, v)
    modifies head, head.mem.Keys`entry
    ensures Stores(head, w) && Outcome(w.items, inserted, removed) == Performed(v.items, calls)
    ensures total <= Cost.Potential(v.shape) + 4 * inserted + 5 * removed
    // from the empty tree
    ensures v.shape.Nil? ==> total <= 4 * inserted + 5 * removed
  {
    inserted, removed, w, total := 0, 0, v, 0;
    for i := 0 to |calls|
      invariant Stores(head, w) && fresh(head.mem.Keys - old(head.mem.Keys))
      invariant Outcome(w.items, inserted, removed) == Performed(v.items, calls[..i])
      invariant total + Cost.Potential(w.shape) <= Cost.Potential(v.shape) + 4 * inserted + 5 * removed
    {
      assert calls[..i + 1][..i] == calls[..i];
      ghost var u, steps;
      inserted, removed, u, steps := PerformOne(head, calls[i], w, inserted, removed);
      w, total := u, total + steps;
    }
    assert calls[..|calls|] == calls;
  }
}
