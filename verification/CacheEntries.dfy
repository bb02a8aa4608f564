/**
 What lib/cache.c does to the tree of its entries: insert or update, and the sweep that
 removes outdated entries while walking the tree.
 */
module CacheEntries {
  import opened TreeLinks
  import opened LinkedTree
  import opened TreeMap
  import Ops = TreeOps
  import TreeWalk
  import CM = CacheModel

  type Node<K, V> = Elem<K, CM.Item<V>>

  /** Insert a new node with the entry, or update the one that has the key. */
  method SetEntry<K(!new), V>(head: Head<K, CM.Item<V>>, key: K, value: V, duration: int, created: int, now: int,
                              ghost v: View<K, CM.Item<V>>)
    returns (ghost w: View<K, CM.Item<V>>)
    requires Stores(head, v)
    modifies head, head.mem.Keys
    ensures Stores(head, w)
    ensures w.items == v.items[key := CM.Item(value, if key in v.items then now else created, duration)]
    ensures fresh(head.mem.Keys - old(head.mem.Keys))
  {
    var item := new Elem(key, CM.Item(value, created, duration));
    var found;
    ghost var steps;
    found, w, steps := InsertEntry(head, item, v);
    if found != null {
      UpdateEntry(head, found, CM.Item(value, now, duration), w);
      w := w.(items := w.items[key := CM.Item(value, now, duration)]);
    }
  }

  /** The nodes of `s` whose entries are still live. */
  ghost function Live<K, V>(s: seq<Node<K, V>>, items: CM.Items<K, V>, now: int): (r: seq<Node<K, V>>)
    ensures forall i :: 0 <= i < |r| ==> r[i].key in items && !CM.Outdated(items[r[i].key], now)
  {
    if s == [] then []
    else
      var e := s[|s| - 1];
      Live(s[..|s| - 1], items, now) + if e.key in items && !CM.Outdated(items[e.key], now) then [e] else []
  }

  /** The body of RB_FOREACH_SAFE: fetch the successor of `x`, then remove `x` if it is outdated. */
  method SweepNode<K(!new), V>(head: Head<K, CM.Item<V>>, x: Node<K, V>, now: int, ghost v: View<K, CM.Item<V>>,
                               ghost a: seq<Node<K, V>>, ghost b: seq<Node<K, V>>)
    returns (y: Elem?<K, CM.Item<V>>, ghost w: View<K, CM.Item<V>>)
    requires Stores(head, v) && v.shape.Inorder() == a + [x] + b
    modifies head, head.mem.Keys`entry
    ensures Stores(head, w) && x.key in v.items && y == TreeWalk.First(b) && head.mem.Keys <= old(head.mem.Keys)
    ensures CM.Outdated(v.items[x.key], now) ==> w.items == v.items - {x.key} && w.shape.Inorder() == a + b
    ensures !CM.Outdated(v.items[x.key], now) ==> w == v
  {
    y := TreeWalk.Next(head, x, v.shape, a, b);
    Ops.ElemsInorder(v.shape);
    Ops.AroundElems(a, x, b);
    w := v;
    if CM.Outdated(x.data, now) {
      ghost var steps;
      w, steps := RemoveEntry(head, x, v, a, b);
    }
  }

  /** Part of a sweep is done: of the nodes `visited` only the live ones are left. */
  ghost predicate SweptTo<K(!new), V>(v: View<K, CM.Item<V>>, w: View<K, CM.Item<V>>, visited: seq<Node<K, V>>,
                                      rest: seq<Node<K, V>>, now: int) {
    && visited + rest == v.shape.Inorder()
    && w.shape.Inorder() == Live(visited, v.items, now) + rest
    && (forall k :: k in w.items ==> k in v.items && w.items[k] == v.items[k])
    && (forall k :: k in v.items && k !in w.items ==> CM.Outdated(v.items[k], now))
  }

  method SweepTree<K(!new), V>(head: Head<K, CM.Item<V>>, now: int, ghost v: View<K, CM.Item<V>>)
    returns (ghost visited: seq<Node<K, V>>, ghost w: View<K, CM.Item<V>>)
    requires Stores(head, v)
    modifies head, head.mem.Keys`entry
    ensures Stores(head, w) && w.items == CM.Sweep(v.items, now) && head.mem.Keys <= old(head.mem.Keys)
    ensures visited == v.shape.Inorder() && w.shape.Inorder() == Live(visited, v.items, now)
  {
    w, visited := v, [];
    ghost var rest := v.shape.Inorder();
    var x := TreeWalk.Min(head, v.shape);
    while x != null
      invariant Stores(head, w) && SweptTo(v, w, visited, rest, now) && x == TreeWalk.First(rest)
      invariant head.mem.Keys <= old(head.mem.Keys)
      decreases |rest|
    {
      ghost var w0 := w;
      NextOff(Live(visited, v.items, now), rest);
      x, w := SweepNode(head, x, now, w0, Live(visited, v.items, now), rest[1..]);
      SweptNode(v, w0, w, visited, rest, now);
      visited, rest := visited + [rest[0]], rest[1..];
    }
    SweptAll(v, w, visited, now);
  }

  /** Removing an outdated node, or keeping a live one, carries the sweep on. */
  lemma SweptNode<K(!new), V>(v: View<K, CM.Item<V>>, w: View<K, CM.Item<V>>, w': View<K, CM.Item<V>>,
                              visited: seq<Node<K, V>>, rest: seq<Node<K, V>>, now: int)
    requires SweptTo(v, w, visited, rest, now) && rest != [] && rest[0].key in w.items
    requires CM.Outdated(w.items[rest[0].key], now) ==>
               w'.items == w.items - {rest[0].key} && w'.shape.Inorder() == Live(visited, v.items, now) + rest[1..]
    requires !CM.Outdated(w.items[rest[0].key], now) ==> w' == w
    ensures SweptTo(v, w', visited + [rest[0]], rest[1..], now)
  {
    var s, k, live := visited + [rest[0]], rest[0].key, Live(visited, v.items, now);
    assert s[..|s| - 1] == visited;
    assert v.items[k] == w.items[k];
    NextOff(visited, rest);
    if CM.Outdated(v.items[k], now) {
      assert Live(s, v.items, now) == live + [] == live;
    } else {
      assert Live(s, v.items, now) == live + [rest[0]];
      NextOff(live, rest);
    }
  }

  lemma NextOff<T>(a: seq<T>, b: seq<T>)
    requires b != []
    ensures a + b == a + [b[0]] + b[1..]
  {
  }

  lemma SweptAll<K(!new), V>(v: View<K, CM.Item<V>>, w: View<K, CM.Item<V>>, visited: seq<Node<K, V>>, now: int)
    requires SweptTo(v, w, visited, [], now)
    requires Indexed(w.at, Elems(w.shape)) && SameKeys(w.at, w.items)
    ensures w.items == CM.Sweep(v.items, now) && visited == v.shape.Inorder()
    ensures w.shape.Inorder() == Live(visited, v.items, now)
  {
    assert visited + [] == visited;
    var live := Live(visited, v.items, now);
    assert live + [] == live;
    forall k | k in w.items ensures !CM.Outdated(v.items[k], now) {
      Ops.ElemsInorder(w.shape);
      assert w.at[k] in Ops.Members(w.shape.Inorder());
    }
  }
}
