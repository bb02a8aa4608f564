/**
 The linked tree as a map from keys to the data of its nodes: what RB_INSERT, RB_FIND and
 RB_REMOVE do for the cache and for the namespace of mutexes.
 */
module TreeMap {
  import opened RankTree
  import opened TreeLinks
  import opened LinkedTree
  import opened KeyOrder
  import Ops = TreeOps
  import TreeRemove
  import Cost = RankTreeCost

  /** `at` finds every node of a tree by its key. */
  ghost predicate Indexed<K, V>(at: map<K, Elem<K, V>>, nodes: set<Elem<K, V>>) {
    && (forall k :: k in at ==> at[k] in nodes && at[k].key == k)
    && (forall e :: e in nodes ==> e.key in at && at[e.key] == e)
  }

  lemma IndexedWith<K, V>(at: map<K, Elem<K, V>>, nodes: set<Elem<K, V>>, e: Elem<K, V>)
    requires Indexed(at, nodes) && e.key !in at
    ensures Indexed(at[e.key := e], nodes + {e})
  {
  }

  /** A search by walking the tree and one by the index agree. */
  lemma IndexedFound<K(!new), V>(at: map<K, Elem<K, V>>, t: Tree<Elem<K, V>>, k: K)
    requires Indexed(at, Elems(t))
    ensures forall e :: e in t.Inorder() && e.key == k ==> k in at && e == at[k]
    ensures (forall e :: e in t.Inorder() ==> e.key != k) ==> k !in at
  {
    Ops.ElemsInorder(t);
    if k in at { assert at[k] in Ops.Members(t.Inorder()); }
  }

  ghost predicate SameKeys<K(!new), A, B>(a: map<K, A>, b: map<K, B>) { forall k :: k in a <==> k in b }

  /** The nodes hold the data `items`. */
  ghost predicate Holding<K, V>(nodes: set<Elem<K, V>>, items: map<K, V>)
    reads nodes`data
  {
    forall e :: e in nodes ==> e.key in items && items[e.key] == e.data
  }

  /** What a tree stands for: its shape, the node of each key, and the map from keys to data. */
  datatype View<K, V> = View(shape: Tree<Elem<K, V>>, at: map<K, Elem<K, V>>, items: map<K, V>)

  ghost predicate Stores<K(!new), V>(head: Head<K, V>, v: View<K, V>)
    reads head, head.mem.Keys`entry, head.mem.Keys`data
  {
    && Ops.Valid(head, v.shape) && Indexed(v.at, head.mem.Keys)
    && SameKeys(v.at, v.items) && Holding(head.mem.Keys, v.items)
  }

  lemma InsertedNodes<K(!new), V>(t0: Tree<Elem<K, V>>, t1: Tree<Elem<K, V>>, a: seq<Elem<K, V>>, e: Elem<K, V>,
                                  b: seq<Elem<K, V>>, at: map<K, Elem<K, V>>)
    requires t0.Inorder() == a + b && t1.Inorder() == a + [e] + b && Indexed(at, Elems(t0)) && e.key !in at
    ensures Elems(t1) == Elems(t0) + {e} && Indexed(at[e.key := e], Elems(t1))
  {
    AddedOnly(t0, t1, a, e, b);
    IndexedWith(at, Elems(t0), e);
  }

  lemma AddedOnly<T>(t0: Tree<T>, t1: Tree<T>, a: seq<T>, e: T, b: seq<T>)
    requires t0.Inorder() == a + b && t1.Inorder() == a + [e] + b
    ensures Elems(t1) == Elems(t0) + {e}
  {
    Ops.ElemsInorder(t0);
    Ops.ElemsInorder(t1);
    Ops.AroundElems(a, e, b);
  }

  /** RB_INSERT, seen through the index, and the iterations of its rebalancing loop. */
  method InsertNode<K(!new), V>(head: Head<K, V>, elm: Elem<K, V>, ghost t0: Tree<Elem<K, V>>,
                                ghost at: map<K, Elem<K, V>>)
    returns (found: Elem?<K, V>, ghost t1: Tree<Elem<K, V>>, ghost steps: nat)
    requires Ops.Valid(head, t0) && elm !in head.mem && Indexed(at, head.mem.Keys)
    modifies head, head.mem.Keys`entry, elm`entry
    ensures Ops.Valid(head, t1)
    ensures found == null <==> elm.key !in at
    ensures found != null ==> found == at[elm.key] && head.mem.Keys == old(head.mem.Keys)
    ensures found == null ==> head.mem.Keys == old(head.mem.Keys) + {elm}
    ensures Indexed(if found == null then at[elm.key := elm] else at, head.mem.Keys)
    ensures steps + Cost.Potential(t1) <= Cost.Potential(t0) + if found == null then 4 else 0
  {
    ghost var p;
    found, p, t1, steps := Ops.Insert(head, elm, t0);
    IndexedFound(at, t0, elm.key);
    if found == null {
      InsertedNodes(t0, t1, Before(p), elm, After(p), at);
      Cost.InsertAmortised(p, elm);
    }
  }

  /** Link in a new node, or find the one that has its key. */
  method InsertEntry<K(!new), V>(head: Head<K, V>, e: Elem<K, V>, ghost v: View<K, V>)
    returns (found: Elem?<K, V>, ghost w: View<K, V>, ghost steps: nat)
    requires Stores(head, v) && e !in head.mem
    modifies head, head.mem.Keys`entry, e`entry
    ensures Stores(head, w)
    ensures found == null <==> e.key !in v.items
    ensures found != null ==>
              found in head.mem && found.key == e.key && w.items == v.items && head.mem.Keys == old(head.mem.Keys)
    ensures found == null ==> w.items == v.items[e.key := e.data] && head.mem.Keys == old(head.mem.Keys) + {e}
    ensures steps + Cost.Potential(w.shape) <= Cost.Potential(v.shape) + if found == null then 4 else 0
  {
    ghost var t1;
    found, t1, steps := InsertNode(head, e, v.shape, v.at);
    w := if found == null then View(t1, v.at[e.key := e], v.items[e.key := e.data]) else View(t1, v.at, v.items);
  }

  method UpdateEntry<K(!new), V>(head: Head<K, V>, e: Elem<K, V>, d: V, ghost v: View<K, V>)
    requires Stores(head, v) && e in head.mem
    modifies e`data
    ensures Stores(head, v.(items := v.items[e.key := d]))
  {
    e.data := d;
  }

  /** A node of a tree and what is before and after it. */
  lemma Split<T>(t: Tree<T>, e: T) returns (a: seq<T>, b: seq<T>)
    requires e in Elems(t)
    ensures t.Inorder() == a + [e] + b
  {
    Ops.ElemsInorder(t);
    var s := t.Inorder();
    assert e in Ops.Members(s);
    var i :| 0 <= i < |s| && s[i] == e;
    a, b := s[..i], s[i + 1..];
  }

  lemma RemovedNodes<K(!new), V>(t0: Tree<Elem<K, V>>, t1: Tree<Elem<K, V>>, a: seq<Elem<K, V>>, e: Elem<K, V>,
                                 b: seq<Elem<K, V>>, cmp: (K, K) -> int)
    requires TotalOrder(cmp) && Ops.Sorted(t0.Inorder(), cmp) && t0.Inorder() == a + [e] + b && t1.Inorder() == a + b
    ensures e in Elems(t0) && Elems(t1) == Elems(t0) - {e}
  {
    Ops.ElemsInorder(t0);
    Ops.ElemsInorder(t1);
    Ops.AroundElems(a, e, b);
    Ops.SortedDistinct(t0.Inorder(), cmp);
    Ops.DistinctAround(a, e, b);
  }

  lemma IndexedWithout<K, V>(at: map<K, Elem<K, V>>, nodes: set<Elem<K, V>>, e: Elem<K, V>)
    requires Indexed(at, nodes) && e in nodes
    ensures Indexed(at - {e.key}, nodes - {e})
  {
  }

  /** RB_REMOVE of the node between `a` and `b`. */
  method RemoveEntry<K(!new), V>(head: Head<K, V>, e: Elem<K, V>, ghost v: View<K, V>, ghost a: seq<Elem<K, V>>,
                                 ghost b: seq<Elem<K, V>>)
    returns (ghost w: View<K, V>, ghost steps: nat)
    requires Stores(head, v) && v.shape.Inorder() == a + [e] + b
    modifies head, head.mem.Keys`entry
    ensures Stores(head, w) && w.items == v.items - {e.key} && w.shape.Inorder() == a + b
    ensures head.mem.Keys == old(head.mem.Keys) - {e}
    ensures steps + Cost.Potential(w.shape) <= Cost.Potential(v.shape) + 5
  {
    ghost var p, t, t1;
    p, t, t1, steps := TreeRemove.Remove(head, e, v.shape, a, b);
    RemovedNodes(v.shape, t1, a, e, b, head.cmp);
    IndexedWithout(v.at, Elems(v.shape), e);
    Cost.RemoveAmortised(p, t);
    w := View(t1, v.at - {e.key}, v.items - {e.key});
  }

  /** RB_FIND as a lookup in the map. */
  method FindEntry<K(!new), V>(head: Head<K, V>, key: K, ghost v: View<K, V>) returns (e: Elem?<K, V>)
    requires Stores(head, v)
    ensures e == null <==> key !in v.items
    ensures e != null ==> e in head.mem && e.key == key
  {
    ghost var steps;
    e, steps := Ops.Find(head, key, v.shape);
    IndexedFound(v.at, v.shape, key);
  }

  /** RB_FIND and RB_REMOVE of the node with the key. */
  method DelEntry<K(!new), V>(head: Head<K, V>, key: K, ghost v: View<K, V>)
    returns (found: bool, ghost w: View<K, V>, ghost steps: nat)
    requires Stores(head, v)
    modifies head, head.mem.Keys`entry
    ensures Stores(head, w) && w.items == v.items - {key} && found == (key in v.items)
    ensures head.mem.Keys <= old(head.mem.Keys)
    ensures steps + Cost.Potential(w.shape) <= Cost.Potential(v.shape) + if found then 5 else 0
  {
    var item := FindEntry(head, key, v);
    found, w, steps := item != null, v, 0;
    if found {
      var e: Elem<K, V> := item;
      ghost var a: seq<Elem<K, V>>, b: seq<Elem<K, V>> := Split(v.shape, e);
      w, steps := RemoveEntry(head, e, v, a, b);
    }
  }
}
