/**
 The tree operations of lib/infra/tree.h on linked nodes: searching and inserting.
 */
module TreeOps {
  import opened RankTree
  import opened TreeLinks
  import opened LinkedTree
  import opened KeyOrder
  import Insertion = RankTreeInsert
  import Cost = RankTreeCost

  /** Strictly increasing keys. */
  ghost predicate Sorted<K, V>(s: seq<Elem<K, V>>, cmp: (K, K) -> int) {
    forall i, j :: 0 <= i < j < |s| ==> Less(cmp, s[i].key, s[j].key)
  }

  ghost predicate AllBelow<K, V>(s: seq<Elem<K, V>>, k: K, cmp: (K, K) -> int) {
    forall i :: 0 <= i < |s| ==> Less(cmp, s[i].key, k)
  }

  ghost predicate AllAbove<K, V>(s: seq<Elem<K, V>>, k: K, cmp: (K, K) -> int) {
    forall i :: 0 <= i < |s| ==> Less(cmp, k, s[i].key)
  }

  /** The links `m` below `root` form the search tree `t`: balanced, in key order, with no further nodes. */
  ghost predicate IsTree<K(!new), V>(m: Mem<K, V>, root: Elem?<K, V>, t: Tree<Elem<K, V>>, cmp: (K, K) -> int) {
    && Linked(m, t, null) && root == Top(t) && m.Keys == Elems(t)
    && Separate(t) && t.Balanced() && Sorted(t.Inorder(), cmp)
  }

  ghost predicate Valid<K(!new), V>(head: Head<K, V>, t: Tree<Elem<K, V>>)
    reads head, head.mem.Keys`entry
  {
    head.Mirrors() && TotalOrder(head.cmp) && IsTree(head.mem, head.root, t, head.cmp)
  }

  lemma {:induction false} Unplugged<K(!new), V>(m: Mem<K, V>, p: Path<Elem<K, V>>, t: Tree<Elem<K, V>>)
    requires Linked(m, Plug(p, t), null) && Separate(Plug(p, t))
    ensures Placed(m, p, t) && Top(Plug(p, t)) == RootOf(p, Top(t))
    decreases p
  {
    if p.Step? {
      var b := Branch(p.side, t, p.nearLong, p.elem, p.farLong, p.far);
      Unplugged(m, p.up, b);
      assert Elems(b) == Elems(t) + {p.elem} + Elems(p.far);
    }
  }

  lemma {:induction false} PlugSeparate<T>(p: Path<T>, t: Tree<T>)
    ensures Separate(Plug(p, t)) <==> Separate(t) && PathSeparate(p, Elems(t))
    ensures Elems(Plug(p, t)) == Elems(t) + PathElems(p)
    decreases p
  {
    if p.Step? {
      var b := Branch(p.side, t, p.nearLong, p.elem, p.farLong, p.far);
      PlugSeparate(p.up, b);
      assert Elems(b) == Elems(t) + {p.elem} + Elems(p.far);
    }
  }

  ghost function Members<T>(s: seq<T>): set<T> { set x | x in s }

  lemma {:induction false} ElemsInorder<T>(t: Tree<T>)
    ensures Elems(t) == Members(t.Inorder())
  {
    if t.Node? {
      ElemsInorder(t.left);
      ElemsInorder(t.right);
      AroundElems(t.left.Inorder(), t.elem, t.right.Inorder());
    }
  }

  lemma AroundElems<T>(a: seq<T>, e: T, b: seq<T>)
    ensures Members(a + [e] + b) == Members(a) + {e} + Members(b)
    ensures Members(a + b) == Members(a) + Members(b)
  {
  }

  /** In a sorted sequence around `e`, what follows `e` is above every key below it, and the other way round. */
  lemma SortedAround<K(!new), V>(a: seq<Elem<K, V>>, l: seq<Elem<K, V>>, e: Elem<K, V>, r: seq<Elem<K, V>>,
                                 z: seq<Elem<K, V>>, k: K, cmp: (K, K) -> int)
    requires TotalOrder(cmp) && Sorted(a + (l + [e] + r) + z, cmp)
    ensures Less(cmp, k, e.key) ==> AllAbove(r, k, cmp)
    ensures Less(cmp, e.key, k) ==> AllBelow(l, k, cmp)
  {
    var s := a + (l + [e] + r) + z;
    var n := |a| + |l|;
    assert s[n] == e;
    if Less(cmp, k, e.key) {
      forall i | 0 <= i < |r| ensures Less(cmp, k, r[i].key) {
        assert s[n + 1 + i] == r[i];
        LessTransitive(cmp, k, e.key, r[i].key);
      }
    }
    if Less(cmp, e.key, k) {
      forall i | 0 <= i < |l| ensures Less(cmp, l[i].key, k) {
        assert s[|a| + i] == l[i];
        LessTransitive(cmp, l[i].key, e.key, k);
      }
    }
  }

  /** One step of a search keeps the key between what lies before and after. */
  lemma SearchLeft<K(!new), V>(p: Path<Elem<K, V>>, t: Tree<Elem<K, V>>, k: K, cmp: (K, K) -> int)
    requires TotalOrder(cmp) && t.Node? && Sorted(Plug(p, t).Inorder(), cmp) && Less(cmp, k, t.elem.key)
    requires AllBelow(Before(p), k, cmp) && AllAbove(After(p), k, cmp)
    ensures var q := Step(p, L, t.leftLong, t.elem, t.rightLong, t.right);
            Plug(q, t.left) == Plug(p, t) && AllBelow(Before(q), k, cmp) && AllAbove(After(q), k, cmp)
  {
    PlugInorder(p, t);
    SortedAround(Before(p), t.left.Inorder(), t.elem, t.right.Inorder(), After(p), k, cmp);
  }

  lemma SearchRight<K(!new), V>(p: Path<Elem<K, V>>, t: Tree<Elem<K, V>>, k: K, cmp: (K, K) -> int)
    requires TotalOrder(cmp) && t.Node? && Sorted(Plug(p, t).Inorder(), cmp) && Less(cmp, t.elem.key, k)
    requires AllBelow(Before(p), k, cmp) && AllAbove(After(p), k, cmp)
    ensures var q := Step(p, R, t.rightLong, t.elem, t.leftLong, t.left);
            Plug(q, t.right) == Plug(p, t) && AllBelow(Before(q), k, cmp) && AllAbove(After(q), k, cmp)
  {
    PlugInorder(p, t);
    SortedAround(Before(p), t.left.Inorder(), t.elem, t.right.Inorder(), After(p), k, cmp);
  }

  /** The key is nowhere in a tree whose search for it ends in a null position. */
  lemma NotFound<K(!new), V>(p: Path<Elem<K, V>>, k: K, cmp: (K, K) -> int)
    requires TotalOrder(cmp) && AllBelow(Before(p), k, cmp) && AllAbove(After(p), k, cmp)
    ensures forall e :: e in Plug(p, Nil).Inorder() ==> e.key != k
  {
    PlugInorder(p, Nil);
    Trichotomy(cmp, k, k);
  }

  /** RB_FIND. */
  method Find<K(!new), V>(head: Head<K, V>, k: K, ghost t0: Tree<Elem<K, V>>) returns (r: Elem?<K, V>, ghost steps: nat)
    requires Valid(head, t0)
    ensures r != null ==> r in t0.Inorder() && r.key == k
    ensures r == null ==> forall e :: e in t0.Inorder() ==> e.key != k
    ensures steps <= t0.Height()
  {
    r := head.root;
    steps := 0;
    ghost var p: Path<Elem<K, V>>, t: Tree<Elem<K, V>> := Root, t0;
    while r != null
      invariant Plug(p, t) == t0 && r == Top(t) && Linked(head.mem, t, Parent(p))
      invariant AllBelow(Before(p), k, head.cmp) && AllAbove(After(p), k, head.cmp)
      invariant steps + t.Height() <= t0.Height()
      decreases t
    {
      steps := steps + 1;
      var c := head.cmp(k, r.key);
      Trichotomy(head.cmp, k, r.key);
      if c < 0 {
        SearchLeft(p, t, k, head.cmp);
        p, t := Step(p, L, t.leftLong, t.elem, t.rightLong, t.right), t.left;
        r := r.entry.left;
      } else if c > 0 {
        SearchRight(p, t, k, head.cmp);
        p, t := Step(p, R, t.rightLong, t.elem, t.leftLong, t.left), t.right;
        r := r.entry.right;
      } else {
        PlugInorder(p, t);
        return;
      }
    }
    NotFound(p, k, head.cmp);
  }

  lemma {:induction false} HangSeparate<T>(p: Path<T>, e: T, hole: set<T>)
    requires PathSeparate(p, hole) && e !in PathElems(p) && e !in hole
    ensures PathSeparate(p, hole + {e})
    decreases p
  {
    if p.Step? {
      HangSeparate(p.up, e, hole + {p.elem} + Elems(p.far));
      assert hole + {p.elem} + Elems(p.far) + {e} == hole + {e} + {p.elem} + Elems(p.far);
    }
  }

  lemma LeafHung<K(!new), V>(m: Mem<K, V>, m': Mem<K, V>, p: Path<Elem<K, V>>, e: Elem<K, V>)
    requires Placed(m, p, Nil) && e !in m && e !in PathElems(p)
    requires e in m' && m'[e] == Links(Parent(p), null, null, false, false)
    requires p.Step? ==> p.elem in m' && m'[p.elem] == m[p.elem].WithLink(p.side, e)
    requires Agree(m, m', if p.Step? then {p.elem} else {})
    ensures Placed(m', p, Leaf(e))
  {
    HangSeparate(p, e, {});
    assert Elems(Leaf(e)) == {e} && {} + {e} == {e};
    if p.Step? {
      PathDisjoint(p.up, {} + {p.elem} + Elems(p.far));
      LinkedFrame(m, m', {p.elem}, p.far, p.elem);
      PathFrame(m, m', {p.elem}, p.up, p.elem);
    }
  }

  /** RB_SET and the write through the link pointer found by the search. */
  method HangLeaf<K(!new), V>(head: Head<K, V>, parent: Elem?<K, V>, s: Side, elm: Elem<K, V>,
                              ghost p: Path<Elem<K, V>>)
    requires head.At(p, Nil) && parent == Parent(p) && (p.Step? ==> s == p.side)
    requires elm !in head.mem && elm !in PathElems(p)
    modifies head, head.mem.Keys`entry, elm`entry
    ensures head.At(p, Leaf(elm)) && head.mem.Keys == old(head.mem.Keys) + {elm}
  {
    ghost var m := head.mem;
    elm.entry := Links(parent, null, null, false, false);
    head.mem := head.mem[elm := elm.entry];
    if parent == null {
      head.root := elm;
    } else {
      head.Put(parent, parent.entry.WithLink(s, elm));
    }
    LeafHung(m, head.mem, p, elm);
  }

  /** RB_INSERT_FINISH. */
  method InsertFinish<K(!new), V>(head: Head<K, V>, parent: Elem?<K, V>, s: Side, elm: Elem<K, V>,
                                  ghost p: Path<Elem<K, V>>)
    returns (ghost steps: nat)
    requires head.At(p, Nil) && parent == Parent(p) && (p.Step? ==> s == p.side) && Fits(p, 0, true)
    requires elm !in head.mem && elm !in PathElems(p)
    modifies head, head.mem.Keys`entry, elm`entry
    ensures head.Holds(Insertion.InsertAt(p, elm)) && head.mem.Keys == old(head.mem.Keys) + {elm}
    ensures Insertion.Grown(p, Leaf(elm)) && steps == Cost.InsertSteps(p, Leaf(elm))
  {
    HangLeaf(head, parent, s, elm, p);
    if parent != null {
      steps := head.InsertColor(parent, elm, p, Leaf(elm));
    } else {
      head.AtHolds(p, Leaf(elm));
      steps := 0;
    }
  }

  lemma {:induction false} SeparateDistinct<T>(t: Tree<T>)
    requires Distinct(t.Inorder())
    ensures Separate(t)
  {
    if t.Node? {
      DistinctAround(t.left.Inorder(), t.elem, t.right.Inorder());
      SeparateDistinct(t.left);
      SeparateDistinct(t.right);
      ElemsInorder(t.left);
      ElemsInorder(t.right);
    }
  }

  ghost predicate Distinct<T>(s: seq<T>) {
    forall i, j :: 0 <= i < j < |s| ==> s[i] != s[j]
  }

  lemma DistinctAround<T>(a: seq<T>, e: T, b: seq<T>)
    requires Distinct(a + [e] + b)
    ensures Distinct(a) && Distinct(b) && e !in a && e !in b && (forall x :: x in a ==> x !in b)
  {
    var s := a + [e] + b;
    assert s[|a|] == e;
    forall i, j | 0 <= i < j < |a| ensures a[i] != a[j] { assert s[i] != s[j]; }
    forall i, j | 0 <= i < j < |b| ensures b[i] != b[j] { assert s[|a| + 1 + i] != s[|a| + 1 + j]; }
    forall i | 0 <= i < |a| ensures a[i] != e && a[i] !in b {
      assert s[i] != s[|a|];
      forall j | 0 <= j < |b| ensures a[i] != b[j] { assert s[i] != s[|a| + 1 + j]; }
    }
    forall j | 0 <= j < |b| ensures e != b[j] { assert s[|a|] != s[|a| + 1 + j]; }
  }

  lemma SortedDistinct<K(!new), V>(s: seq<Elem<K, V>>, cmp: (K, K) -> int)
    requires TotalOrder(cmp) && Sorted(s, cmp)
    ensures Distinct(s)
  {
    forall i, j | 0 <= i < j < |s| ensures s[i] != s[j] { Trichotomy(cmp, s[i].key, s[j].key); }
  }

  lemma SortedWith<K(!new), V>(a: seq<Elem<K, V>>, e: Elem<K, V>, b: seq<Elem<K, V>>, cmp: (K, K) -> int)
    requires Sorted(a + b, cmp) && AllBelow(a, e.key, cmp) && AllAbove(b, e.key, cmp)
    ensures Sorted(a + [e] + b, cmp)
  {
    var s := a + [e] + b;
    forall i, j | 0 <= i < j < |s| ensures Less(cmp, s[i].key, s[j].key) {
      if j < |a| {
        assert (a + b)[i] == s[i] && (a + b)[j] == s[j];
      } else if i > |a| {
        assert (a + b)[i - 1] == s[i] && (a + b)[j - 1] == s[j];
      } else if i < |a| && j > |a| {
        assert (a + b)[i] == s[i] && (a + b)[j - 1] == s[j];
      }
    }
  }

  lemma SortedWithout<K(!new), V>(a: seq<Elem<K, V>>, e: Elem<K, V>, b: seq<Elem<K, V>>, cmp: (K, K) -> int)
    requires Sorted(a + [e] + b, cmp)
    ensures Sorted(a + b, cmp)
  {
    var s := a + [e] + b;
    forall i, j | 0 <= i < j < |a + b| ensures Less(cmp, (a + b)[i].key, (a + b)[j].key) {
      assert (a + b)[i] == s[if i < |a| then i else i + 1] && (a + b)[j] == s[if j < |a| then j else j + 1];
    }
  }

  /** Where a search for `k` in `t0` ends: the key at `t`, or a null position. */
  method Search<K(!new), V>(head: Head<K, V>, k: K, ghost t0: Tree<Elem<K, V>>)
    returns (parent: Elem?<K, V>, s: Side, r: Elem?<K, V>, ghost p: Path<Elem<K, V>>)
    requires Valid(head, t0)
    ensures r != null ==> r in t0.Inorder() && r.key == k
    ensures r == null ==>
              && Plug(p, Nil) == t0 && parent == Parent(p) && (p.Step? ==> s == p.side)
              && AllBelow(Before(p), k, head.cmp) && AllAbove(After(p), k, head.cmp)
  {
    parent, s, r := null, L, head.root;
    p := Root;
    ghost var t: Tree<Elem<K, V>> := t0;
    while r != null
      invariant Plug(p, t) == t0 && r == Top(t) && Linked(head.mem, t, Parent(p))
      invariant parent == Parent(p) && (p.Step? ==> s == p.side)
      invariant AllBelow(Before(p), k, head.cmp) && AllAbove(After(p), k, head.cmp)
      decreases t
    {
      parent := r;
      var c := head.cmp(k, parent.key);
      Trichotomy(head.cmp, k, parent.key);
      if c < 0 {
        SearchLeft(p, t, k, head.cmp);
        p, t := Step(p, L, t.leftLong, t.elem, t.rightLong, t.right), t.left;
        s, r := L, parent.entry.left;
      } else if c > 0 {
        SearchRight(p, t, k, head.cmp);
        p, t := Step(p, R, t.rightLong, t.elem, t.leftLong, t.left), t.right;
        s, r := R, parent.entry.right;
      } else {
        PlugInorder(p, t);
        return;
      }
    }
  }

  /** Inserting where a search for the key ended. */
  lemma InsertedTree<K(!new), V>(p: Path<Elem<K, V>>, e: Elem<K, V>, cmp: (K, K) -> int)
    requires TotalOrder(cmp) && Plug(p, Nil).Balanced() && Sorted(Plug(p, Nil).Inorder(), cmp)
    requires AllBelow(Before(p), e.key, cmp) && AllAbove(After(p), e.key, cmp)
    ensures Fits(p, 0, true)
    ensures var t := Insertion.InsertAt(p, e);
            && t.Balanced() && Separate(t) && Sorted(t.Inorder(), cmp)
            && Elems(t) == Elems(Plug(p, Nil)) + {e}
            && Plug(p, Nil).Inorder() == Before(p) + After(p) && t.Inorder() == Before(p) + [e] + After(p)
  {
    Insertion.InsertAtCorrect(p, e);
    var t0, t := Plug(p, Nil), Insertion.InsertAt(p, e);
    SortedWith(Before(p), e, After(p), cmp);
    InorderValid(t, cmp);
    ElemsInorder(t0);
    AroundElems(Before(p), e, After(p));
  }

  /** RB_INSERT: link `elm` in and return null, or return the node that already has its key. */
  method Insert<K(!new), V>(head: Head<K, V>, elm: Elem<K, V>, ghost t0: Tree<Elem<K, V>>)
    returns (r: Elem?<K, V>, ghost p: Path<Elem<K, V>>, ghost t1: Tree<Elem<K, V>>, ghost steps: nat)
    requires Valid(head, t0) && elm !in head.mem
    modifies head, head.mem.Keys`entry, elm`entry
    ensures Valid(head, t1)
    ensures r != null ==> r in t0.Inorder() && r.key == elm.key && t1 == t0 && steps == 0
    ensures r == null ==>
              && (forall e :: e in t0.Inorder() ==> e.key != elm.key)
              && Plug(p, Nil) == t0 && Fits(p, 0, true) && t1 == Insertion.InsertAt(p, elm)
              && t0.Inorder() == Before(p) + After(p) && t1.Inorder() == Before(p) + [elm] + After(p)
              && steps == Cost.InsertSteps(p, Leaf(elm))
  {
    var parent, s;
    parent, s, r, p := Search(head, elm.key, t0);
    if r != null {
      t1, steps := t0, 0;
      return;
    }
    InsertedTree(p, elm, head.cmp);
    Unplugged(head.mem, p, Nil);
    PlugSeparate(p, Nil);
    NotFound(p, elm.key, head.cmp);
    t1 := Insertion.InsertAt(p, elm);
    steps := InsertFinish(head, parent, s, elm, p);
  }

  /** In a sorted tree no node occurs twice. */
  lemma InorderValid<K(!new), V>(t: Tree<Elem<K, V>>, cmp: (K, K) -> int)
    requires TotalOrder(cmp) && Sorted(t.Inorder(), cmp)
    ensures Separate(t) && Elems(t) == Members(t.Inorder())
  {
    SortedDistinct(t.Inorder(), cmp);
    SeparateDistinct(t);
    ElemsInorder(t);
  }
}
