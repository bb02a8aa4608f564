/**
 RB_REMOVE on linked nodes.
 */
module TreeRemove {
  import opened RankTree
  import opened TreeLinks
  import opened LinkedTree
  import opened SpliceLinks
  import opened TreeOps
  import opened KeyOrder
  import opened Removal = RankTreeRemove
  import Cost = RankTreeCost

  /** The loop that follows left links to the end. */
  method GoLeft<K(!new), V>(head: Head<K, V>, e: Elem<K, V>, ghost t0: Tree<Elem<K, V>>, ghost up0: Elem?<K, V>)
    returns (n: Elem<K, V>)
    requires head.Mirrors() && Linked(head.mem, t0, up0) && e == Top(t0)
    ensures n == Leftmost(t0).elem
  {
    n := e;
    ghost var t, up := t0, up0;
    while n.entry.left != null
      invariant Linked(head.mem, t, up) && n == Top(t) && Leftmost(t) == Leftmost(t0)
      decreases t
    {
      n, t, up := n.entry.left, t.left, n;
    }
  }

  /** Splice out a node with at most one child. */
  method SpliceOne<K(!new), V>(head: Head<K, V>, out: Elem<K, V>, ghost p: Path<Elem<K, V>>, ghost t: Tree<Elem<K, V>>)
    returns (parent: Elem?<K, V>, child: Elem?<K, V>)
    requires head.At(p, t) && t.Node? && t.elem == out && (t.left.Nil? || t.right.Nil?)
    requires SpliceChild(t).Node? ==> SpliceChild(t) == Leaf(SpliceChild(t).elem)
    modifies head, head.mem.Keys`entry
    ensures head.Mirrors() && head.mem.Keys == old(head.mem.Keys)
    ensures Linked(head.mem, SpliceChild(t), parent) && PathLinked(head.mem, p, child)
    ensures head.root == RootOf(p, child) && parent == Parent(p) && child == Top(SpliceChild(t))
  {
    child := if out.entry.right == null then out.entry.left else out.entry.right;
    parent := out.entry.up;
    PathDisjoint(p, Elems(t));
    SwapOut(head, parent, out, child, p, t);
    LeafMoved(head.mem, SpliceChild(t), out, parent);
    SetChild(head, parent, child, p, child);
  }

  /** The link that pointed to `out` points to its child. */
  method SwapOut<K(!new), V>(head: Head<K, V>, parent: Elem?<K, V>, out: Elem<K, V>, child: Elem?<K, V>,
                             ghost p: Path<Elem<K, V>>, ghost t: Tree<Elem<K, V>>)
    requires head.At(p, t) && t.Node? && t.elem == out && parent == Parent(p) && child == Top(SpliceChild(t))
    requires t.left.Nil? || t.right.Nil?
    modifies head, head.mem.Keys`entry
    ensures head.Mirrors() && head.mem.Keys == old(head.mem.Keys) && Linked(head.mem, SpliceChild(t), out)
    ensures PathLinked(head.mem, p, child) && head.root == RootOf(p, child)
  {
    ghost var m := head.mem;
    PathDisjoint(p, Elems(t));
    head.SwapChild(parent, out, child, p, Elems(t));
    LinkedFrame(m, head.mem, Just(parent), SpliceChild(t), out);
  }

  /** A leaf, or nothing, with a new parent. */
  lemma LeafMoved<K(!new), V>(m: Mem<K, V>, t: Tree<Elem<K, V>>, up: Elem?<K, V>, parent: Elem?<K, V>)
    requires Linked(m, t, up) && (t.Node? ==> t == Leaf(t.elem))
    ensures (Top(t) != null ==> Top(t) in m) && Linked(ChildSet(m, parent, Top(t)), t, parent)
  {
  }

  /** The writes that put the in-order successor `n` of `out` into its place. */
  method MoveSuccessor<K(!new), V>(head: Head<K, V>, out: Elem<K, V>, l: Elem<K, V>, r: Elem<K, V>, n: Elem<K, V>)
    returns (parent: Elem<K, V>, child: Elem?<K, V>)
    requires head.Mirrors() && {out, l, r, n} <= head.mem.Keys && l != n && l != r
    requires r != n ==> head.mem[n].up != null && head.mem[n].up in head.mem
    modifies head`mem, head.mem.Keys`entry
    ensures head.Mirrors() && parent in old(head.mem)
    ensures parent == (if r == n then n else old(head.mem)[n].up) && child == old(head.mem)[n].right
    ensures head.mem == SuccessorMem(old(head.mem), out, l, r, n, parent, child)
  {
    parent := r;
    head.Put(l, l.entry.(up := n));
    head.Put(n, n.entry.(left := l));
    child := n.entry.right;
    if parent != n {
      head.Put(parent, parent.entry.(up := n));
      head.Put(n, n.entry.(right := parent));
      parent := n.entry.up;
      head.Put(parent, parent.entry.(left := child));
    }
    head.Put(n, n.entry.(up := out.entry.up, leftLong := out.entry.leftLong, rightLong := out.entry.rightLong));
  }

  lemma SuccessorNodes<K(!new), V>(m: Mem<K, V>, t: Tree<Elem<K, V>>, up: Elem?<K, V>)
    requires t.Node? && t.left.Node? && t.right.Node? && Linked(m, t, up) && Separate(t)
    ensures var n, l, r := Leftmost(t.right).elem, t.left.elem, t.right.elem;
            && {t.elem, l, r, n} <= m.Keys && l != n && l != r && (r == n <==> t.right.left.Nil?)
            && m[n].right == Top(Leftmost(t.right).right)
            && (t.right.left.Node? ==> LeftmostParent(t.right) in m && m[n].up == LeftmostParent(t.right))
  {
    LeftmostIn(m, t.right, t.elem);
    LeftmostElems(t.right);
  }

  lemma SuccessorChild<K(!new), V>(m: Mem<K, V>, p: Path<Elem<K, V>>, t: Tree<Elem<K, V>>)
    requires Placed(m, p, t) && t.Node? && t.left.Node? && t.right.Node?
    ensures var c := Top(Leftmost(t.right).right); c != null ==> c in m && c !in PathElems(p)
  {
    LeftmostIn(m, t.right, t.elem);
    LeftmostElems(t.right);
    PathDisjoint(p, Elems(t));
    var c := Leftmost(t.right).right;
    if c.Node? { assert c.elem in Elems(c); }
  }

  /** The parent of the hole that the in-order successor leaves behind. */
  ghost function HoleParent<K(!new), V>(t: Tree<Elem<K, V>>): Elem<K, V>
    requires t.Node? && t.right.Node?
  {
    if t.right.left.Node? then LeftmostParent(t.right) else Leftmost(t.right).elem
  }

  /** Everything RB_REMOVE writes for a node with two children, except the parent link of the child that moves up. */
  method TakePlace<K(!new), V>(head: Head<K, V>, out: Elem<K, V>, ghost p: Path<Elem<K, V>>, ghost t: Tree<Elem<K, V>>)
    returns (parent: Elem<K, V>, child: Elem?<K, V>, ghost m3: Mem<K, V>)
    requires head.At(p, t) && t.Node? && t.elem == out && t.left.Node? && t.right.Node?
    requires SpliceChild(t).Node? ==> SpliceChild(t) == Leaf(SpliceChild(t).elem)
    modifies head, head.mem.Keys`entry
    ensures head.Mirrors() && head.mem.Keys == old(head.mem.Keys)
    ensures parent == HoleParent(t)
    ensures child == Top(SpliceChild(t)) && (child != null ==> child in head.mem && child !in PathElems(p))
    ensures PathLinked(head.mem, p, Top(SplicedTree(t))) && head.root == RootOf(p, Top(SplicedTree(t)))
    // what that last write will complete
    ensures m3 == ChildSet(head.mem, parent, child) && Linked(m3, SplicedTree(t), Parent(p))
  {
    ghost var m := head.mem;
    SuccessorNodes(m, t, Parent(p));
    var l, r, opar := out.entry.left, out.entry.right, out.entry.up;
    var n := GoLeft(head, r, t.right, out);
    parent, child := MoveSuccessor(head, out, l, r, n);
    ghost var m1 := head.mem;
    SuccessorPlace(m, m1, p, t);
    head.SwapChild(opar, out, n, p, Elems(t));
    SuccessorChild(m, p, t);
    m3 := ChildSet(head.mem, parent, child);
    SuccessorDone(m, m1, head.mem, m3, p, t);
  }

  ghost function ChildSet<K(!new), V>(m: Mem<K, V>, parent: Elem?<K, V>, child: Elem?<K, V>): Mem<K, V>
    requires child != null ==> child in m
  {
    if child == null then m else m[child := m[child].(up := parent).Short()]
  }

  /** The parent link of the child that moves up, with its edge bits cleared. */
  method SetChild<K(!new), V>(head: Head<K, V>, parent: Elem?<K, V>, child: Elem?<K, V>, ghost p: Path<Elem<K, V>>,
                              ghost hole: Elem?<K, V>)
    requires head.Mirrors() && (child != null ==> child in head.mem && child !in PathElems(p))
    requires PathLinked(head.mem, p, hole)
    modifies head`mem, Just(child)`entry
    ensures head.Mirrors() && PathLinked(head.mem, p, hole)
    ensures head.mem == ChildSet(old(head.mem), parent, child)
  {
    if child != null {
      ghost var m := head.mem;
      head.Put(child, child.entry.(up := parent).Short());
      PathFrame(m, head.mem, {child}, p, hole);
    }
  }

  /** Splice out a node with two children: its in-order successor takes its place. */
  method SpliceTwo<K(!new), V>(head: Head<K, V>, out: Elem<K, V>, ghost p: Path<Elem<K, V>>, ghost t: Tree<Elem<K, V>>)
    returns (parent: Elem<K, V>, child: Elem?<K, V>)
    requires head.At(p, t) && t.Node? && t.elem == out && t.left.Node? && t.right.Node?
    requires SpliceChild(t).Node? ==> SpliceChild(t) == Leaf(SpliceChild(t).elem)
    modifies head, head.mem.Keys`entry
    ensures head.Mirrors() && head.mem.Keys == old(head.mem.Keys)
    ensures Linked(head.mem, SplicedTree(t), Parent(p)) && PathLinked(head.mem, p, Top(SplicedTree(t)))
    ensures head.root == RootOf(p, Top(SplicedTree(t)))
    ensures parent == HoleParent(t)
    ensures child == Top(SpliceChild(t))
  {
    ghost var m3;
    parent, child, m3 := TakePlace(head, out, p, t);
    SetChild(head, parent, child, p, Top(SplicedTree(t)));
  }

  /** The place of a node in its tree. */
  lemma {:induction false} Focus<T>(p0: Path<T>, t0: Tree<T>, e: T) returns (p: Path<T>, t: Tree<T>)
    requires e in Elems(t0)
    ensures Plug(p, t) == Plug(p0, t0) && t.Node? && t.elem == e
    decreases t0
  {
    if e == t0.elem {
      p, t := p0, t0;
    } else if e in Elems(t0.left) {
      p, t := Focus(Step(p0, L, t0.leftLong, t0.elem, t0.rightLong, t0.right), t0.left, e);
    } else {
      p, t := Focus(Step(p0, R, t0.rightLong, t0.elem, t0.leftLong, t0.left), t0.right, e);
    }
  }

  /** Taking the root of `t` out of a search tree. */
  lemma RemovedTree<K(!new), V>(p: Path<Elem<K, V>>, t: Tree<Elem<K, V>>, cmp: (K, K) -> int)
    requires TotalOrder(cmp) && t.Node? && Plug(p, t).Balanced() && Sorted(Plug(p, t).Inorder(), cmp)
    ensures t.Balanced() && Fits(p, t.Rank(), false)
    ensures var a, b := Before(p) + t.left.Inorder(), t.right.Inorder() + After(p); var t1 := RemoveAt(p, t);
            && Plug(p, t).Inorder() == a + [t.elem] + b && t1.Inorder() == a + b
            && t1.Balanced() && Sorted(t1.Inorder(), cmp) && Separate(t1)
            && Elems(t1) == Elems(Plug(p, t)) - {t.elem}
  {
    RemoveAtCorrect(p, t);
    var a, b, t1 := Before(p) + t.left.Inorder(), t.right.Inorder() + After(p), RemoveAt(p, t);
    Around(Before(p), t.left.Inorder(), t.elem, t.right.Inorder(), After(p));
    SortedWithout(a, t.elem, b, cmp);
    InorderValid(t1, cmp);
    ElemsInorder(Plug(p, t));
    AroundElems(a, t.elem, b);
    SortedDistinct(a + [t.elem] + b, cmp);
    DistinctAround(a, t.elem, b);
  }

  lemma Around<T>(a: seq<T>, l: seq<T>, e: T, r: seq<T>, z: seq<T>)
    ensures a + (l + [e] + r) + z == (a + l) + [e] + (r + z)
    ensures a + (l + r) + z == (a + l) + (r + z)
  {
  }

  /** The tree between the splice and the rebalancing. */
  lemma SplicedPlace<K(!new), V>(m: Mem<K, V>, p: Path<Elem<K, V>>, t: Tree<Elem<K, V>>, cmp: (K, K) -> int)
    requires TotalOrder(cmp) && t.Node? && Plug(p, t).Balanced() && Sorted(Plug(p, t).Inorder(), cmp)
    requires Linked(m, SplicedTree(t), Parent(p)) && PathLinked(m, p, Top(SplicedTree(t)))
    ensures Placed(m - {t.elem}, SplicePath(p, t), SpliceChild(t))
    ensures RootOf(p, Top(SplicedTree(t))) == RootOf(SplicePath(p, t), Top(SpliceChild(t)))
  {
    var t2 := Plug(p, SplicedTree(t));
    PlugLinked(m, p, SplicedTree(t));
    PlugSpliced(p, t);
    RemovedTree(p, t, cmp);
    SpliceInorder(p, t);
    PlugInorder(SplicePath(p, t), SpliceChild(t));
    var a, b := Before(p) + t.left.Inorder(), t.right.Inorder() + After(p);
    Around(Before(p), t.left.Inorder(), t.elem, t.right.Inorder(), After(p));
    assert t2.Inorder() == a + b;
    SortedWithout(a, t.elem, b, cmp);
    InorderValid(t2, cmp);
    AroundElems(a, t.elem, b);
    SortedDistinct(a + [t.elem] + b, cmp);
    DistinctAround(a, t.elem, b);
    LinkedFrame(m, m - {t.elem}, {t.elem}, t2, null);
    Unplugged(m - {t.elem}, SplicePath(p, t), SpliceChild(t));
  }

  /** The parent at the end of the splice path. */
  lemma {:induction false} LeftmostPathParent<K(!new), V>(p: Path<Elem<K, V>>, t: Tree<Elem<K, V>>)
    requires t.Node?
    ensures Parent(LeftmostPath(p, t)) == if t.left.Node? then LeftmostParent(t) else Parent(p)
    decreases t
  {
    if t.left.Node? { LeftmostPathParent(Step(p, L, t.leftLong, t.elem, t.rightLong, t.right), t.left); }
  }

  /** The splice, for any number of children. */
  method SpliceAny<K(!new), V>(head: Head<K, V>, out: Elem<K, V>, ghost p: Path<Elem<K, V>>, ghost t: Tree<Elem<K, V>>)
    returns (parent: Elem?<K, V>, child: Elem?<K, V>)
    requires head.At(p, t) && t.Node? && t.elem == out
    requires SpliceChild(t).Node? ==> SpliceChild(t) == Leaf(SpliceChild(t).elem)
    modifies head, head.mem.Keys`entry
    ensures head.Mirrors() && head.mem.Keys == old(head.mem.Keys)
    ensures Linked(head.mem, SplicedTree(t), Parent(p)) && PathLinked(head.mem, p, Top(SplicedTree(t)))
    ensures head.root == RootOf(p, Top(SplicedTree(t)))
    ensures parent == Parent(SplicePath(p, t)) && child == Top(SpliceChild(t))
  {
    if out.entry.right == null || out.entry.left == null {
      parent, child := SpliceOne(head, out, p, t);
    } else {
      LeftmostPathParent(Step(p, R, t.rightLong, Leftmost(t.right).elem, t.leftLong, t.left), t.right);
      parent, child := SpliceTwo(head, out, p, t);
    }
  }

  /** The splice, and forgetting the node taken out. */
  method Splice<K(!new), V>(head: Head<K, V>, out: Elem<K, V>, ghost p: Path<Elem<K, V>>, ghost t: Tree<Elem<K, V>>)
    returns (parent: Elem?<K, V>, child: Elem?<K, V>)
    requires head.At(p, t) && t.Node? && t.elem == out && Plug(p, t).Balanced()
    requires TotalOrder(head.cmp) && Sorted(Plug(p, t).Inorder(), head.cmp)
    modifies head, head.mem.Keys`entry
    ensures head.At(SplicePath(p, t), SpliceChild(t)) && head.mem.Keys == old(head.mem.Keys) - {out}
    ensures parent == Parent(SplicePath(p, t)) && child == Top(SpliceChild(t))
  {
    RemoveAtCorrect(p, t);
    SpliceFits(p, t);
    parent, child := SpliceAny(head, out, p, t);
    SplicedPlace(head.mem, p, t, head.cmp);
    head.mem := head.mem - {out};
  }

  /**
   RB_REMOVE: the tree keeps its other nodes in their order, stays linked, balanced
   and sorted, and the rebalancing loop runs as often as the tree says.
   */
  method Remove<K(!new), V>(head: Head<K, V>, out: Elem<K, V>, ghost t0: Tree<Elem<K, V>>, ghost a: seq<Elem<K, V>>,
                            ghost b: seq<Elem<K, V>>)
    returns (ghost p: Path<Elem<K, V>>, ghost t: Tree<Elem<K, V>>, ghost t1: Tree<Elem<K, V>>, ghost steps: nat)
    requires Valid(head, t0) && t0.Inorder() == a + [out] + b
    modifies head, head.mem.Keys`entry
    ensures Valid(head, t1) && t1.Inorder() == a + b
    ensures Plug(p, t) == t0 && t.Node? && t.elem == out && t.Balanced() && Fits(p, t.Rank(), false)
    ensures t1 == RemoveAt(p, t) && steps == Cost.SpliceSteps(p, t)
  {
    p, t := Locate(t0, out, a, b, head.cmp);
    Unplugged(head.mem, p, t);
    RemovedTree(p, t, head.cmp);
    t1 := RemoveAt(p, t);
    steps := RemoveNode(head, out, p, t);
  }

  method RemoveNode<K(!new), V>(head: Head<K, V>, out: Elem<K, V>, ghost p: Path<Elem<K, V>>, ghost t: Tree<Elem<K, V>>)
    returns (ghost steps: nat)
    requires head.At(p, t) && t.Node? && t.elem == out && Plug(p, t).Balanced()
    requires TotalOrder(head.cmp) && Sorted(Plug(p, t).Inorder(), head.cmp) && t.Balanced() && Fits(p, t.Rank(), false)
    modifies head, head.mem.Keys`entry
    ensures head.Holds(RemoveAt(p, t)) && head.mem.Keys == old(head.mem.Keys) - {out}
    ensures steps == Cost.SpliceSteps(p, t)
  {
    SpliceFits(p, t);
    var parent, child := Splice(head, out, p, t);
    if parent != null {
      steps := head.RemoveColor(parent, child, SplicePath(p, t), SpliceChild(t));
    } else {
      head.AtHolds(SplicePath(p, t), SpliceChild(t));
      steps := 0;
    }
  }

  /** The place of the node between `a` and `b`. */
  lemma Locate<K(!new), V>(t0: Tree<Elem<K, V>>, e: Elem<K, V>, a: seq<Elem<K, V>>, b: seq<Elem<K, V>>,
                           cmp: (K, K) -> int)
    returns (p: Path<Elem<K, V>>, t: Tree<Elem<K, V>>)
    requires TotalOrder(cmp) && t0.Inorder() == a + [e] + b && Sorted(t0.Inorder(), cmp)
    ensures Plug(p, t) == t0 && t.Node? && t.elem == e
    ensures a == Before(p) + t.left.Inorder() && b == t.right.Inorder() + After(p)
  {
    ElemsInorder(t0);
    AroundElems(a, e, b);
    p, t := Focus(Root, t0, e);
    PlugInorder(p, t);
    Around(Before(p), t.left.Inorder(), e, t.right.Inorder(), After(p));
    SamePlace(a, b, Before(p) + t.left.Inorder(), t.right.Inorder() + After(p), e, cmp);
  }

  /** A node has one position in a sorted sequence. */
  lemma SamePlace<K(!new), V>(a: seq<Elem<K, V>>, b: seq<Elem<K, V>>, c: seq<Elem<K, V>>, d: seq<Elem<K, V>>,
                              e: Elem<K, V>, cmp: (K, K) -> int)
    requires TotalOrder(cmp) && a + [e] + b == c + [e] + d && Sorted(a + [e] + b, cmp)
    ensures a == c && b == d
  {
    var s := a + [e] + b;
    SortedDistinct(s, cmp);
    assert s[|a|] == e && s[|c|] == e;
    assert a == s[..|a|] && c == s[..|c|] && b == s[|a| + 1..] && d == s[|c| + 1..];
  }
}
