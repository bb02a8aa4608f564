/**
 What the pointer writes of RB_REMOVE do to the links, before rebalancing starts.
 */
module SpliceLinks {
  import opened RankTree
  import opened TreeLinks
  import opened Removal = RankTreeRemove

  /** The tree `t` without its leftmost node, whose right subtree moves up. */
  function WithoutLeftmost<T>(t: Tree<T>): Tree<T>
    requires t.Node?
  {
    if t.left.Nil? then t.right else t.(left := WithoutLeftmost(t.left))
  }

  /** The parent of the leftmost node. */
  function LeftmostParent<T>(t: Tree<T>): T
    requires t.Node? && t.left.Node?
  {
    if t.left.left.Nil? then t.elem else LeftmostParent(t.left)
  }

  /** The tree `t` with its root taken out and its in-order successor in the root's place. */
  function SplicedTree<T>(t: Tree<T>): Tree<T>
    requires t.Node?
  {
    if t.right.Nil? then t.left
    else if t.left.Nil? then t.right
    else t.(elem := Leftmost(t.right).elem, right := WithoutLeftmost(t.right))
  }

  lemma {:induction false} PlugLeftmost<T>(p: Path<T>, t: Tree<T>)
    requires t.Node?
    ensures Plug(LeftmostPath(p, t), Leftmost(t).right) == Plug(p, WithoutLeftmost(t))
    decreases t
  {
    if t.left.Node? {
      PlugLeftmost(Step(p, L, t.leftLong, t.elem, t.rightLong, t.right), t.left);
    }
  }

  lemma PlugSpliced<T>(p: Path<T>, t: Tree<T>)
    requires t.Node?
    ensures Plug(SplicePath(p, t), SpliceChild(t)) == Plug(p, SplicedTree(t))
  {
    if t.left.Node? && t.right.Node? {
      PlugLeftmost(Step(p, R, t.rightLong, Leftmost(t.right).elem, t.leftLong, t.left), t.right);
    }
  }

  lemma {:induction false} LeftmostElems<T>(t: Tree<T>)
    requires t.Node?
    ensures Leftmost(t).elem in Elems(t)
    ensures Elems(Leftmost(t).right) <= Elems(t)
    ensures Separate(t) ==> Separate(Leftmost(t).right) && Leftmost(t).elem !in Elems(Leftmost(t).right)
    ensures t.left.Node? ==>
              && LeftmostParent(t) in {t.elem} + Elems(t.left) && Leftmost(t).elem in Elems(t.left)
              && Elems(Leftmost(t).right) <= Elems(t.left)
    ensures Separate(t) && t.left.Node? ==>
              LeftmostParent(t) != Leftmost(t).elem && LeftmostParent(t) !in Elems(Leftmost(t).right)
  {
    if t.left.Node? { LeftmostElems(t.left); }
  }

  /**
   The writes around the leftmost node `n` of `t`: its parent takes over its right child, and
   the top gets a new parent.
   */
  ghost predicate LeftmostOut<K, V>(m: Mem<K, V>, m': Mem<K, V>, t: Tree<Elem<K, V>>, up: Elem<K, V>)
    requires t.Node? && t.left.Node?
  {
    var n, par := Leftmost(t), LeftmostParent(t);
    && (forall e :: e in Elems(t) && e in m && e !in {n.elem, par, t.elem} + Just(Top(n.right)) ==>
          e in m' && m'[e] == m[e])
    && par in m' && par in m && t.elem in m' && t.elem in m
    && (par == t.elem ==> m'[par] == m[par].(left := Top(n.right), up := up))
    && (par != t.elem ==> m'[par] == m[par].(left := Top(n.right)) && m'[t.elem] == m[t.elem].(up := up))
    && (n.right.Node? ==> n.right.elem in m' && m'[n.right.elem] == Links(par, null, null, false, false))
  }

  lemma {:induction false} WithoutLinked<K, V>(m: Mem<K, V>, m': Mem<K, V>, t: Tree<Elem<K, V>>, before: Elem?<K, V>,
                                               up: Elem<K, V>)
    requires t.Node? && t.left.Node? && Linked(m, t, before) && Separate(t) && LeftmostOut(m, m', t, up)
    requires Leftmost(t).right.Node? ==> Leftmost(t).right == Leaf(Leftmost(t).right.elem)
    ensures Linked(m', WithoutLeftmost(t), up)
    decreases t
  {
    var n := Leftmost(t);
    LeftmostElems(t);
    var changed := {n.elem, LeftmostParent(t), t.elem} + Just(Top(n.right));
    assert changed <= {t.elem} + Elems(t.left);
    forall e | e in Elems(t.right) && e in m ensures e in m' && m'[e] == m[e] {
      assert e !in changed && e in Elems(t);
    }
    Unchanged(m, m', t.right, t.elem);
    if t.left.left.Node? {
      LeftmostElems(t.left);
      WithoutLinked(m, m', t.left, t.elem, t.elem);
    } else {
      assert Linked(m', n.right, t.elem);
    }
  }

  lemma {:induction false} Unchanged<K, V>(m: Mem<K, V>, m': Mem<K, V>, t: Tree<Elem<K, V>>, up: Elem?<K, V>)
    requires Linked(m, t, up) && forall e :: e in Elems(t) && e in m ==> e in m' && m'[e] == m[e]
    ensures Linked(m', t, up)
    decreases t
  {
    if t.Node? {
      Unchanged(m, m', t.left, t.elem);
      Unchanged(m, m', t.right, t.elem);
    }
  }

  /** The links of the nodes below a removed root with two children, after its successor has taken its place. */
  ghost predicate SuccessorIn<K, V>(m: Mem<K, V>, m': Mem<K, V>, t: Tree<Elem<K, V>>, up: Elem?<K, V>)
    requires t.Node? && t.left.Node? && t.right.Node?
  {
    var n, l := Leftmost(t.right), t.left.elem;
    && n.elem in m' && m'[n.elem] == Links(up, l, Top(WithoutLeftmost(t.right)), t.leftLong, t.rightLong)
    && l in m && l in m' && m'[l] == m[l].(up := n.elem)
    && (forall e :: e in Elems(t.left) && e != l && e in m ==> e in m' && m'[e] == m[e])
    && (t.right.left.Node? ==> LeftmostOut(m, m', t.right, n.elem))
    && (t.right.left.Nil? && n.right.Node? ==>
          n.right.elem in m' && m'[n.right.elem] == Links(n.elem, null, null, false, false))
  }

  lemma SuccessorLinked<K, V>(m: Mem<K, V>, m': Mem<K, V>, t: Tree<Elem<K, V>>, before: Elem?<K, V>, up: Elem?<K, V>)
    requires t.Node? && t.left.Node? && t.right.Node? && Linked(m, t, before) && Separate(t)
    requires SuccessorIn(m, m', t, up)
    requires Leftmost(t.right).right.Node? ==> Leftmost(t.right).right == Leaf(Leftmost(t.right).right.elem)
    ensures Linked(m', SplicedTree(t), up)
  {
    var n := Leftmost(t.right);
    Unchanged(m, m', t.left.left, t.left.elem);
    Unchanged(m, m', t.left.right, t.left.elem);
    assert Linked(m', t.left, n.elem);
    if t.right.left.Node? {
      WithoutLinked(m, m', t.right, t.elem, n.elem);
    } else {
      assert Linked(m', n.right, n.elem);
    }
  }

  /** The links after the writes of RB_REMOVE to a node with two children, up to the link from its parent. */
  function SuccessorMem<K, V>(m: Mem<K, V>, out: Elem<K, V>, l: Elem<K, V>, r: Elem<K, V>, n: Elem<K, V>,
                              par: Elem<K, V>,
                              c: Elem?<K, V>): Mem<K, V>
    requires out in m && l in m && r in m && n in m && par in m
  {
    var m1 := m[l := m[l].(up := n)];
    var m2 := m1[n := m1[n].(left := l)];
    var m3 := if r == n then m2 else
                var a := m2[r := m2[r].(up := n)];
                var b := a[n := a[n].(right := r)];
                b[par := b[par].(left := c)];
    m3[n := m3[n].(up := m3[out].up, leftLong := m3[out].leftLong, rightLong := m3[out].rightLong)]
  }

  lemma SuccessorMemAt<K, V>(m: Mem<K, V>, out: Elem<K, V>, l: Elem<K, V>, r: Elem<K, V>, n: Elem<K, V>,
                             par: Elem<K, V>,
                             c: Elem?<K, V>)
    requires out in m && l in m && r in m && n in m && par in m
    requires out !in {l, r, n, par} && l !in {r, n, par} && (r == n <==> par == n)
    ensures var s := SuccessorMem(m, out, l, r, n, par, c);
            && Only(m, s, {l, r, n, par})
            && s[l] == m[l].(up := n)
            && s[n] == Links(m[out].up, l, if r == n then m[n].right else r, m[out].leftLong, m[out].rightLong)
            && (r != n && r == par ==> s[r] == m[r].(up := n, left := c))
            && (r != n && r != par ==> s[r] == m[r].(up := n) && s[par] == m[par].(left := c))
  {
  }

  /** What the writes do when the successor is not the right child itself. */
  lemma SuccessorDeep<K, V>(m: Mem<K, V>, m': Mem<K, V>, t: Tree<Elem<K, V>>, up: Elem?<K, V>, x: set<Elem<K, V>>)
    requires t.Node? && t.left.Node? && t.right.Node? && t.right.left.Node? && Linked(m, t, up) && Separate(t)
    requires var n, par := Leftmost(t.right), LeftmostParent(t.right);
             && n.elem in m && par in m && t.left.elem in m && t.right.elem in m
             && Agree(SuccessorMem(m, t.elem, t.left.elem, t.right.elem, n.elem, par, Top(n.right)), m',
                      Just(Top(n.right)) + x)
             && x !! Elems(t)
             && (n.right.Node? ==> n.right.elem in m' && m'[n.right.elem] == Links(par, null, null, false, false))
    ensures SuccessorIn(m, m', t, up)
  {
    var n, par := Leftmost(t.right), LeftmostParent(t.right);
    LeftmostElems(t.right);
    SuccessorMemAt(m, t.elem, t.left.elem, t.right.elem, n.elem, par, Top(n.right));
  }

  /** What they do when it is. */
  lemma SuccessorShallow<K, V>(m: Mem<K, V>, m': Mem<K, V>, t: Tree<Elem<K, V>>, up: Elem?<K, V>, x: set<Elem<K, V>>)
    requires t.Node? && t.left.Node? && t.right.Node? && t.right.left.Nil? && Linked(m, t, up) && Separate(t)
    requires var n := t.right;
             && n.elem in m && t.left.elem in m
             && Agree(SuccessorMem(m, t.elem, t.left.elem, n.elem, n.elem, n.elem, Top(n.right)), m',
                      Just(Top(n.right)) + x)
             && x !! Elems(t)
             && (n.right.Node? ==> n.right.elem in m' && m'[n.right.elem] == Links(n.elem, null, null, false, false))
    ensures SuccessorIn(m, m', t, up)
  {
    var n := t.right;
    SuccessorMemAt(m, t.elem, t.left.elem, n.elem, n.elem, n.elem, Top(n.right));
  }

  lemma {:induction false} LeftmostIn<K, V>(m: Mem<K, V>, t: Tree<Elem<K, V>>, up: Elem?<K, V>)
    requires t.Node? && Linked(m, t, up)
    ensures Leftmost(t).elem in m && m[Leftmost(t).elem].right == Top(Leftmost(t).right)
    ensures t.left.Node? ==> LeftmostParent(t) in m && m[Leftmost(t).elem].up == LeftmostParent(t)
    ensures Linked(m, Leftmost(t).right, Leftmost(t).elem)
    decreases t
  {
    if t.left.Node? { LeftmostIn(m, t.left, t.elem); }
  }

  /** The writes stay inside the subtree of the removed node, and do not touch that node itself. */
  lemma SuccessorPlace<K, V>(m: Mem<K, V>, m1: Mem<K, V>, p: Path<Elem<K, V>>, t: Tree<Elem<K, V>>)
    requires Placed(m, p, t) && t.Node? && t.left.Node? && t.right.Node?
    requires var n := Leftmost(t.right); var par := if t.right.left.Node? then LeftmostParent(t.right) else n.elem;
             && {t.elem, t.left.elem, t.right.elem, n.elem, par} <= m.Keys
             && m1 == SuccessorMem(m, t.elem, t.left.elem, t.right.elem, n.elem, par, Top(n.right))
    ensures m1.Keys == m.Keys && PathLinked(m1, p, t.elem)
    ensures Leftmost(t.right).elem !in PathElems(p) && Elems(Leftmost(t.right).right) !! PathElems(p)
  {
    var n := Leftmost(t.right); var par := if t.right.left.Node? then LeftmostParent(t.right) else n.elem;
    LeftmostElems(t.right);
    PathDisjoint(p, Elems(t));
    SuccessorMemAt(m, t.elem, t.left.elem, t.right.elem, n.elem, par, Top(n.right));
    PathFrame(m, m1, {t.left.elem, t.right.elem, n.elem, par}, p, t.elem);
  }

  /** After the link from the parent and the one to the child are set, the spliced tree hangs below the parent. */
  lemma SuccessorDone<K, V>(m: Mem<K, V>, m1: Mem<K, V>, m2: Mem<K, V>, m3: Mem<K, V>, p: Path<Elem<K, V>>,
                            t: Tree<Elem<K, V>>)
    requires Placed(m, p, t) && t.Node? && t.left.Node? && t.right.Node?
    requires Leftmost(t.right).right.Node? ==> Leftmost(t.right).right == Leaf(Leftmost(t.right).right.elem)
    requires var n := Leftmost(t.right); var par := if t.right.left.Node? then LeftmostParent(t.right) else n.elem;
             && {t.elem, t.left.elem, t.right.elem, n.elem, par} <= m.Keys
             && m1 == SuccessorMem(m, t.elem, t.left.elem, t.right.elem, n.elem, par, Top(n.right))
             && Only(m1, m2, Just(Parent(p)))
             && (n.right.Nil? ==> m3 == m2)
             && (n.right.Node? ==> n.right.elem in m2 && m3 == m2[n.right.elem := m2[n.right.elem].(up := par).Short()])
    ensures Linked(m3, SplicedTree(t), Parent(p))
  {
    var n := Leftmost(t.right); var par := if t.right.left.Node? then LeftmostParent(t.right) else n.elem;
    LeftmostIn(m, t.right, t.elem);
    LeftmostElems(t.right);
    PathDisjoint(p, Elems(t));
    ChildRelinked(m, m1, m2, m3, p, t, par);
    if t.right.left.Node? {
      SuccessorDeep(m, m3, t, Parent(p), Just(Parent(p)));
    } else {
      SuccessorShallow(m, m3, t, Parent(p), Just(Parent(p)));
    }
    SuccessorLinked(m, m3, t, Parent(p), Parent(p));
  }

  lemma ChildRelinked<K, V>(m: Mem<K, V>, m1: Mem<K, V>, m2: Mem<K, V>, m3: Mem<K, V>, p: Path<Elem<K, V>>,
                            t: Tree<Elem<K, V>>, par: Elem<K, V>)
    requires Placed(m, p, t) && t.Node? && t.left.Node? && t.right.Node?
    requires Leftmost(t.right).right.Node? ==> Leftmost(t.right).right == Leaf(Leftmost(t.right).right.elem)
    requires par == if t.right.left.Node? then LeftmostParent(t.right) else Leftmost(t.right).elem
    requires var n := Leftmost(t.right);
             && {t.elem, t.left.elem, t.right.elem, n.elem, par} <= m.Keys
             && m1 == SuccessorMem(m, t.elem, t.left.elem, t.right.elem, n.elem, par, Top(n.right))
             && Only(m1, m2, Just(Parent(p)))
             && (n.right.Nil? ==> m3 == m2)
             && (n.right.Node? ==> n.right.elem in m2 && m3 == m2[n.right.elem := m2[n.right.elem].(up := par).Short()])
    ensures var c := Leftmost(t.right).right;
            && Agree(m1, m3, Just(Top(c)) + Just(Parent(p)))
            && (c.Node? ==> c.elem in m3 && m3[c.elem] == Links(par, null, null, false, false))
  {
    var n := Leftmost(t.right);
    LeftmostIn(m, t.right, t.elem);
    LeftmostElems(t.right);
    PathDisjoint(p, Elems(t));
    SuccessorMemAt(m, t.elem, t.left.elem, t.right.elem, n.elem, par, Top(n.right));
    if n.right.Node? {
      var c := n.right.elem;
      assert c in Elems(n.right);
      assert c !in {t.left.elem, t.right.elem, n.elem, par} && c !in Just(Parent(p));
      assert m2[c] == m[c];
    }
  }
}
