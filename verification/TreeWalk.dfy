/**
 Walking a linked tree in key order: RB_MIN and RB_NEXT.
 */
module TreeWalk {
  import opened RankTree
  import opened TreeLinks
  import opened LinkedTree
  import opened TreeOps
  import TR = TreeRemove
  import Removal = RankTreeRemove

  function First<K(!new), V>(s: seq<Elem<K, V>>): Elem?<K, V> { if s == [] then null else s[0] }

  /** RB_MINMAX towards the small end. */
  method Min<K(!new), V>(head: Head<K, V>, ghost t0: Tree<Elem<K, V>>) returns (r: Elem?<K, V>)
    requires Valid(head, t0)
    ensures r == First(t0.Inorder())
  {
    var tmp := head.root;
    r := null;
    ghost var p: Path<Elem<K, V>>, t: Tree<Elem<K, V>> := Root, t0;
    while tmp != null
      invariant Plug(p, t) == t0 && tmp == Top(t) && Linked(head.mem, t, Parent(p))
      invariant Before(p) == [] && r == First(After(p))
      decreases t
    {
      r := tmp;
      p, t := Step(p, L, t.leftLong, t.elem, t.rightLong, t.right), t.left;
      tmp := tmp.entry.left;
    }
    PlugInorder(p, Nil);
  }

  lemma {:induction false} LeftmostFirst<K(!new), V>(t: Tree<Elem<K, V>>)
    requires t.Node?
    ensures t.Inorder() != [] && t.Inorder()[0] == Removal.Leftmost(t).elem
  {
    if t.left.Node? { LeftmostFirst(t.left); }
  }

  /** The way up in RB_NEXT: the first ancestor of which the path is a left descendant. */
  method NextUp<K(!new), V>(head: Head<K, V>, e: Elem<K, V>, ghost p0: Path<Elem<K, V>>, ghost t0: Tree<Elem<K, V>>)
    returns (r: Elem?<K, V>)
    requires head.At(p0, t0) && e == Top(t0)
    ensures r == First(After(p0))
  {
    var elm: Elem<K, V> := e;
    ghost var p: Path<Elem<K, V>>, t: Tree<Elem<K, V>> := p0, t0;
    while elm.entry.up != null && elm == elm.entry.up.entry.right
      invariant head.At(p, t) && elm == Top(t) && After(p) == After(p0)
      decreases p
    {
      SideFound(head.mem, p, t);
      SteppedUp(head.mem, head.mem, p, t, p.nearLong, p.farLong);
      p, t := p.up, Branch(p.side, t, p.nearLong, p.elem, p.farLong, p.far);
      elm := elm.entry.up;
    }
    if p.Step? { SideFound(head.mem, p, t); }
    r := elm.entry.up;
  }

  /** RB_NEXT: the in-order successor. */
  method Next<K(!new), V>(head: Head<K, V>, e: Elem<K, V>, ghost t0: Tree<Elem<K, V>>, ghost a: seq<Elem<K, V>>,
                          ghost b: seq<Elem<K, V>>) returns (r: Elem?<K, V>)
    requires Valid(head, t0) && t0.Inorder() == a + [e] + b
    ensures r == First(b)
  {
    ghost var p, t := TR.Locate(t0, e, a, b, head.cmp);
    Unplugged(head.mem, p, t);
    if e.entry.right != null {
      LeftmostFirst(t.right);
      r := TR.GoLeft(head, e.entry.right, t.right, e);
    } else {
      r := NextUp(head, e, p, t);
    }
  }
}
