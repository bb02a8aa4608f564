/**
 Rebalancing after an insertion (RB_INSERT_COLOR).
 */
module RankTreeInsert {
  import opened RankTree

  /**
   What holds at the head of the loop: the subtree `t` is balanced but one rank
   too high for its hole, and it is either a new leaf or was just promoted, so
   exactly one of its edges is long.
   */
  ghost predicate Grown<T>(p: Path<T>, t: Tree<T>) {
    && t.Node? && t.Balanced()
    && Fits(p, t.Rank() - 1, t.Rank() == 1)
    && (t.Rank() == 1 || t.leftLong != t.rightLong)
  }

  /** The last iteration: rotate `parent` (element `e`, sibling `far`) below the grown subtree `t` on side `s`. */
  function Rotated<T>(s: Side, t: Tree<T>, e: T, far: Tree<T>): Tree<T>
    requires t.Node? && (t.Long(s) ==> t.Child(s.Other()).Node?)
  {
    var o := s.Other();
    if t.Long(s) then
      var child := t.Child(o);
      Branch(s,
             Branch(s, t.Child(s), false, t.elem, child.Long(s), child.Child(s)), false,
             child.elem,
             false, Branch(s, child.Child(o), child.Long(o), e, false, far))
    else
      Branch(s, t.Child(s), false, t.elem, false, Branch(s, t.Child(o), false, e, false, far))
  }

  /** The whole loop: the subtree `t` below `p` grew by one rank. */
  function Rebalance<T>(p: Path<T>, t: Tree<T>): Tree<T>
    requires Grown(p, t)
    decreases p
  {
    match p
    case Root => t
    case Step(up, s, nearLong, e, farLong, far) =>
      if nearLong then Plug(up, Branch(s, t, false, e, farLong, far))
      else if !farLong then Rebalance(up, Branch(s, t, false, e, true, far))
      else Plug(up, Rotated(s, t, e, far))
  }

  /** RB_INSERT_FINISH: hang a new leaf into the null position at the end of `p`. */
  function InsertAt<T>(p: Path<T>, e: T): Tree<T>
    requires Fits(p, 0, true)
  {
    assert Leaf(e).Rank() == 1;
    Rebalance(p, Leaf(e))
  }

  /** The first iteration, at a new leaf, never rotates, so no node from an earlier iteration is needed. */
  lemma FirstNeverRotates<T>(p: Path<T>, e: T)
    requires Fits(p, 0, true) && p.Step?
    ensures Grown(p, Leaf(e)) && (p.nearLong || !p.farLong)
  {
    assert Leaf(e).Rank() == 1;
  }

  lemma RotatedBalanced<T>(s: Side, t: Tree<T>, e: T, far: Tree<T>)
    requires t.Node? && t.Balanced() && t.Rank() > 1 && t.leftLong != t.rightLong
    requires far.Balanced() && far.Rank() + 2 == t.Rank()
    ensures t.Long(s) ==> t.Child(s.Other()).Node?
    ensures Rotated(s, t, e, far).Balanced() && Rotated(s, t, e, far).Rank() == t.Rank()
  {
    var o := s.Other();
    if t.Long(s) {
      var child := t.Child(o);
      assert child.Rank() == t.Rank() - 1;
      assert child.Child(s).Balanced() && child.Child(o).Balanced();
      var inner := Branch(s, t.Child(s), false, t.elem, child.Long(s), child.Child(s));
      var outer := Branch(s, child.Child(o), child.Long(o), e, false, far);
      assert inner.Balanced() && inner.Rank() == t.Rank() - 1;
      assert outer.Balanced() && outer.Rank() == t.Rank() - 1;
    } else {
      assert Branch(s, t.Child(o), false, e, false, far).Balanced();
    }
  }

  lemma RotatedInorder<T>(s: Side, t: Tree<T>, e: T, far: Tree<T>)
    requires t.Node? && (t.Long(s) ==> t.Child(s.Other()).Node?)
    ensures Rotated(s, t, e, far).Inorder() == Branch(s, t, false, e, true, far).Inorder()
  {
    var o := s.Other();
    var w, z := t.Child(s).Inorder(), far.Inorder();
    if t.Long(s) {
      var c := t.Child(o);
      var x, y := c.Child(s).Inorder(), c.Child(o).Inorder();
      if s.L? {
        assert (w + [t.elem] + x) + [c.elem] + (y + [e] + z) == (w + [t.elem] + (x + [c.elem] + y)) + [e] + z;
      } else {
        assert (z + [e] + y) + [c.elem] + (x + [t.elem] + w) == z + [e] + ((y + [c.elem] + x) + [t.elem] + w);
      }
    } else {
      var x := t.Child(o).Inorder();
      if s.L? {
        assert w + [t.elem] + (x + [e] + z) == (w + [t.elem] + x) + [e] + z;
      } else {
        assert (z + [e] + x) + [t.elem] + w == z + [e] + (x + [t.elem] + w);
      }
    }
  }

  /** The loop restores the rank rule. */
  lemma {:induction false} RebalanceBalanced<T>(p: Path<T>, t: Tree<T>)
    requires Grown(p, t)
    ensures Rebalance(p, t).Balanced()
    decreases p
  {
    match p
    case Root =>
    case Step(up, s, nearLong, e, farLong, far) =>
      if nearLong {
        PlugBalanced(up, Branch(s, t, false, e, farLong, far));
      } else if !farLong {
        RebalanceBalanced(up, Branch(s, t, false, e, true, far));
      } else {
        RotatedBalanced(s, t, e, far);
        PlugBalanced(up, Rotated(s, t, e, far));
      }
  }

  /** The loop keeps the elements in order. */
  lemma {:induction false} RebalanceInorder<T>(p: Path<T>, t: Tree<T>)
    requires Grown(p, t)
    ensures Rebalance(p, t).Inorder() == Plug(p, t).Inorder()
    decreases p
  {
    match p
    case Root =>
    case Step(up, s, nearLong, e, farLong, far) =>
      var b := Branch(s, t, nearLong, e, farLong, far);
      var b' := if nearLong then Branch(s, t, false, e, farLong, far)
                else if !farLong then Branch(s, t, false, e, true, far)
                else Rotated(s, t, e, far);
      assert b'.Inorder() == b.Inorder() by {
        if !nearLong && farLong { RotatedInorder(s, t, e, far); }
      }
      PlugInorder(up, b);
      PlugInorder(up, b');
      if !nearLong && !farLong { RebalanceInorder(up, b'); }
  }

  /**
   Inserting at any null position of a balanced tree gives a balanced tree with
   exactly the new element added at that position.
   */
  lemma InsertAtCorrect<T>(p: Path<T>, e: T)
    requires Plug(p, Nil).Balanced()
    ensures Fits(p, 0, true)
    ensures InsertAt(p, e).Balanced()
    ensures InsertAt(p, e).Inorder() == Before(p) + [e] + After(p)
    ensures Plug(p, Nil).Inorder() == Before(p) + After(p)
  {
    PlugBalanced(p, Nil);
    PlugInorder(p, Nil);
    assert Before(p) + [] + After(p) == Before(p) + After(p);
    RebalanceBalanced(p, Leaf(e));
    RebalanceInorder(p, Leaf(e));
    PlugInorder(p, Leaf(e));
    assert Leaf(e).Inorder() == [e];
  }
}
