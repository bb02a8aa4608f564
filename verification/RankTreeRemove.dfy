/**
 Removal (RB_REMOVE) and the rebalancing after it (RB_REMOVE_COLOR, with
 RB_STRICT_HST = 0: a single rotation always leaves the parent at its lower rank).
 */
module RankTreeRemove {
  import opened RankTree

  /**
   What holds at the head of the loop: the subtree `t` is balanced but one rank
   too low for its hole, and `t` and its sibling are not both null.
   */
  ghost predicate Shrunk<T>(p: Path<T>, t: Tree<T>) {
    && t.Balanced()
    && Fits(p, t.Rank() + 1, false)
    && (p.Step? && t.Nil? ==> p.far.Node?)
  }

  /** The sibling has a long edge on its far side only: its near child rises above both. */
  function DoubleRotated<T>(s: Side, t: Tree<T>, e: T, sib: Tree<T>): Tree<T>
    requires sib.Node? && sib.Child(s).Node?
  {
    var o := s.Other();
    var top := sib.Child(s);
    Branch(s,
           Branch(s, t, false, e, top.Long(s), top.Child(s)), true,
           top.elem,
           true, Branch(s, top.Child(o), top.Long(o), sib.elem, false, sib.Child(o)))
  }

  /** The sibling has a short edge on its far side: the sibling rises above the parent. */
  function SingleRotated<T>(s: Side, t: Tree<T>, e: T, sib: Tree<T>): Tree<T>
    requires sib.Node?
  {
    var o := s.Other();
    if sib.Long(s) then
      Branch(s, Branch(s, t, false, e, false, sib.Child(s)), true, sib.elem, true, sib.Child(o))
    else
      Branch(s, Branch(s, t, true, e, false, sib.Child(s)), false, sib.elem, true, sib.Child(o))
  }

  /** A node with both edges made short. */
  function BothShort<T>(t: Tree<T>): Tree<T>
    requires t.Node?
  {
    t.(leftLong := false, rightLong := false)
  }

  /** Demoting a sibling with two long edges together with the parent passes the problem up. */
  lemma DemoteBoth<T>(p: Path<T>, t: Tree<T>)
    requires Shrunk(p, t) && p.Step? && p.nearLong && !p.farLong
    ensures p.far.Node?
    ensures p.far.leftLong && p.far.rightLong ==>
              Shrunk(p.up, Branch(p.side, t, true, p.elem, false, BothShort(p.far)))
  {
    if p.far.leftLong && p.far.rightLong {
      assert BothShort(p.far).Rank() + 1 == p.far.Rank();
    }
  }

  /** The whole loop: the subtree `t` below `p` shrank by one rank. */
  function Rebalance<T>(p: Path<T>, t: Tree<T>): Tree<T>
    requires Shrunk(p, t)
    decreases p
  {
    match p
    case Root => t
    case Step(up, s, nearLong, e, farLong, far) =>
      if !nearLong then Plug(up, Branch(s, t, true, e, farLong, far))
      else if farLong then Rebalance(up, Branch(s, t, true, e, false, far))
      else if far.Long(s) && far.Long(s.Other()) then
        DemoteBoth(p, t);
        Rebalance(up, Branch(s, t, true, e, false, BothShort(far)))
      else if far.Long(s.Other()) then Plug(up, DoubleRotated(s, t, e, far))
      else Plug(up, SingleRotated(s, t, e, far))
  }

  /** RB_REMOVE_COLOR: a parent left without children becomes a leaf of rank 1 before the loop starts. */
  function RemoveColor<T>(p: Path<T>, t: Tree<T>): Tree<T>
    requires t.Balanced() && Fits(p, t.Rank() + 1, false)
  {
    if p.Step? && t.Nil? && p.far.Nil? then Rebalance(p.up, Leaf(p.elem)) else Rebalance(p, t)
  }

  /** The way to the leftmost node of `t`, and that node's element. */
  function LeftmostPath<T>(p: Path<T>, t: Tree<T>): Path<T>
    requires t.Node?
    decreases t
  {
    if t.left.Nil? then p
    else LeftmostPath(Step(p, L, t.leftLong, t.elem, t.rightLong, t.right), t.left)
  }

  function Leftmost<T>(t: Tree<T>): Tree<T>
    requires t.Node?
    ensures Leftmost(t).Node?
  {
    if t.left.Nil? then t else Leftmost(t.left)
  }

  /** Where the rebalancing starts when the root of `t`, at the end of `p`, is taken out. */
  function SplicePath<T>(p: Path<T>, t: Tree<T>): Path<T>
    requires t.Node?
  {
    if t.left.Nil? || t.right.Nil? then p
    else LeftmostPath(Step(p, R, t.rightLong, Leftmost(t.right).elem, t.leftLong, t.left), t.right)
  }

  function SpliceChild<T>(t: Tree<T>): Tree<T>
    requires t.Node?
  {
    if t.right.Nil? then t.left
    else if t.left.Nil? then t.right
    else Leftmost(t.right).right
  }

  lemma {:induction false} LeftmostFits<T>(p: Path<T>, t: Tree<T>)
    requires t.Node? && t.Balanced() && Fits(p, t.Rank(), false)
    ensures Leftmost(t).Balanced() && Leftmost(t).left.Nil?
    ensures Fits(LeftmostPath(p, t), Leftmost(t).Rank(), false)
    decreases t
  {
    if t.left.Node? {
      LeftmostFits(Step(p, L, t.leftLong, t.elem, t.rightLong, t.right), t.left);
    }
  }

  lemma {:induction false} LeftmostInorder<T>(p: Path<T>, t: Tree<T>)
    requires t.Node?
    ensures Before(LeftmostPath(p, t)) == Before(p)
    ensures Leftmost(t).left.Nil?
    ensures t.Inorder() + After(p) == [Leftmost(t).elem] + Leftmost(t).right.Inorder() + After(LeftmostPath(p, t))
    decreases t
  {
    if t.left.Node? {
      var q := Step(p, L, t.leftLong, t.elem, t.rightLong, t.right);
      LeftmostInorder(q, t.left);
      assert t.Inorder() + After(p) == t.left.Inorder() + After(q);
    } else {
      assert t.Inorder() == [t.elem] + t.right.Inorder();
    }
  }

  /** The splice leaves a subtree that is exactly one rank too low. */
  lemma SpliceFits<T>(p: Path<T>, t: Tree<T>)
    requires t.Node? && t.Balanced() && Fits(p, t.Rank(), false)
    ensures SpliceChild(t).Balanced()
    ensures Fits(SplicePath(p, t), SpliceChild(t).Rank() + 1, false)
    // the child that moves up is null or a leaf with two short edges
    ensures SpliceChild(t).Node? ==> SpliceChild(t) == Leaf(SpliceChild(t).elem)
  {
    if t.left.Node? && t.right.Node? {
      LeftmostFits(Step(p, R, t.rightLong, Leftmost(t.right).elem, t.leftLong, t.left), t.right);
      OneChild(Leftmost(t.right));
    } else {
      OneChild(t);
    }
  }

  lemma OneChild<T>(t: Tree<T>)
    requires t.Node? && t.Balanced() && (t.left.Nil? || t.right.Nil?)
    ensures SpliceChild(t).Rank() + 1 == t.Rank()
    ensures SpliceChild(t).Node? ==> SpliceChild(t) == Leaf(SpliceChild(t).elem)
  {
    var c := SpliceChild(t);
    if c.Node? {
      assert t.Rank() == 2 && c.Rank() == 1;
    }
  }

  /** RB_REMOVE: take out the root of the subtree `t` at the end of `p`. */
  function RemoveAt<T>(p: Path<T>, t: Tree<T>): Tree<T>
    requires t.Node? && t.Balanced() && Fits(p, t.Rank(), false)
  {
    SpliceFits(p, t);
    var q := SplicePath(p, t);
    if q.Root? then SpliceChild(t) else RemoveColor(q, SpliceChild(t))
  }

  lemma DoubleRotatedBalanced<T>(s: Side, t: Tree<T>, e: T, sib: Tree<T>)
    requires t.Balanced() && sib.Balanced() && sib.Rank() == t.Rank() + 2
    requires sib.Long(s.Other()) && !sib.Long(s)
    ensures sib.Child(s).Node?
    ensures DoubleRotated(s, t, e, sib).Balanced() && DoubleRotated(s, t, e, sib).Rank() == t.Rank() + 3
  {
    var o := s.Other();
    var top := sib.Child(s);
    assert top.Rank() == t.Rank() + 1;
    assert top.Child(s).Balanced() && top.Child(o).Balanced();
    var a := Branch(s, t, false, e, top.Long(s), top.Child(s));
    var b := Branch(s, top.Child(o), top.Long(o), sib.elem, false, sib.Child(o));
    assert a.Balanced() && a.Rank() == t.Rank() + 1;
    assert b.Balanced() && b.Rank() == t.Rank() + 1;
  }

  lemma SingleRotatedBalanced<T>(s: Side, t: Tree<T>, e: T, sib: Tree<T>)
    requires t.Balanced() && sib.Balanced() && sib.Rank() == t.Rank() + 2
    requires !sib.Long(s.Other())
    ensures SingleRotated(s, t, e, sib).Balanced() && SingleRotated(s, t, e, sib).Rank() == t.Rank() + 3
  {
    var o := s.Other();
    assert sib.Child(s).Balanced() && sib.Child(o).Balanced();
    if sib.Long(s) {
      var a := Branch(s, t, false, e, false, sib.Child(s));
      assert a.Balanced() && a.Rank() == t.Rank() + 1;
    } else {
      var a := Branch(s, t, true, e, false, sib.Child(s));
      assert a.Balanced() && a.Rank() == t.Rank() + 2;
    }
  }

  lemma DoubleRotatedInorder<T>(s: Side, t: Tree<T>, e: T, sib: Tree<T>)
    requires sib.Node? && sib.Child(s).Node?
    ensures DoubleRotated(s, t, e, sib).Inorder() == Branch(s, t, true, e, false, sib).Inorder()
  {
    var o := s.Other();
    var top := sib.Child(s);
    var w, x, y, z := t.Inorder(), top.Child(s).Inorder(), top.Child(o).Inorder(), sib.Child(o).Inorder();
    var r := DoubleRotated(s, t, e, sib);
    if s.L? {
      assert top.Inorder() == x + [top.elem] + y && sib.Inorder() == top.Inorder() + [sib.elem] + z;
      assert r.left.Inorder() == w + [e] + x && r.right.Inorder() == y + [sib.elem] + z;
      assert (w + [e] + x) + [top.elem] + (y + [sib.elem] + z) == w + [e] + ((x + [top.elem] + y) + [sib.elem] + z);
    } else {
      assert top.Inorder() == y + [top.elem] + x && sib.Inorder() == z + [sib.elem] + top.Inorder();
      assert r.left.Inorder() == z + [sib.elem] + y && r.right.Inorder() == x + [e] + w;
      assert (z + [sib.elem] + y) + [top.elem] + (x + [e] + w) == (z + [sib.elem] + (y + [top.elem] + x)) + [e] + w;
    }
  }

  lemma SingleRotatedInorder<T>(s: Side, t: Tree<T>, e: T, sib: Tree<T>)
    requires sib.Node?
    ensures SingleRotated(s, t, e, sib).Inorder() == Branch(s, t, true, e, false, sib).Inorder()
  {
    var w, x, z := t.Inorder(), sib.Child(s).Inorder(), sib.Child(s.Other()).Inorder();
    if s.L? {
      assert (w + [e] + x) + [sib.elem] + z == w + [e] + (x + [sib.elem] + z);
    } else {
      assert z + [sib.elem] + (x + [e] + w) == (z + [sib.elem] + x) + [e] + w;
    }
  }

  /** Both rotations give back the rank that the subtree of the parent had. */
  lemma TurnedBalanced<T>(p: Path<T>, t: Tree<T>)
    requires Shrunk(p, t) && p.Step? && p.nearLong && !p.farLong && p.far.Node?
    requires !(p.far.leftLong && p.far.rightLong)
    ensures Rebalance(p, t).Balanced()
  {
    if p.far.Long(p.side.Other()) {
      DoubleRotatedBalanced(p.side, t, p.elem, p.far);
      PlugBalanced(p.up, DoubleRotated(p.side, t, p.elem, p.far));
    } else {
      SingleRotatedBalanced(p.side, t, p.elem, p.far);
      PlugBalanced(p.up, SingleRotated(p.side, t, p.elem, p.far));
    }
  }

  /** The loop restores the rank rule. */
  lemma {:induction false} RebalanceBalanced<T>(p: Path<T>, t: Tree<T>)
    requires Shrunk(p, t)
    ensures Rebalance(p, t).Balanced()
    decreases p
  {
    match p
    case Root =>
    case Step(up, s, nearLong, e, farLong, far) =>
      if !nearLong {
        PlugBalanced(up, Branch(s, t, true, e, farLong, far));
      } else if farLong {
        RebalanceBalanced(up, Branch(s, t, true, e, false, far));
      } else if far.Long(s) && far.Long(s.Other()) {
        DemoteBoth(p, t);
        RebalanceBalanced(up, Branch(s, t, true, e, false, BothShort(far)));
      } else {
        TurnedBalanced(p, t);
      }
  }

  /** The loop keeps the elements in order. */
  lemma {:induction false} RebalanceInorder<T>(p: Path<T>, t: Tree<T>)
    requires Shrunk(p, t)
    ensures Rebalance(p, t).Inorder() == Plug(p, t).Inorder()
    decreases p
  {
    match p
    case Root =>
    case Step(up, s, nearLong, e, farLong, far) =>
      var b := Branch(s, t, nearLong, e, farLong, far);
      PlugInorder(up, b);
      if !nearLong {
        PlugInorder(up, Branch(s, t, true, e, farLong, far));
      } else if farLong {
        var b' := Branch(s, t, true, e, false, far);
        RebalanceInorder(up, b');
        PlugInorder(up, b');
      } else if far.Long(s) && far.Long(s.Other()) {
        var b' := Branch(s, t, true, e, false, BothShort(far));
        assert BothShort(far).Inorder() == far.Inorder();
        RebalanceInorder(up, b');
        PlugInorder(up, b');
      } else if far.Long(s.Other()) {
        DoubleRotatedInorder(s, t, e, far);
        PlugInorder(up, DoubleRotated(s, t, e, far));
      } else {
        SingleRotatedInorder(s, t, e, far);
        PlugInorder(up, SingleRotated(s, t, e, far));
      }
  }

  lemma RemoveColorCorrect<T>(p: Path<T>, t: Tree<T>)
    requires t.Balanced() && Fits(p, t.Rank() + 1, false)
    ensures RemoveColor(p, t).Balanced()
    ensures RemoveColor(p, t).Inorder() == Before(p) + t.Inorder() + After(p)
  {
    PlugInorder(p, t);
    if p.Step? && t.Nil? && p.far.Nil? {
      RebalanceBalanced(p.up, Leaf(p.elem));
      RebalanceInorder(p.up, Leaf(p.elem));
      PlugInorder(p.up, Leaf(p.elem));
      PlugInorder(p.up, Branch(p.side, t, p.nearLong, p.elem, p.farLong, p.far));
    } else {
      RebalanceBalanced(p, t);
      RebalanceInorder(p, t);
    }
  }

  lemma Spliced<T>(a: seq<T>, l: seq<T>, e: T, c: seq<T>, z: seq<T>, r: seq<T>, y: seq<T>)
    requires r + y == [e] + c + z
    ensures (a + l + [e]) + c + z == a + (l + r) + y
  {
    assert (a + l + [e]) + c + z == a + l + ([e] + c + z);
  }

  /** The splice takes exactly the root of `t` out of the order. */
  lemma SpliceInorder<T>(p: Path<T>, t: Tree<T>)
    requires t.Node?
    ensures Before(SplicePath(p, t)) + SpliceChild(t).Inorder() + After(SplicePath(p, t))
         == Before(p) + (t.left.Inorder() + t.right.Inorder()) + After(p)
  {
    if t.left.Node? && t.right.Node? {
      var m := Leftmost(t.right);
      var q := Step(p, R, t.rightLong, m.elem, t.leftLong, t.left);
      LeftmostInorder(q, t.right);
      Spliced(Before(p), t.left.Inorder(), m.elem, m.right.Inorder(), After(SplicePath(p, t)), t.right.Inorder(),
          After(p));
    } else if t.right.Nil? {
      assert t.left.Inorder() + t.right.Inorder() == t.left.Inorder();
    } else {
      assert t.left.Inorder() + t.right.Inorder() == t.right.Inorder();
    }
  }

  /**
   Removing any node of a balanced tree gives a balanced tree holding the old
   elements in their old order, minus exactly that node.
   */
  lemma RemoveAtCorrect<T>(p: Path<T>, t: Tree<T>)
    requires t.Node? && Plug(p, t).Balanced()
    ensures t.Balanced() && Fits(p, t.Rank(), false)
    ensures RemoveAt(p, t).Balanced()
    ensures Plug(p, t).Inorder() == Before(p) + (t.left.Inorder() + [t.elem] + t.right.Inorder()) + After(p)
    ensures RemoveAt(p, t).Inorder() == Before(p) + (t.left.Inorder() + t.right.Inorder()) + After(p)
  {
    PlugBalanced(p, t);
    PlugInorder(p, t);
    SpliceFits(p, t);
    SpliceInorder(p, t);
    var q := SplicePath(p, t);
    if q.Step? { RemoveColorCorrect(q, SpliceChild(t)); }
  }
}
