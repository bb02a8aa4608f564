/**
 The rank-balanced tree as linked nodes with parent pointers, changed in place.

 `Head.mem` is a ghost copy of the link fields of every node of the tree.  Each
 pointer write goes through a one-field method that updates field and copy
 together, so all reasoning about shapes is about the map `mem`.
 */
module LinkedTree {
  import opened RankTree
  import opened TreeLinks
  import opened InsertLinks
  import RL = RemoveLinks
  import Insertion = RankTreeInsert
  import Removal = RankTreeRemove
  import Cost = RankTreeCost

  class Head<K, V> {
    var root: Elem?<K, V>
    ghost var mem: Mem<K, V>

    const cmp: (K, K) -> int

    /** RB_INIT. */
    constructor (cmp: (K, K) -> int)
      ensures root == null && mem == map[] && this.cmp == cmp
    {
      this.cmp := cmp;
      root := null;
      mem := map[];
    }

    ghost predicate Mirrors()
      reads this`mem, mem.Keys`entry
    {
      forall e :: e in mem ==> mem[e] == e.entry
    }

    /** Write the links of one node. */
    method Put(e: Elem<K, V>, l: Links<K, V>)
      requires Mirrors() && e in mem
      modifies this`mem, e`entry
      ensures Mirrors() && mem == old(mem)[e := l]
    {
      e.entry := l;
      mem := mem[e := l];
    }

    /** RB_ROTATE: `tmp`, the child of `elm` away from `dir`, takes `elm` as its child on side `dir`. */
    method Rotate(elm: Elem<K, V>, tmp: Elem<K, V>, dir: Side)
      requires Mirrors() && elm in mem && tmp in mem
      requires mem[tmp].Link(dir) != null ==> mem[tmp].Link(dir) in mem
      modifies this`mem, elm`entry, tmp`entry, Just(mem[tmp].Link(dir))`entry
      ensures Mirrors() && mem == Rotated(old(mem), elm, tmp, dir)
    {
      var c := tmp.entry.Link(dir);
      Put(elm, elm.entry.WithLink(dir.Other(), c));
      if c != null {
        Put(c, c.entry.(up := elm));
      }
      Put(tmp, tmp.entry.WithLink(dir, elm));
      Put(elm, elm.entry.(up := tmp));
    }

    /** The subtree `t` hangs at the end of `p`, and nothing else is in the tree. */
    ghost predicate At(p: Path<Elem<K, V>>, t: Tree<Elem<K, V>>)
      reads this`root, this`mem, mem.Keys`entry
    {
      Mirrors() && Placed(mem, p, t) && root == RootOf(p, Top(t))
    }

    ghost predicate Holds(t: Tree<Elem<K, V>>)
      reads this`root, this`mem, mem.Keys`entry
    {
      Mirrors() && Linked(mem, t, null) && root == Top(t)
    }

    lemma AtHolds(p: Path<Elem<K, V>>, t: Tree<Elem<K, V>>)
      requires At(p, t)
      ensures Holds(Plug(p, t))
    {
      PlugLinked(mem, p, t);
    }

    /** Set the edge bits of `parent`, leaving its subtree in place. */
    method SetEdges(parent: Elem<K, V>, s: Side, nearLong: bool, farLong: bool, ghost p: Path<Elem<K, V>>,
                    ghost t: Tree<Elem<K, V>>)
      requires p.Step? && At(p, t) && parent == p.elem && s == p.side
      modifies this`mem, parent`entry
      ensures At(p.up, Branch(s, t, nearLong, parent, farLong, p.far)) && mem.Keys == old(mem.Keys)
    {
      ghost var m := mem;
      Put(parent, parent.entry.WithLong(s, nearLong).WithLong(s.Other(), farLong));
      SteppedUp(m, mem, p, t, nearLong, farLong);
    }

    /** RB_SWAP_CHILD. */
    method SwapChild(par: Elem?<K, V>, out: Elem<K, V>, into: Elem?<K, V>, ghost p: Path<Elem<K, V>>,
                     ghost hole: set<Elem<K, V>>)
      requires Mirrors() && par == Parent(p) && PathLinked(mem, p, out) && root == RootOf(p, out)
      requires PathSeparate(p, hole) && out in hole
      modifies this, Just(par)`entry
      ensures Mirrors() && PathLinked(mem, p, into) && root == RootOf(p, into)
      ensures Only(old(mem), mem, Just(par))
    {
      if p.Step? { Swapped(mem, p, out, into, hole); }
      if par == null {
        root := into;
      } else if out == par.entry.left {
        Put(par, par.entry.(left := into));
      } else {
        Put(par, par.entry.(right := into));
      }
    }

    /** `b` takes the place of a subtree with top `out` at the end of `p`. */
    method Attach(gpar: Elem?<K, V>, out: Elem<K, V>, into: Elem<K, V>, ghost p: Path<Elem<K, V>>,
                  ghost hole: set<Elem<K, V>>, ghost b: Tree<Elem<K, V>>)
      requires Mirrors() && gpar == Parent(p) && PathLinked(mem, p, out) && root == RootOf(p, out)
      requires PathSeparate(p, hole) && out in hole && Elems(b) <= hole
      requires into == Top(b) && Linked(mem, b, gpar)
      modifies this, Just(gpar)`entry
      ensures Holds(Plug(p, b)) && mem.Keys == old(mem.Keys)
    {
      ghost var m := mem;
      PathDisjoint(p, hole);
      SwapChild(gpar, out, into, p, hole);
      LinkedFrame(m, mem, Just(gpar), b, gpar);
      PlugLinked(mem, p, b);
    }

    /** RB_ROTATE followed by the new parent link of the node that rose. */
    method Raise(parent: Elem<K, V>, child: Elem<K, V>, dir: Side, gpar: Elem?<K, V>)
      requires Mirrors() && parent in mem && child in mem
      requires mem[child].Link(dir) != null ==> mem[child].Link(dir) in mem
      modifies this`mem, mem.Keys`entry
      ensures Mirrors() && mem == Raised(old(mem), parent, child, dir, gpar)
    {
      Rotate(parent, child, dir);
      Put(child, child.entry.(up := gpar));
    }

    /** The first rotation of RB_INSERT_COLOR when the long edge of `elm` points away from its parent. */
    method Twist(parent: Elem<K, V>, elm: Elem<K, V>, child: Elem<K, V>, s: Side)
      requires Mirrors() && parent in mem && elm in mem && child in mem
      requires mem[child].Link(s) != null ==> mem[child].Link(s) in mem
      modifies this`mem, mem.Keys`entry
      ensures Mirrors() && mem == GrownTwisted(old(mem), parent, elm, child, s)
    {
      Rotate(elm, child, s);
      if child.entry.Long(s.Other()) {
        Put(parent, parent.entry.Flip(s));
      }
      if child.entry.Long(s) {
        Put(elm, elm.entry.Flip(s).Flip(s.Other()));
      } else {
        Put(elm, elm.entry.Flip(s));
      }
    }

    /** The rotating iteration of RB_INSERT_COLOR with one rotation, up to the link from the grandparent. */
    method RotateOnce(parent: Elem<K, V>, elm: Elem<K, V>, s: Side, gpar: Elem?<K, V>, ghost p: Path<Elem<K, V>>,
                      ghost t: Tree<Elem<K, V>>)
      requires Mirrors() && Rotating(mem, p, t) && !t.Long(s)
      requires p.elem == parent && p.side == s && elm == Top(t) && gpar == Parent(p.up)
      modifies this`mem, mem.Keys`entry
      ensures Mirrors() && mem.Keys == old(mem.Keys)
      ensures Linked(mem, Insertion.Rotated(s, t, parent, p.far), gpar) && PathLinked(mem, p.up, parent)
    {
      SingleRotation(mem, p, t);
      Put(parent, parent.entry.Short());
      Raise(parent, elm, s.Other(), gpar);
      Put(elm, elm.entry.Short());
    }

    /** The same with two rotations. */
    method RotateTwice(parent: Elem<K, V>, elm: Elem<K, V>, child: Elem<K, V>, s: Side, gpar: Elem?<K, V>,
                       ghost p: Path<Elem<K, V>>, ghost t: Tree<Elem<K, V>>)
      requires Mirrors() && Rotating(mem, p, t) && t.Long(s) && !t.Long(s.Other())
      requires p.elem == parent && p.side == s && elm == Top(t) && child == Top(t.Child(s.Other()))
      requires gpar == Parent(p.up)
      modifies this`mem, mem.Keys`entry
      ensures Mirrors() && mem.Keys == old(mem.Keys)
      ensures Linked(mem, Insertion.Rotated(s, t, parent, p.far), gpar) && PathLinked(mem, p.up, parent)
    {
      ghost var m := mem;
      DoubleTwist(mem, p, t);
      Put(parent, parent.entry.Short());
      Twist(parent, elm, child, s);
      DoubleRotation(m, mem, p, t);
      Raise(parent, child, s.Other(), gpar);
      Put(child, child.entry.Short());
    }

    /** The rotating iteration of RB_INSERT_COLOR.  `last` is the node the loop came from before `elm`. */
    method RotateGrown(parent: Elem<K, V>, elm: Elem<K, V>, last: Elem?<K, V>, s: Side, ghost p: Path<Elem<K, V>>,
                       ghost t: Tree<Elem<K, V>>)
      requires At(p, t) && Insertion.Grown(p, t)
      requires p.Step? && p.elem == parent && p.side == s && !p.nearLong && p.farLong && elm == Top(t)
      requires t.Long(s) ==> last == Top(t.Child(s.Other()))
      modifies this, mem.Keys`entry
      ensures Holds(Insertion.Rebalance(p, t)) && mem.Keys == old(mem.Keys)
    {
      Insertion.RotatedBalanced(s, t, parent, p.far);
      ghost var hole, b := Elems(t) + {parent} + Elems(p.far), Insertion.Rotated(s, t, parent, p.far);
      RotatedElems(s, t, parent, p.far);
      var gpar := parent.entry.up;
      var child := elm;
      if elm.entry.Long(s) {
        child := last;
        RotateTwice(parent, elm, child, s, gpar, p, t);
      } else {
        RotateOnce(parent, elm, s, gpar, p, t);
      }
      Attach(gpar, parent, child, p.up, hole, b);
    }

    /** One iteration of the RB_INSERT_COLOR loop; `done` tells that the loop is left. */
    method InsertIteration(parent: Elem<K, V>, elm: Elem<K, V>, last: Elem?<K, V>, ghost p: Path<Elem<K, V>>,
                           ghost t: Tree<Elem<K, V>>)
      returns (done: bool, s: Side)
      requires At(p, t) && Insertion.Grown(p, t) && p.Step? && parent == p.elem && elm == Top(t)
      requires t.Rank() > 1 ==> last == Top(if t.leftLong then t.right else t.left)
      modifies this, mem.Keys`entry
      ensures mem.Keys == old(mem.Keys) && s == p.side
      ensures done == (p.nearLong || p.farLong)
      ensures done ==> Holds(Insertion.Rebalance(p, t))
      ensures !done ==> At(p.up, Branch(s, t, false, parent, true, p.far))
    {
      SideFound(mem, p, t);
      s := if parent.entry.right == elm then R else L;
      done := true;
      var farLong := parent.entry.Long(s.Other());
      if parent.entry.Long(s) {
        SetEdges(parent, s, false, farLong, p, t);
        AtHolds(p.up, Branch(s, t, false, parent, farLong, p.far));
      } else if farLong {
        RotateGrown(parent, elm, last, s, p, t);
      } else {
        SetEdges(parent, s, false, true, p, t);
        done := false;
      }
    }

    /** RB_INSERT_COLOR, called with a new leaf `elm0` below `parent0`. */
    method InsertColor(parent0: Elem<K, V>, elm0: Elem<K, V>, ghost p0: Path<Elem<K, V>>, ghost t0: Tree<Elem<K, V>>)
      returns (ghost steps: nat)
      requires At(p0, t0) && Insertion.Grown(p0, t0) && t0.Rank() == 1
      requires p0.Step? && parent0 == p0.elem && elm0 == Top(t0)
      modifies this, mem.Keys`entry
      ensures Holds(Insertion.Rebalance(p0, t0)) && mem.Keys == old(mem.Keys)
      ensures steps == Cost.InsertSteps(p0, t0)
    {
      var parent: Elem<K, V>, elm: Elem<K, V> := parent0, elm0;
      var child: Elem?<K, V> := null;
      ghost var p: Path<Elem<K, V>>, t: Tree<Elem<K, V>> := p0, t0;
      steps := 0;
      while true
        invariant At(p, t) && Insertion.Grown(p, t) && p.Step? && parent == p.elem && elm == Top(t)
        invariant Insertion.Rebalance(p, t) == Insertion.Rebalance(p0, t0)
        invariant steps + Cost.InsertSteps(p, t) == Cost.InsertSteps(p0, t0)
        invariant t.Rank() > 1 ==> child == Top(if t.leftLong then t.right else t.left)
        invariant mem.Keys == old(mem.Keys)
        decreases p
      {
        var gpar := parent.entry.up;
        var done, s := InsertIteration(parent, elm, child, p, t);
        steps := steps + 1;
        if done {
          return;
        }
        Cost.Promoted(p, t);
        p, t := p.up, Branch(s, t, false, parent, true, p.far);
        child := elm;
        elm := parent;
        if gpar == null {
          AtHolds(p, t);
          return;
        }
        parent := gpar;
      }
    }

    /** The first rotation of RB_REMOVE_COLOR when the sibling's long edge points away from the parent. */
    method TwistShrunk(parent: Elem<K, V>, sib: Elem<K, V>, top: Elem<K, V>, s: Side)
      requires Mirrors() && parent in mem && sib in mem && top in mem
      requires mem[top].Link(s.Other()) != null ==> mem[top].Link(s.Other()) in mem
      modifies this`mem, mem.Keys`entry
      ensures Mirrors() && mem == RL.ShrunkTwisted(old(mem), parent, sib, top, s)
    {
      Rotate(sib, top, s.Other());
      if top.entry.Long(s) {
        Put(parent, parent.entry.Flip(s).Flip(s.Other()));
      } else {
        Put(parent, parent.entry.Flip(s));
      }
      if top.entry.Long(s.Other()) {
        Put(sib, sib.entry.Flip(s).Flip(s.Other()));
      } else {
        Put(sib, sib.entry.Flip(s.Other()));
      }
      Put(top, top.entry.(leftLong := true, rightLong := true));
    }

    method SinkTwice(parent: Elem<K, V>, sib: Elem<K, V>, s: Side, gpar: Elem?<K, V>, ghost p: Path<Elem<K, V>>,
                     ghost t: Tree<Elem<K, V>>)
      returns (top: Elem<K, V>)
      requires Mirrors() && RL.Sinking(mem, p, t) && p.far.Long(s.Other()) && !p.far.Long(s) && p.far.Child(s).Node?
      requires p.elem == parent && p.side == s && sib == Top(p.far) && gpar == Parent(p.up)
      modifies this`mem, mem.Keys`entry
      ensures Mirrors() && mem.Keys == old(mem.Keys) && top == p.far.Child(s).elem
      ensures Linked(mem, Removal.DoubleRotated(s, t, parent, p.far), gpar) && PathLinked(mem, p.up, parent)
    {
      ghost var m := mem;
      RL.DoubleTwist(mem, p, t);
      top := sib.entry.Link(s);
      TwistShrunk(parent, sib, top, s);
      RL.DoubleRotation(m, mem, p, t);
      Raise(parent, top, s, gpar);
    }

    method SinkOnce(parent: Elem<K, V>, sib: Elem<K, V>, s: Side, gpar: Elem?<K, V>, ghost p: Path<Elem<K, V>>,
                    ghost t: Tree<Elem<K, V>>)
      requires Mirrors() && RL.Sinking(mem, p, t) && !p.far.Long(s.Other())
      requires p.elem == parent && p.side == s && sib == Top(p.far) && gpar == Parent(p.up)
      modifies this`mem, mem.Keys`entry
      ensures Mirrors() && mem.Keys == old(mem.Keys)
      ensures Linked(mem, Removal.SingleRotated(s, t, parent, p.far), gpar) && PathLinked(mem, p.up, parent)
    {
      RL.SingleRotation(mem, p, t);
      if sib.entry.Long(s) {
        // demote the parent
        Put(parent, parent.entry.Flip(s));
      }
      Put(sib, sib.entry.Flip(s.Other()));
      Raise(parent, sib, s, gpar);
    }

    /** The rotating iteration of RB_REMOVE_COLOR. */
    method RotateShrunk(parent: Elem<K, V>, sib: Elem<K, V>, s: Side, ghost p: Path<Elem<K, V>>,
                        ghost t: Tree<Elem<K, V>>)
      requires At(p, t) && Removal.Shrunk(p, t) && RL.Sinking(mem, p, t)
      requires p.elem == parent && p.side == s && sib == Top(p.far) && !(p.far.Long(s) && p.far.Long(s.Other()))
      modifies this, mem.Keys`entry
      ensures Holds(Removal.Rebalance(p, t)) && mem.Keys == old(mem.Keys)
    {
      var gpar := parent.entry.up;
      if sib.entry.Long(s.Other()) {
        Removal.DoubleRotatedBalanced(s, t, parent, p.far);
        SinkTwiceAttached(parent, sib, s, gpar, p, t);
      } else {
        SinkOnceAttached(parent, sib, s, gpar, p, t);
      }
    }

    method SinkTwiceAttached(parent: Elem<K, V>, sib: Elem<K, V>, s: Side, gpar: Elem?<K, V>,
                             ghost p: Path<Elem<K, V>>, ghost t: Tree<Elem<K, V>>)
      requires At(p, t) && RL.Sinking(mem, p, t) && p.far.Long(s.Other()) && !p.far.Long(s) && p.far.Child(s).Node?
      requires p.elem == parent && p.side == s && sib == Top(p.far) && gpar == Parent(p.up)
      modifies this, mem.Keys`entry
      ensures Holds(Plug(p.up, Removal.DoubleRotated(s, t, parent, p.far))) && mem.Keys == old(mem.Keys)
    {
      RL.DoubleRotatedElems(s, t, parent, p.far);
      var top := SinkTwice(parent, sib, s, gpar, p, t);
      Attach(gpar, parent, top, p.up, Elems(t) + {parent} + Elems(p.far), Removal.DoubleRotated(s, t, parent, p.far));
    }

    method SinkOnceAttached(parent: Elem<K, V>, sib: Elem<K, V>, s: Side, gpar: Elem?<K, V>,
                            ghost p: Path<Elem<K, V>>, ghost t: Tree<Elem<K, V>>)
      requires At(p, t) && RL.Sinking(mem, p, t) && !p.far.Long(s.Other())
      requires p.elem == parent && p.side == s && sib == Top(p.far) && gpar == Parent(p.up)
      modifies this, mem.Keys`entry
      ensures Holds(Plug(p.up, Removal.SingleRotated(s, t, parent, p.far))) && mem.Keys == old(mem.Keys)
    {
      RL.SingleRotatedElems(s, t, parent, p.far);
      SinkOnce(parent, sib, s, gpar, p, t);
      Attach(gpar, parent, sib, p.up, Elems(t) + {parent} + Elems(p.far), Removal.SingleRotated(s, t, parent, p.far));
    }

    /** Demote the parent together with a sibling that has two long edges. */
    method DemoteSibling(parent: Elem<K, V>, sib: Elem<K, V>, s: Side, ghost p: Path<Elem<K, V>>,
                         ghost t: Tree<Elem<K, V>>)
      requires At(p, t) && RL.Sinking(mem, p, t) && p.elem == parent && p.side == s && sib == Top(p.far)
      modifies this`mem, mem.Keys`entry
      ensures At(p.up, Branch(s, t, true, parent, false, Removal.BothShort(p.far))) && mem.Keys == old(mem.Keys)
    {
      RL.SiblingShort(mem, p, t);
      Put(sib, sib.entry.Short());
      SetEdges(parent, s, true, false, p.(far := Removal.BothShort(p.far)), t);
    }

    /** One iteration of the RB_REMOVE_COLOR loop; `done` tells that the loop is left. */
    method RemoveIteration(parent: Elem<K, V>, elm: Elem?<K, V>, ghost p: Path<Elem<K, V>>, ghost t: Tree<Elem<K, V>>)
      returns (done: bool, gpar: Elem?<K, V>)
      requires At(p, t) && Removal.Shrunk(p, t) && p.Step? && parent == p.elem && elm == Top(t)
      modifies this, mem.Keys`entry
      ensures mem.Keys == old(mem.Keys) && done == !Cost.Demotes(p)
      ensures done ==> Holds(Removal.Rebalance(p, t))
      ensures !done ==>
                At(p.up, Cost.DemotedTree(p, t)) && Top(Cost.DemotedTree(p, t)) == parent && gpar == Parent(p.up)
    {
      gpar := parent.entry.up;
      SideFound(mem, p, t);
      var s := if parent.entry.right == elm then R else L;
      var farLong := parent.entry.Long(s.Other());
      done := true;
      if !parent.entry.Long(s) {
        SetEdges(parent, s, true, farLong, p, t);
        AtHolds(p.up, Branch(s, t, true, parent, farLong, p.far));
      } else if farLong {
        SetEdges(parent, s, true, false, p, t);
        done := false;
      } else {
        Removal.DemoteBoth(p, t);
        var sib := parent.entry.Link(s.Other());
        if sib.entry.leftLong && sib.entry.rightLong {
          DemoteSibling(parent, sib, s, p, t);
          done := false;
        } else {
          RotateShrunk(parent, sib, s, p, t);
        }
      }
    }

    method MakeLeaf(parent: Elem<K, V>, ghost p: Path<Elem<K, V>>)
      requires p.Step? && p.far.Nil? && At(p, Nil) && parent == p.elem
      modifies this`mem, parent`entry
      ensures At(p.up, Leaf(parent)) && mem.Keys == old(mem.Keys)
    {
      ghost var m := mem;
      Put(parent, parent.entry.Short());
      SteppedUp(m, mem, p, Nil, false, false);
    }

    /** The loop of RB_REMOVE_COLOR. */
    method RemoveLoop(parent0: Elem<K, V>, elm0: Elem?<K, V>, ghost p0: Path<Elem<K, V>>, ghost t0: Tree<Elem<K, V>>)
      returns (ghost steps: nat)
      requires At(p0, t0) && Removal.Shrunk(p0, t0) && p0.Step? && parent0 == p0.elem && elm0 == Top(t0)
      modifies this, mem.Keys`entry
      ensures Holds(Removal.Rebalance(p0, t0)) && mem.Keys == old(mem.Keys)
      ensures steps == Cost.LoopSteps(p0, t0)
    {
      var parent: Elem<K, V>, elm: Elem?<K, V> := parent0, elm0;
      ghost var p: Path<Elem<K, V>>, t: Tree<Elem<K, V>> := p0, t0;
      steps := 0;
      while true
        invariant At(p, t) && Removal.Shrunk(p, t) && p.Step? && parent == p.elem && elm == Top(t)
        invariant Removal.Rebalance(p, t) == Removal.Rebalance(p0, t0)
        invariant steps + Cost.LoopSteps(p, t) == Cost.LoopSteps(p0, t0)
        invariant mem.Keys == old(mem.Keys)
        decreases p
      {
        var done, gpar := RemoveIteration(parent, elm, p, t);
        steps := steps + 1;
        if done {
          Cost.LastStep(p, t);
          return;
        }
        Cost.Demoted(p, t);
        p, t := p.up, Cost.DemotedTree(p, t);
        elm := parent;
        if gpar == null {
          AtHolds(p, t);
          return;
        }
        parent := gpar;
      }
    }

    /** RB_REMOVE_COLOR: the subtree `elm`, possibly null, below `parent` shrank. */
    method RemoveColor(parent: Elem<K, V>, elm: Elem?<K, V>, ghost p: Path<Elem<K, V>>, ghost t: Tree<Elem<K, V>>)
      returns (ghost steps: nat)
      requires At(p, t) && t.Balanced() && Fits(p, t.Rank() + 1, false)
      requires p.Step? && parent == p.elem && elm == Top(t)
      modifies this, mem.Keys`entry
      ensures Holds(Removal.RemoveColor(p, t)) && mem.Keys == old(mem.Keys)
      ensures steps == Cost.RemoveSteps(p, t)
    {
      EqualLinks(mem, p, t);
      if parent.entry.right == elm && parent.entry.left == elm {
        // the parent lost its only child: demote it to a leaf of rank 1
        MakeLeaf(parent, p);
        var gpar := parent.entry.up;
        if gpar == null {
          AtHolds(p.up, Leaf(parent));
          steps := 0;
        } else {
          steps := RemoveLoop(gpar, parent, p.up, Leaf(parent));
        }
      } else {
        steps := RemoveLoop(parent, elm, p, t);
      }
    }
  }
}
