/**
 How much work rebalancing does: an amortised bound on the iterations of the two
 upward loops, and a bound on the height of a tree.
 */
module RankTreeCost {
  import opened RankTree
  import opened Powers
  import Insertion = RankTreeInsert
  import Removal = RankTreeRemove

  /** Iterations of the RB_INSERT_COLOR loop. */
  function InsertSteps<T>(p: Path<T>, t: Tree<T>): nat
    requires Insertion.Grown(p, t)
    decreases p
  {
    match p
    case Root => 0
    case Step(up, s, nearLong, e, farLong, far) =>
      if nearLong || farLong then 1 else 1 + InsertSteps(up, Branch(s, t, false, e, true, far))
  }

  /** A promoted parent hands the same problem, one iteration on, to its own parent. */
  lemma Promoted<T>(p: Path<T>, t: Tree<T>)
    requires Insertion.Grown(p, t) && p.Step? && !p.nearLong && !p.farLong
    ensures var b := Branch(p.side, t, false, p.elem, true, p.far);
            && Insertion.Grown(p.up, b) && b.Rank() > 1
            && Insertion.Rebalance(p, t) == Insertion.Rebalance(p.up, b)
            && InsertSteps(p, t) == 1 + InsertSteps(p.up, b)
            && t == (if b.leftLong then b.right else b.left)
  {
  }

  /** Iterations of the RB_REMOVE_COLOR loop. */
  function LoopSteps<T>(p: Path<T>, t: Tree<T>): nat
    requires Removal.Shrunk(p, t)
    decreases p
  {
    match p
    case Root => 0
    case Step(up, s, nearLong, e, farLong, far) =>
      if !nearLong then 1
      else if farLong then 1 + LoopSteps(up, Branch(s, t, true, e, false, far))
      else if far.Long(s) && far.Long(s.Other()) then
        Removal.DemoteBoth(p, t);
        1 + LoopSteps(up, Branch(s, t, true, e, false, Removal.BothShort(far)))
      else 1
  }

  /** The iteration at the end of `p` only demotes. */
  predicate Demotes<T>(p: Path<T>) {
    p.Step? && p.nearLong && (p.farLong || (p.far.Node? && p.far.leftLong && p.far.rightLong))
  }

  /** The subtree of the parent after a demotion. */
  function DemotedTree<T>(p: Path<T>, t: Tree<T>): Tree<T>
    requires Demotes(p)
  {
    Branch(p.side, t, true, p.elem, false, if p.farLong then p.far else Removal.BothShort(p.far))
  }

  /** A demoted parent hands the same problem, one iteration on, to its own parent. */
  lemma Demoted<T>(p: Path<T>, t: Tree<T>)
    requires Removal.Shrunk(p, t) && Demotes(p)
    ensures Removal.Shrunk(p.up, DemotedTree(p, t))
    ensures Removal.Rebalance(p, t) == Removal.Rebalance(p.up, DemotedTree(p, t))
    ensures LoopSteps(p, t) == 1 + LoopSteps(p.up, DemotedTree(p, t))
    ensures p.up.Root? ==> Removal.Rebalance(p, t) == DemotedTree(p, t) && LoopSteps(p, t) == 1
  {
    if !p.farLong { Removal.DemoteBoth(p, t); }
  }

  lemma LastStep<T>(p: Path<T>, t: Tree<T>)
    requires Removal.Shrunk(p, t) && p.Step? && !Demotes(p)
    ensures LoopSteps(p, t) == 1
  {
  }

  function RemoveSteps<T>(p: Path<T>, t: Tree<T>): nat
    requires t.Balanced() && Fits(p, t.Rank() + 1, false)
  {
    if p.Step? && t.Nil? && p.far.Nil? then LoopSteps(p.up, Leaf(p.elem)) else LoopSteps(p, t)
  }

  /** A node with two short edges weighs 1, one with two long edges weighs 2. */
  function Weight(a: bool, b: bool): nat { if a != b then 0 else if a then 2 else 1 }

  function Potential<T>(t: Tree<T>): nat {
    if t.Nil? then 0 else Potential(t.left) + Weight(t.leftLong, t.rightLong) + Potential(t.right)
  }

  function PathPotential<T>(p: Path<T>): nat {
    match p
    case Root => 0
    case Step(up, _, nearLong, _, farLong, far) => PathPotential(up) + Weight(nearLong, farLong) + Potential(far)
  }

  lemma {:induction false} PlugPotential<T>(p: Path<T>, t: Tree<T>)
    ensures Potential(Plug(p, t)) == PathPotential(p) + Potential(t)
    decreases p
  {
    if p.Step? { PlugPotential(p.up, Branch(p.side, t, p.nearLong, p.elem, p.farLong, p.far)); }
  }

  lemma RotatedPotential<T>(s: Side, t: Tree<T>, e: T, far: Tree<T>)
    requires t.Node? && t.Balanced() && t.Rank() > 1 && t.leftLong != t.rightLong
    requires t.Long(s) ==> t.Child(s.Other()).Node?
    ensures Potential(Insertion.Rotated(s, t, e, far)) <= Potential(t) + Potential(far) + 2
  {
    var o := s.Other();
    if t.Long(s) {
      var c := t.Child(o);
      assert Potential(c) == Potential(c.Child(s)) + Weight(c.leftLong, c.rightLong) + Potential(c.Child(o));
    }
  }

  lemma {:induction false} InsertLoopAmortised<T>(p: Path<T>, t: Tree<T>)
    requires Insertion.Grown(p, t)
    ensures InsertSteps(p, t) + Potential(Insertion.Rebalance(p, t)) <= PathPotential(p) + Potential(t) + 3
    decreases p
  {
    match p
    case Root =>
    case Step(up, s, nearLong, e, farLong, far) =>
      if nearLong {
        PlugPotential(up, Branch(s, t, false, e, farLong, far));
      } else if !farLong {
        InsertLoopAmortised(up, Branch(s, t, false, e, true, far));
      } else {
        RotatedPotential(s, t, e, far);
        PlugPotential(up, Insertion.Rotated(s, t, e, far));
      }
  }

  lemma DoubleRotatedPotential<T>(s: Side, t: Tree<T>, e: T, sib: Tree<T>)
    requires sib.Node? && sib.Child(s).Node? && sib.Long(s.Other()) && !sib.Long(s)
    ensures Potential(Removal.DoubleRotated(s, t, e, sib)) <= Potential(t) + Potential(sib) + 3
  {
    var o := s.Other();
    var top := sib.Child(s);
    assert Potential(top) == Potential(top.Child(s)) + Weight(top.leftLong, top.rightLong) + Potential(top.Child(o));
    var a := Branch(s, t, false, e, top.Long(s), top.Child(s));
    var b := Branch(s, top.Child(o), top.Long(o), sib.elem, false, sib.Child(o));
    assert Potential(a) == Potential(t) + Weight(false, top.Long(s)) + Potential(top.Child(s));
    assert Potential(b) == Potential(top.Child(o)) + Weight(top.Long(o), false) + Potential(sib.Child(o));
  }

  lemma SingleRotatedPotential<T>(s: Side, t: Tree<T>, e: T, sib: Tree<T>)
    requires sib.Node? && !sib.Long(s.Other())
    ensures Potential(Removal.SingleRotated(s, t, e, sib)) <= Potential(t) + Potential(sib) + 3
  {
  }

  lemma {:induction false} RemoveLoopAmortised<T>(p: Path<T>, t: Tree<T>)
    requires Removal.Shrunk(p, t)
    ensures LoopSteps(p, t) + Potential(Removal.Rebalance(p, t)) <= PathPotential(p) + Potential(t) + 4
    decreases p
  {
    match p
    case Root =>
    case Step(up, s, nearLong, e, farLong, far) =>
      if !nearLong {
        PlugPotential(up, Branch(s, t, true, e, farLong, far));
      } else if farLong {
        RemoveLoopAmortised(up, Branch(s, t, true, e, false, far));
      } else if far.Long(s) && far.Long(s.Other()) {
        RemoveLoopAmortised(up, Branch(s, t, true, e, false, Removal.BothShort(far)));
      } else if far.Long(s.Other()) {
        Removal.DoubleRotatedBalanced(s, t, e, far);
        DoubleRotatedPotential(s, t, e, far);
        PlugPotential(up, Removal.DoubleRotated(s, t, e, far));
      } else {
        SingleRotatedPotential(s, t, e, far);
        PlugPotential(up, Removal.SingleRotated(s, t, e, far));
      }
  }

  lemma RemoveColorAmortised<T>(p: Path<T>, t: Tree<T>)
    requires t.Balanced() && Fits(p, t.Rank() + 1, false)
    ensures RemoveSteps(p, t) + Potential(Removal.RemoveColor(p, t)) <= PathPotential(p) + Potential(t) + 5
  {
    if p.Step? && t.Nil? && p.far.Nil? {
      RemoveLoopAmortised(p.up, Leaf(p.elem));
    } else {
      RemoveLoopAmortised(p, t);
    }
  }

  lemma {:induction false} LeftmostPotential<T>(p: Path<T>, t: Tree<T>)
    requires t.Node?
    ensures PathPotential(Removal.LeftmostPath(p, t)) + Potential(Removal.Leftmost(t).right)
         <= PathPotential(p) + Potential(t)
    decreases t
  {
    if t.left.Node? {
      LeftmostPotential(Step(p, L, t.leftLong, t.elem, t.rightLong, t.right), t.left);
    }
  }

  lemma InsertAmortised<T>(p: Path<T>, e: T)
    requires Plug(p, Nil).Balanced()
    ensures Fits(p, 0, true)
    ensures InsertSteps(p, Leaf(e)) + Potential(Insertion.InsertAt(p, e)) <= Potential(Plug(p, Nil)) + 4
  {
    PlugBalanced(p, Nil);
    InsertLoopAmortised(p, Leaf(e));
    PlugPotential(p, Nil);
  }

  /** Iterations spent on taking out the root of the subtree `t` at the end of `p`. */
  function SpliceSteps<T>(p: Path<T>, t: Tree<T>): nat
    requires t.Node? && t.Balanced() && Fits(p, t.Rank(), false)
  {
    Removal.SpliceFits(p, t);
    var q := Removal.SplicePath(p, t);
    if q.Root? then 0 else RemoveSteps(q, Removal.SpliceChild(t))
  }

  lemma RemoveAmortised<T>(p: Path<T>, t: Tree<T>)
    requires t.Node? && Plug(p, t).Balanced()
    ensures t.Balanced() && Fits(p, t.Rank(), false)
    ensures SpliceSteps(p, t) + Potential(Removal.RemoveAt(p, t)) <= Potential(Plug(p, t)) + 5
  {
    PlugBalanced(p, t);
    PlugPotential(p, t);
    Removal.SpliceFits(p, t);
    var q, c := Removal.SplicePath(p, t), Removal.SpliceChild(t);
    if t.left.Node? && t.right.Node? {
      LeftmostPotential(Step(p, R, t.rightLong, Removal.Leftmost(t.right).elem, t.leftLong, t.left), t.right);
    }
    assert PathPotential(q) + Potential(c) <= PathPotential(p) + Potential(t);
    if q.Step? { RemoveColorAmortised(q, c); }
  }

  /** One operation on a tree: insert at a null position, or remove the root of a subtree. */
  datatype Op<T> = Insert(p: Path<T>, e: T) | Remove(p: Path<T>, sub: Tree<T>)
  {
    ghost predicate Applies(t: Tree<T>) {
      match this
      case Insert(p, _) => t == Plug(p, Nil)
      case Remove(p, sub) => sub.Node? && t == Plug(p, sub)
    }

    ghost function Apply(t: Tree<T>): Tree<T>
      requires t.Balanced() && Applies(t)
    {
      match this
      case Insert(p, e) => PlugBalanced(p, Nil); Insertion.InsertAt(p, e)
      case Remove(p, sub) => PlugBalanced(p, sub); Removal.RemoveAt(p, sub)
    }

    ghost function Steps(t: Tree<T>): nat
      requires t.Balanced() && Applies(t)
    {
      match this
      case Insert(p, e) => PlugBalanced(p, Nil); InsertSteps(p, Leaf(e))
      case Remove(p, sub) => PlugBalanced(p, sub); SpliceSteps(p, sub)
    }
  }

  lemma ApplyBalanced<T>(op: Op<T>, t: Tree<T>)
    requires t.Balanced() && op.Applies(t)
    ensures op.Apply(t).Balanced()
  {
    match op
    case Insert(p, e) => Insertion.InsertAtCorrect(p, e);
    case Remove(p, sub) => Removal.RemoveAtCorrect(p, sub);
  }

  /** The operations can be applied one after the other, starting from `t`. */
  ghost predicate Runs<T>(ops: seq<Op<T>>, t: Tree<T>)
    requires t.Balanced()
  {
    ops == [] || (ops[0].Applies(t) && (ApplyBalanced(ops[0], t); Runs(ops[1..], ops[0].Apply(t))))
  }

  ghost function TotalSteps<T>(ops: seq<Op<T>>, t: Tree<T>): nat
    requires t.Balanced() && Runs(ops, t)
  {
    if ops == [] then 0
    else
      ApplyBalanced(ops[0], t);
      ops[0].Steps(t) + TotalSteps(ops[1..], ops[0].Apply(t))
  }

  function Inserts<T>(ops: seq<Op<T>>): nat {
    if ops == [] then 0 else (if ops[0].Insert? then 1 else 0) + Inserts(ops[1..])
  }

  function Removes<T>(ops: seq<Op<T>>): nat {
    if ops == [] then 0 else (if ops[0].Remove? then 1 else 0) + Removes(ops[1..])
  }

  lemma {:induction false} EveryOp<T>(ops: seq<Op<T>>)
    ensures Inserts(ops) + Removes(ops) == |ops|
  {
    if ops != [] { EveryOp(ops[1..]); }
  }

  lemma {:induction false} RunAmortised<T>(ops: seq<Op<T>>, t: Tree<T>)
    requires t.Balanced() && Runs(ops, t)
    ensures TotalSteps(ops, t) <= Potential(t) + 4 * Inserts(ops) + 5 * Removes(ops)
    decreases |ops|
  {
    if ops != [] {
      ApplyBalanced(ops[0], t);
      RunAmortised(ops[1..], ops[0].Apply(t));
      match ops[0]
      case Insert(p, e) => InsertAmortised(p, e);
      case Remove(p, sub) => RemoveAmortised(p, sub);
    }
  }

  /**
   Over any sequence of m insertions and d removals starting from the empty tree,
   the rebalancing loops run at most 4m + 5d times in total.
   */
  lemma TotalRebalancing<T>(ops: seq<Op<T>>)
    requires Runs(ops, Nil)
    ensures TotalSteps(ops, Nil) <= 4 * Inserts(ops) + 5 * Removes(ops)
  {
    RunAmortised(ops, Nil);
  }

  lemma {:induction false} HeightBelowRank<T>(t: Tree<T>)
    requires t.Balanced()
    ensures t.Height() <= t.Rank()
  {
    if t.Node? {
      HeightBelowRank(t.left);
      HeightBelowRank(t.right);
    }
  }

  lemma SquareOfSum(a: nat, b: nat, q: nat)
    requires a * a >= q && b * b >= q
    ensures (a + b) * (a + b) >= 4 * q
  {
    var m := if a <= b then a else b;
    assert (a + b) * (a + b) >= (2 * m) * (2 * m) by {
      MulMonotone(2 * m, a + b);
    }
  }

  lemma MulMonotone(a: nat, b: nat)
    requires a <= b
    ensures a * a <= b * b
  {
    assert a * a <= a * b <= b * b;
  }

  lemma {:induction false} RankBelowSize<T>(t: Tree<T>)
    requires t.Balanced()
    ensures Pow2(t.Rank()) <= (t.Size() + 1) * (t.Size() + 1)
  {
    if t.Node? {
      RankBelowSize(t.left);
      RankBelowSize(t.right);
      var r := t.Rank();
      if r == 1 {
        MulMonotone(2, t.Size() + 1);
      } else {
        Pow2Grows(r - 2, t.left.Rank());
        Pow2Grows(r - 2, t.right.Rank());
        SquareOfSum(t.left.Size() + 1, t.right.Size() + 1, Pow2(r - 2));
        assert t.Size() + 1 == (t.left.Size() + 1) + (t.right.Size() + 1);
        assert Pow2(r) == 4 * Pow2(r - 2);
      }
    }
  }

  /** The stated height bound 2 lg (n + 1), without logarithms. */
  lemma HeightBound<T>(t: Tree<T>)
    requires t.Balanced()
    ensures Pow2(t.Height()) <= (t.Size() + 1) * (t.Size() + 1)
  {
    HeightBelowRank(t);
    Pow2Grows(t.Height(), t.Rank());
    RankBelowSize(t);
  }
}
