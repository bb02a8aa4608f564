/**
 Rank-balanced (weak-AVL) trees as values.

 A node carries one "long edge" bit per child: an edge has length 2 when its bit
 is set and length 1 otherwise.  The upward rebalancing loops work on a zipper:
 a `Path` from the current subtree back to the root, innermost step first.
 Everything is symmetric in the side the loop came from, so each operation is
 written once for both directions.
 */
module RankTree {

  datatype Side = L | R
  {
    function Other(): Side { if L? then R else L }
  }

  /** The length of an edge with the given bit. */
  function Len(long: bool): nat { if long then 2 else 1 }

  datatype Tree<+T> =
    | Nil
    | Node(left: Tree<T>, leftLong: bool, elem: T, rightLong: bool, right: Tree<T>)
  {
    /** The sum of the edge lengths on the leftmost way down; null has rank 0. */
    function Rank(): nat {
      if Nil? then 0 else left.Rank() + Len(leftLong)
    }

    /** All ways down have the same length, and every leaf has rank 1. */
    predicate Balanced() {
      Node? ==>
        && left.Balanced() && right.Balanced()
        && left.Rank() + Len(leftLong) == right.Rank() + Len(rightLong)
        && !(left.Nil? && right.Nil? && leftLong)
    }

    function Child(s: Side): Tree<T>
      requires Node?
    {
      if s.L? then left else right
    }

    predicate Long(s: Side)
      requires Node?
    {
      if s.L? then leftLong else rightLong
    }

    function Size(): nat {
      if Nil? then 0 else left.Size() + 1 + right.Size()
    }

    function Height(): nat {
      if Nil? then 0
      else if left.Height() < right.Height() then 1 + right.Height()
      else 1 + left.Height()
    }

    function Inorder(): seq<T> {
      if Nil? then [] else left.Inorder() + [elem] + right.Inorder()
    }
  }

  /** The node whose child on side `s` is `near` and whose other child is `far`. */
  function Branch<T>(s: Side, near: Tree<T>, nearLong: bool, e: T, farLong: bool, far: Tree<T>): Tree<T> {
    if s.L? then Node(near, nearLong, e, farLong, far) else Node(far, farLong, e, nearLong, near)
  }

  function Leaf<T>(e: T): Tree<T> { Node(Nil, false, e, false, Nil) }

  /** The way from a hole in a tree up to the root. */
  datatype Path<+T> =
    | Root
    | Step(up: Path<T>, side: Side, nearLong: bool, elem: T, farLong: bool, far: Tree<T>)

  function Plug<T>(p: Path<T>, t: Tree<T>): Tree<T>
    decreases p
  {
    match p
    case Root => t
    case Step(up, s, nearLong, e, farLong, far) => Plug(up, Branch(s, t, nearLong, e, farLong, far))
  }

  /** The elements in order before and after the hole. */
  function Before<T>(p: Path<T>): seq<T> {
    match p
    case Root => []
    case Step(up, s, _, e, _, far) => if s.L? then Before(up) else Before(up) + far.Inorder() + [e]
  }

  function After<T>(p: Path<T>): seq<T> {
    match p
    case Root => []
    case Step(up, s, _, e, _, far) => if s.L? then [e] + far.Inorder() + After(up) else After(up)
  }

  lemma Regroup<T>(a: seq<T>, b: seq<T>, c: seq<T>, d: seq<T>, e: seq<T>)
    ensures a + (b + c + d) + e == a + b + (c + d + e)
    ensures a + (b + c + d) + e == (a + b + c) + d + e
  {
  }

  lemma {:induction false} PlugInorder<T>(p: Path<T>, t: Tree<T>)
    ensures Plug(p, t).Inorder() == Before(p) + t.Inorder() + After(p)
    decreases p
  {
    match p
    case Root =>
    case Step(up, s, nearLong, e, farLong, far) =>
      PlugInorder(up, Branch(s, t, nearLong, e, farLong, far));
      if s.L? {
        Regroup(Before(up), t.Inorder(), [e], far.Inorder(), After(up));
      } else {
        Regroup(Before(up), far.Inorder(), [e], t.Inorder(), After(up));
      }
  }

  /**
   The path is balanced around a hole that is to hold a subtree of rank `r`;
   `empty` says whether that subtree is null.
   */
  predicate Fits<T>(p: Path<T>, r: int, empty: bool)
    decreases p
  {
    match p
    case Root => true
    case Step(up, _, nearLong, _, farLong, far) =>
      && far.Balanced()
      && r + Len(nearLong) == far.Rank() + Len(farLong)
      && !(empty && far.Nil? && nearLong)
      && Fits(up, r + Len(nearLong), false)
  }

  lemma {:induction false} PlugBalanced<T>(p: Path<T>, t: Tree<T>)
    ensures Plug(p, t).Balanced() <==> t.Balanced() && Fits(p, t.Rank(), t.Nil?)
    decreases p
  {
    match p
    case Root =>
    case Step(up, s, nearLong, e, farLong, far) =>
      var b := Branch(s, t, nearLong, e, farLong, far);
      PlugBalanced(up, b);
      if b.Balanced() { assert b.Rank() == t.Rank() + Len(nearLong); }
  }
}
