/**
 The diagnostic RB_RANK: what it finds out about a tree, and what it misses.
 */
module RankTreeCheck {
  import opened RankTree

  /** RB_RANK: the rank of the tree, or -1. */
  function RankCheck<T>(t: Tree<T>): int {
    if t.Nil? then 0
    else
      var left, right := Len(t.leftLong) + RankCheck(t.left), Len(t.rightLong) + RankCheck(t.right);
      if left != right || (left == 2 && t.left.Nil? && t.right.Nil?) then -1 else left
  }

  /** The promise: the rank of a balanced tree, and -1 for any other. */
  predicate Right<T>(t: Tree<T>) { RankCheck(t) == if t.Balanced() then t.Rank() else -1 }

  /** The promise for the tree and for all its subtrees. */
  predicate AllRight<T>(t: Tree<T>) { Right(t) && (t.Node? ==> AllRight(t.left) && AllRight(t.right)) }

  /**
   What hides a broken subtree: a broken sibling on an edge of the same length, or a null
   sibling on a short edge when its own edge is long.
   */
  predicate Hidden<T>(t: Tree<T>)
    requires t.Node?
  {
    || (!t.left.Balanced() && !t.right.Balanced() && t.leftLong == t.rightLong)
    || (!t.left.Balanced() && t.leftLong && t.right.Nil? && !t.rightLong)
    || (!t.right.Balanced() && t.rightLong && t.left.Nil? && !t.leftLong)
  }

  /** Nothing is hidden anywhere in the tree. */
  predicate Clear<T>(t: Tree<T>) { t.Node? ==> Clear(t.left) && Clear(t.right) && !Hidden(t) }

  /** A balanced tree passes, with its rank. */
  lemma {:induction false} BalancedPasses<T>(t: Tree<T>)
    requires t.Balanced()
    ensures RankCheck(t) == t.Rank()
  {
    if t.Node? {
      BalancedPasses(t.left);
      BalancedPasses(t.right);
    }
  }

  /** The promise holds throughout a tree exactly if nothing in it is hidden. */
  lemma {:induction false} CheckExact<T>(t: Tree<T>)
    ensures AllRight(t) <==> Clear(t)
  {
    if t.Node? {
      CheckExact(t.left);
      CheckExact(t.right);
      if t.Balanced() {
        BalancedPasses(t);
        BalancedPasses(t.left);
        BalancedPasses(t.right);
      }
    }
  }

  /** A tree that breaks the rank rule in both halves and is reported as having rank 0. */
  lemma CheckMisses()
    ensures exists t: Tree<int> :: !t.Balanced() && RankCheck(t) == 0
  {
    var bad := Node(Nil, true, 0, true, Nil);
    var t := Node(bad, false, 1, false, bad);
    assert RankCheck(bad) == -1;
    assert !t.Balanced() && RankCheck(t) == 0;
  }

  /** A tree that breaks the rank rule in one half only and is reported as having rank 1. */
  lemma CheckMissesOneSided()
    ensures exists t: Tree<int> :: !t.Balanced() && t.right.Balanced() && RankCheck(t) == 1
  {
    var bad := Node(Nil, true, 0, true, Nil);
    var t := Node(bad, true, 1, false, Nil);
    assert RankCheck(bad) == -1;
    assert !t.Balanced() && t.right.Balanced() && RankCheck(t) == 1;
  }
}
