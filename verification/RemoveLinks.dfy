/**
 What the pointer writes of RB_REMOVE_COLOR do to the links of the nodes.
 */
module RemoveLinks {
  import opened RankTree
  import opened TreeLinks
  import Removal = RankTreeRemove

  /** The links around a shrunk subtree whose parent must be rotated down. */
  ghost predicate Sinking<K, V>(m: Mem<K, V>, p: Path<Elem<K, V>>, t: Tree<Elem<K, V>>) {
    Placed(m, p, t) && p.Step? && p.nearLong && !p.farLong && p.far.Node?
  }

  /** The links after the first of two rotations, with the edge bits adjusted. */
  function ShrunkTwisted<K, V>(m: Mem<K, V>, parent: Elem<K, V>, sib: Elem<K, V>, top: Elem<K, V>, s: Side): Mem<K, V>
    requires parent in m && sib in m && top in m
    requires m[top].Link(s.Other()) != null ==> m[top].Link(s.Other()) in m
  {
    var o := s.Other();
    var m1 := Rotated(m, sib, top, o);
    var m2 := m1[parent := if m1[top].Long(s) then m1[parent].Flip(s).Flip(o) else m1[parent].Flip(s)];
    var m3 := m2[sib := if m2[top].Long(o) then m2[sib].Flip(s).Flip(o) else m2[sib].Flip(o)];
    m3[top := m3[top].(leftLong := true, rightLong := true)]
  }

  lemma ShrunkTwistedAt<K, V>(m: Mem<K, V>, parent: Elem<K, V>, sib: Elem<K, V>, top: Elem<K, V>, s: Side)
    requires parent in m && sib in m && top in m && parent != sib && parent != top && sib != top
    requires m[top].Link(s.Other()) != null ==>
               m[top].Link(s.Other()) in m && m[top].Link(s.Other()) !in {parent, sib, top}
    requires m[sib].Long(s.Other()) && !m[sib].Long(s) && m[parent].Long(s) && !m[parent].Long(s.Other())
    ensures var o := s.Other(); var m1, m' := Rotated(m, sib, top, o), ShrunkTwisted(m, parent, sib, top, s);
            && Only(m1, m', {parent, sib, top})
            && m'[parent] == m[parent].WithLong(s, false).WithLong(o, m[top].Long(s))
            && m'[sib] == m1[sib].WithLong(o, false).WithLong(s, m[top].Long(o))
            && m'[top] == m1[top].(leftLong := true, rightLong := true)
  {
  }

  lemma ShrunkTwistedLinked<K, V>(m: Mem<K, V>, parent: Elem<K, V>, sib: Elem<K, V>, top: Elem<K, V>, s: Side,
                               x: Tree<Elem<K, V>>, y: Tree<Elem<K, V>>, z: Tree<Elem<K, V>>)
    requires parent in m && sib in m && top in m && parent != sib && parent != top && sib != top && Separate(y)
    requires {parent, sib, top} !! Elems(x) && {parent, sib, top} !! Elems(y) && {parent, sib, top} !! Elems(z)
    requires Elems(x) !! Elems(y) && Elems(y) !! Elems(z)
    requires m[sib].Long(s.Other()) && !m[sib].Long(s) && m[parent].Long(s) && !m[parent].Long(s.Other())
    requires m[sib].Link(s.Other()) == Top(z) && Linked(m, z, sib)
    requires m[top].Link(s) == Top(x) && Linked(m, x, top)
    requires m[top].Link(s.Other()) == Top(y) && Linked(m, y, top)
    ensures m[top].Link(s.Other()) != null ==> m[top].Link(s.Other()) in m
    ensures var m', o := ShrunkTwisted(m, parent, sib, top, s), s.Other();
            && Only(m, m', {parent, sib, top} + Just(Top(y)))
            && m'[parent] == m[parent].WithLong(s, false).WithLong(o, m[top].Long(s))
            && m'[top].Link(s) == Top(x) && m'[top].Link(o) == sib && m'[top].Long(s) && m'[top].Long(o)
            && Linked(m', x, top)
            && Linked(m', Branch(s, y, m[top].Long(o), sib, false, z), top)
  {
    var o := s.Other();
    RotatedLinked(m, sib, top, o, z, y);
    ShrunkTwistedAt(m, parent, sib, top, s);
    var m1 := Rotated(m, sib, top, o);
    var m' := ShrunkTwisted(m, parent, sib, top, s);
    LinkedFrame(m, m1, {sib, top} + Just(Top(y)), x, top);
    LinkedFrame(m1, m', {parent, sib, top}, x, top);
    LinkedFrame(m1, m', {parent, sib, top}, y, sib);
    LinkedFrame(m1, m', {parent, sib, top}, z, sib);
    assert m'[sib] == Sided(s, top, Top(y), m[top].Long(o), false, Top(z));
  }

  lemma NearParts<T>(t: Tree<T>, s: Side)
    requires Separate(t) && t.Node? && t.Child(s).Node?
    ensures var c, z := t.Child(s), t.Child(s.Other());
            var x, y := c.Child(s), c.Child(s.Other());
            && Elems(c) == Elems(x) + {c.elem} + Elems(y) && Elems(t) == Elems(c) + {t.elem} + Elems(z)
            && Separate(x) && Separate(y) && Separate(z) && t.elem != c.elem
            && {t.elem, c.elem} !! Elems(x) && {t.elem, c.elem} !! Elems(y) && {t.elem, c.elem} !! Elems(z)
            && Elems(x) !! Elems(y) && Elems(x) !! Elems(z) && Elems(y) !! Elems(z)
  {
  }

  /** The links between the two rotations. */
  ghost predicate Twisted<K, V>(m: Mem<K, V>, p: Path<Elem<K, V>>, t: Tree<Elem<K, V>>)
    requires p.Step? && p.far.Node? && p.far.Child(p.side).Node?
  {
    var s, o, sib, top := p.side, p.side.Other(), p.far, p.far.Child(p.side);
    && p.elem in m && top.elem in m
    && m[top.elem].Link(s) == Top(top.Child(s)) && m[top.elem].Link(o) == sib.elem
    && m[top.elem].Long(s) && m[top.elem].Long(o)
    && m[p.elem].Link(s) == Top(t) && !m[p.elem].Long(s) && m[p.elem].Long(o) == top.Long(s)
    && Linked(m, top.Child(s), top.elem)
    && Linked(m, Branch(s, top.Child(o), top.Long(o), sib.elem, false, sib.Child(o)), top.elem)
    && Linked(m, t, p.elem)
  }

  lemma DoubleTwist<K, V>(m: Mem<K, V>, p: Path<Elem<K, V>>, t: Tree<Elem<K, V>>)
    requires Sinking(m, p, t) && p.far.Long(p.side.Other()) && !p.far.Long(p.side) && p.far.Child(p.side).Node?
    ensures var s, o, sib, top := p.side, p.side.Other(), p.far.elem, p.far.Child(p.side).elem;
            && sib in m && top in m && p.elem in m
            && (m[top].Link(o) != null ==> m[top].Link(o) in m)
            && var m' := ShrunkTwisted(m, p.elem, sib, top, s);
            && Only(m, m', {p.elem} + Elems(p.far))
            && Twisted(m', p, t)
  {
    var s, o, parent, sib, top := p.side, p.side.Other(), p.elem, p.far, p.far.Child(p.side);
    NearParts(sib, s);
    assert Linked(m, top, sib.elem);
    ShrunkTwistedLinked(m, parent, sib.elem, top.elem, s, top.Child(s), top.Child(o), sib.Child(o));
    var m' := ShrunkTwisted(m, parent, sib.elem, top.elem, s);
    LinkedFrame(m, m', {parent} + Elems(sib), t, parent);
  }

  /** The near child of the sibling rises above both. */
  lemma DoubleRotation<K, V>(m: Mem<K, V>, m1: Mem<K, V>, p: Path<Elem<K, V>>, t: Tree<Elem<K, V>>)
    requires Sinking(m, p, t) && p.far.Child(p.side).Node?
    requires Only(m, m1, {p.elem} + Elems(p.far)) && Twisted(m1, p, t)
    ensures var s, top := p.side, p.far.Child(p.side).elem;
            && (m1[top].Link(s) != null ==> m1[top].Link(s) in m1)
            && var m2 := Raised(m1, p.elem, top, s, Parent(p.up));
            && m2.Keys == m.Keys
            && Linked(m2, Removal.DoubleRotated(s, t, p.elem, p.far), Parent(p.up))
            && PathLinked(m2, p.up, p.elem)
  {
    var s, o, parent, sib, top := p.side, p.side.Other(), p.elem, p.far, p.far.Child(p.side);
    NearParts(sib, s);
    var low := Branch(s, top.Child(o), top.Long(o), sib.elem, false, sib.Child(o));
    assert Elems(low) == Elems(top.Child(o)) + {sib.elem} + Elems(sib.Child(o));
    RaisedLinked(m1, parent, top.elem, s, Parent(p.up), t, top.Child(s), low);
    AboveKept(m, m1, Raised(m1, parent, top.elem, s, Parent(p.up)), p, {parent, top.elem} + Just(Top(top.Child(s))),
        {parent} + Elems(sib), Elems(t));
  }

  /** The edge bits before a single rotation. */
  function ShrunkEdges<K, V>(m: Mem<K, V>, parent: Elem<K, V>, sib: Elem<K, V>, s: Side): Mem<K, V>
    requires parent in m && sib in m
  {
    if m[sib].Long(s) then
      var m1 := m[parent := m[parent].Flip(s)];
      m1[sib := m1[sib].Flip(s.Other())]
    else
      m[sib := m[sib].Flip(s.Other())]
  }

  lemma ShrunkEdgesLinked<K, V>(m: Mem<K, V>, p: Path<Elem<K, V>>, t: Tree<Elem<K, V>>)
    requires Sinking(m, p, t) && !p.far.Long(p.side.Other())
    ensures var s, o, sib := p.side, p.side.Other(), p.far;
            && sib.elem in m && p.elem in m
            && var m1 := ShrunkEdges(m, p.elem, sib.elem, s);
            && Only(m, m1, {p.elem, sib.elem})
            && m1[p.elem] == m[p.elem].WithLong(s, !sib.Long(s)) && m1[sib.elem] == m[sib.elem].WithLong(o, true)
            && Linked(m1, t, p.elem) && Linked(m1, sib.Child(s), sib.elem) && Linked(m1, sib.Child(o), sib.elem)
  {
    var s, o, parent, sib := p.side, p.side.Other(), p.elem, p.far;
    var m1 := ShrunkEdges(m, parent, sib.elem, s);
    assert Only(m, m1, {parent, sib.elem});
    LinkedFrame(m, m1, {parent, sib.elem}, t, parent);
    LinkedFrame(m, m1, {parent, sib.elem}, sib.Child(s), sib.elem);
    LinkedFrame(m, m1, {parent, sib.elem}, sib.Child(o), sib.elem);
  }

  /** The sibling rises above the parent. */
  lemma SingleRotation<K, V>(m: Mem<K, V>, p: Path<Elem<K, V>>, t: Tree<Elem<K, V>>)
    requires Sinking(m, p, t) && !p.far.Long(p.side.Other())
    ensures var s, sib := p.side, p.far.elem;
            && sib in m && p.elem in m
            && var m1 := ShrunkEdges(m, p.elem, sib, s);
            && (m1[sib].Link(s) != null ==> m1[sib].Link(s) in m1)
            && var m2 := Raised(m1, p.elem, sib, s, Parent(p.up));
            && m2.Keys == m.Keys
            && Linked(m2, Removal.SingleRotated(s, t, p.elem, p.far), Parent(p.up))
            && PathLinked(m2, p.up, p.elem)
  {
    var s, o, parent, sib := p.side, p.side.Other(), p.elem, p.far;
    var m1 := ShrunkEdges(m, parent, sib.elem, s);
    ShrunkEdgesLinked(m, p, t);
    RaisedLinked(m1, parent, sib.elem, s, Parent(p.up), t, sib.Child(s), sib.Child(o));
    AboveKept(m, m1, Raised(m1, parent, sib.elem, s, Parent(p.up)), p, {parent, sib.elem} + Just(Top(sib.Child(s))),
        {parent} + Elems(sib), Elems(t));
  }

  /** A demoted sibling keeps its place. */
  lemma SiblingShort<K, V>(m: Mem<K, V>, p: Path<Elem<K, V>>, t: Tree<Elem<K, V>>)
    requires Sinking(m, p, t)
    ensures p.far.elem in m
    ensures Placed(m[p.far.elem := m[p.far.elem].Short()], p.(far := Removal.BothShort(p.far)), t)
  {
    var sib := p.far;
    var m' := m[sib.elem := m[sib.elem].Short()];
    PathDisjoint(p.up, Elems(t) + {p.elem} + Elems(sib));
    LinkedFrame(m, m', {sib.elem}, t, p.elem);
    LinkedFrame(m, m', {sib.elem}, sib.left, sib.elem);
    LinkedFrame(m, m', {sib.elem}, sib.right, sib.elem);
    PathFrame(m, m', {sib.elem}, p.up, p.elem);
  }

  lemma DoubleRotatedElems<T>(s: Side, t: Tree<T>, e: T, sib: Tree<T>)
    requires sib.Node? && sib.Child(s).Node?
    ensures Elems(Removal.DoubleRotated(s, t, e, sib)) == Elems(t) + {e} + Elems(sib)
  {
    var o := s.Other();
    var top := sib.Child(s);
    assert Elems(top) == Elems(top.Child(s)) + {top.elem} + Elems(top.Child(o));
    assert Elems(Branch(s, t, false, e, top.Long(s), top.Child(s))) == Elems(t) + {e} + Elems(top.Child(s));
    assert Elems(Branch(s, top.Child(o), top.Long(o), sib.elem, false, sib.Child(o)))
        == Elems(top.Child(o)) + {sib.elem} + Elems(sib.Child(o));
  }

  lemma SingleRotatedElems<T>(s: Side, t: Tree<T>, e: T, sib: Tree<T>)
    requires sib.Node?
    ensures Elems(Removal.SingleRotated(s, t, e, sib)) == Elems(t) + {e} + Elems(sib)
  {
    assert Elems(sib) == Elems(sib.Child(s)) + {sib.elem} + Elems(sib.Child(s.Other()));
  }
}
