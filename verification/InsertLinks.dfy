/**
 What the pointer writes of RB_INSERT_COLOR do to the links of the nodes.
 */
module InsertLinks {
  import opened RankTree
  import opened TreeLinks
  import Insertion = RankTreeInsert

  /** The links after the first of two rotations, with the edge bits adjusted. */
  function GrownTwisted<K, V>(m: Mem<K, V>, parent: Elem<K, V>, elm: Elem<K, V>, child: Elem<K, V>, s: Side): Mem<K, V>
    requires parent in m && elm in m && child in m
    requires m[child].Link(s) != null ==> m[child].Link(s) in m
  {
    var m1 := Rotated(m, elm, child, s);
    var m2 := if m1[child].Long(s.Other()) then m1[parent := m1[parent].Flip(s)] else m1;
    if m2[child].Long(s) then m2[elm := m2[elm].Flip(s).Flip(s.Other())] else m2[elm := m2[elm].Flip(s)]
  }

  lemma GrownTwistedAt<K, V>(m: Mem<K, V>, parent: Elem<K, V>, elm: Elem<K, V>, child: Elem<K, V>, s: Side)
    requires parent in m && elm in m && child in m && parent != elm && parent != child && elm != child
    requires m[child].Link(s) != null ==> m[child].Link(s) in m && m[child].Link(s) !in {parent, elm, child}
    requires m[elm].Long(s) && !m[elm].Long(s.Other()) && !m[parent].Long(s)
    ensures var m1, m' := Rotated(m, elm, child, s), GrownTwisted(m, parent, elm, child, s);
            && Only(m1, m', {parent, elm})
            && m'[parent] == m[parent].WithLong(s, m[child].Long(s.Other()))
            && m'[elm] == m1[elm].WithLong(s, false).WithLong(s.Other(), m[child].Long(s))
  {
  }

  lemma GrownTwistedLinked<K, V>(m: Mem<K, V>, parent: Elem<K, V>, elm: Elem<K, V>, child: Elem<K, V>, s: Side,
                              w: Tree<Elem<K, V>>, x: Tree<Elem<K, V>>, y: Tree<Elem<K, V>>)
    requires parent in m && elm in m && child in m && parent != elm && parent != child && elm != child && Separate(x)
    requires {parent, elm, child} !! Elems(w) && {parent, elm, child} !! Elems(x) && {parent, elm, child} !! Elems(y)
    requires Elems(w) !! Elems(x) && Elems(x) !! Elems(y)
    requires m[elm].Link(s) == Top(w) && m[elm].Long(s) && !m[elm].Long(s.Other()) && Linked(m, w, elm)
    requires m[child].Link(s) == Top(x) && Linked(m, x, child)
    requires m[child].Link(s.Other()) == Top(y) && Linked(m, y, child)
    requires !m[parent].Long(s)
    ensures m[child].Link(s) != null ==> m[child].Link(s) in m
    ensures var m' := GrownTwisted(m, parent, elm, child, s);
            && Only(m, m', {parent, elm, child} + Just(Top(x)))
            && m'[parent] == m[parent].WithLong(s, m[child].Long(s.Other()))
            && m'[child].Link(s) == elm && m'[child].Link(s.Other()) == Top(y)
            && Linked(m', y, child)
            && Linked(m', Branch(s, w, false, elm, m[child].Long(s), x), child)
  {
    var o := s.Other();
    RotatedLinked(m, elm, child, s, w, x);
    GrownTwistedAt(m, parent, elm, child, s);
    var m1 := Rotated(m, elm, child, s);
    var m' := GrownTwisted(m, parent, elm, child, s);
    LinkedFrame(m, m1, {elm, child} + Just(Top(x)), y, child);
    LinkedFrame(m1, m', {parent, elm}, y, child);
    LinkedFrame(m1, m', {parent, elm}, w, elm);
    LinkedFrame(m1, m', {parent, elm}, x, elm);
    assert m'[elm] == Sided(s, child, Top(w), false, m[child].Long(s), Top(x));
  }

  /** The links after the last rotation, up to the link from the grandparent. */
  function GrownRaised<K, V>(m: Mem<K, V>, parent: Elem<K, V>, child: Elem<K, V>, s: Side, gpar: Elem?<K, V>): Mem<K, V>
    requires parent in m && child in m && (m[child].Link(s.Other()) != null ==> m[child].Link(s.Other()) in m)
  {
    var m1 := Raised(m, parent, child, s.Other(), gpar);
    m1[child := m1[child].Short()]
  }

  lemma GrownRaisedLinked<K, V>(m: Mem<K, V>, parent: Elem<K, V>, child: Elem<K, V>, s: Side, gpar: Elem?<K, V>,
                             outer: Tree<Elem<K, V>>, y: Tree<Elem<K, V>>, far: Tree<Elem<K, V>>)
    requires parent in m && child in m && parent != child && Separate(y)
    requires {parent, child} !! Elems(outer) && {parent, child} !! Elems(y) && {parent, child} !! Elems(far)
    requires Elems(outer) !! Elems(y) && Elems(outer) !! Elems(far) && Elems(y) !! Elems(far)
    requires m[child].Link(s) == Top(outer) && Linked(m, outer, child)
    requires m[child].Link(s.Other()) == Top(y) && Linked(m, y, child)
    requires m[parent].Link(s.Other()) == Top(far) && Linked(m, far, parent)
    ensures m[child].Link(s.Other()) != null ==> m[child].Link(s.Other()) in m
    ensures var m' := GrownRaised(m, parent, child, s, gpar);
            && Only(m, m', {parent, child} + Just(Top(y)))
            && Linked(m', Branch(s, outer, false, child, false,
                                 Branch(s, y, m[parent].Long(s), parent, m[parent].Long(s.Other()), far)), gpar)
  {
    var o := s.Other();
    RaisedLinked(m, parent, child, o, gpar, far, y, outer);
    var m1 := Raised(m, parent, child, o, gpar);
    var m' := GrownRaised(m, parent, child, s, gpar);
    assert Only(m1, m', {child});
    var low := Branch(s, y, m[parent].Long(s), parent, m[parent].Long(o), far);
    LinkedFrame(m1, m', {child}, outer, child);
    LinkedFrame(m1, m', {child}, low, child);
    assert m'[child] == Sided(s, gpar, Top(outer), false, false, parent);
  }

  /** The heap around a grown subtree whose parent must be rotated down. */
  ghost predicate Rotating<K, V>(m: Mem<K, V>, p: Path<Elem<K, V>>, t: Tree<Elem<K, V>>) {
    && Placed(m, p, t)
    && p.Step? && !p.nearLong && p.farLong && t.Node? && (t.Long(p.side) ==> t.Child(p.side.Other()).Node?)
  }

  /** The parent's edge bits are cleared before either kind of rotation. */
  lemma ParentShort<K, V>(m: Mem<K, V>, p: Path<Elem<K, V>>, t: Tree<Elem<K, V>>, s: Side)
    requires Placed(m, p, t) && p.Step? && t.Node?
    ensures p.elem in m && p.elem !in Elems(t) && p.elem !in Elems(p.far)
    ensures var m1 := m[p.elem := m[p.elem].Short()];
            && Only(m, m1, {p.elem}) && Linked(m1, p.far, p.elem) && t.elem in m1
            && m1[t.elem] == m[t.elem] && m1[p.elem] == m[p.elem].Short()
            && Linked(m1, t.Child(s), t.elem) && Linked(m1, t.Child(s.Other()), t.elem)
  {
    var m1 := m[p.elem := m[p.elem].Short()];
    LinkedFrame(m, m1, {p.elem}, p.far, p.elem);
    LinkedFrame(m, m1, {p.elem}, t, p.elem);
  }

  /** One rotation suffices when the long edge of the grown subtree is the inner one. */
  lemma SingleRotation<K, V>(m: Mem<K, V>, p: Path<Elem<K, V>>, t: Tree<Elem<K, V>>)
    requires Rotating(m, p, t) && !t.Long(p.side)
    ensures p.elem != t.elem && t.elem in m && p.elem in m
    ensures var m1 := m[p.elem := m[p.elem].Short()];
            && (m1[t.elem].Link(p.side.Other()) != null ==> m1[t.elem].Link(p.side.Other()) in m1)
            && var m2 := GrownRaised(m1, p.elem, t.elem, p.side, Parent(p.up));
            && m2.Keys == m.Keys
            && Linked(m2, Insertion.Rotated(p.side, t, p.elem, p.far), Parent(p.up))
            && PathLinked(m2, p.up, p.elem)
  {
    var s, o, parent := p.side, p.side.Other(), p.elem;
    var x, y := t.Child(s), t.Child(o);
    var m1 := m[parent := m[parent].Short()];
    ParentShort(m, p, t, s);
    GrownRaisedLinked(m1, parent, t.elem, s, Parent(p.up), x, y, p.far);
    var m2 := GrownRaised(m1, parent, t.elem, s, Parent(p.up));
    PathDisjoint(p.up, Elems(t) + {parent} + Elems(p.far));
    assert Only(m, m2, {parent, t.elem} + Just(Top(y)));
    PathFrame(m, m2, {parent, t.elem} + Just(Top(y)), p.up, parent);
  }

  lemma InnerParts<T>(t: Tree<T>, s: Side)
    requires Separate(t) && t.Node? && t.Child(s.Other()).Node?
    ensures var c, w := t.Child(s.Other()), t.Child(s);
            var x, y := c.Child(s), c.Child(s.Other());
            && Elems(c) == Elems(x) + {c.elem} + Elems(y) && Elems(t) == Elems(w) + {t.elem} + Elems(c)
            && Separate(x) && Separate(y) && Separate(w) && t.elem != c.elem
            && {t.elem, c.elem} !! Elems(w) && {t.elem, c.elem} !! Elems(x) && {t.elem, c.elem} !! Elems(y)
            && Elems(w) !! Elems(x) && Elems(w) !! Elems(y) && Elems(x) !! Elems(y)
  {
  }

  /** The links between the two rotations. */
  ghost predicate Twisted<K, V>(m: Mem<K, V>, p: Path<Elem<K, V>>, t: Tree<Elem<K, V>>)
    requires p.Step? && t.Node? && t.Child(p.side.Other()).Node?
  {
    var s, o, c := p.side, p.side.Other(), t.Child(p.side.Other());
    && p.elem in m && c.elem in m
    && m[c.elem].Link(s) == t.elem && m[c.elem].Link(o) == Top(c.Child(o))
    && m[p.elem].Link(o) == Top(p.far) && m[p.elem].Long(s) == c.Long(o) && !m[p.elem].Long(o)
    && Linked(m, Branch(s, t.Child(s), false, t.elem, c.Long(s), c.Child(s)), c.elem)
    && Linked(m, c.Child(o), c.elem)
    && Linked(m, p.far, p.elem)
  }

  /** The first of two rotations. */
  lemma DoubleTwist<K, V>(m: Mem<K, V>, p: Path<Elem<K, V>>, t: Tree<Elem<K, V>>)
    requires Rotating(m, p, t) && t.Long(p.side) && !t.Long(p.side.Other())
    ensures var s, c, m1 := p.side, t.Child(p.side.Other()), m[p.elem := m[p.elem].Short()];
            && c.elem in m1 && t.elem in m1
            && (m1[c.elem].Link(s) != null ==> m1[c.elem].Link(s) in m1)
            && var m2 := GrownTwisted(m1, p.elem, t.elem, c.elem, s);
            && Only(m, m2, {p.elem} + Elems(t)) && Twisted(m2, p, t)
  {
    var s, o, parent, elm := p.side, p.side.Other(), p.elem, t.elem;
    var c := t.Child(o);
    var w, x, y := t.Child(s), c.Child(s), c.Child(o);
    var m1 := m[parent := m[parent].Short()];
    ParentShort(m, p, t, s);
    InnerParts(t, s);
    GrownTwistedLinked(m1, parent, elm, c.elem, s, w, x, y);
    var m2 := GrownTwisted(m1, parent, elm, c.elem, s);
    LinkedFrame(m1, m2, {parent, elm, c.elem} + Just(Top(x)), p.far, parent);
  }

  /** Two rotations are needed when it is the outer one. */
  lemma DoubleRotation<K, V>(m: Mem<K, V>, m2: Mem<K, V>, p: Path<Elem<K, V>>, t: Tree<Elem<K, V>>)
    requires Rotating(m, p, t) && t.Long(p.side) && !t.Long(p.side.Other())
    requires Only(m, m2, {p.elem} + Elems(t)) && Twisted(m2, p, t)
    ensures var c := t.Child(p.side.Other()).elem;
            && (m2[c].Link(p.side.Other()) != null ==> m2[c].Link(p.side.Other()) in m2)
            && var m3 := GrownRaised(m2, p.elem, c, p.side, Parent(p.up));
            && m3.Keys == m.Keys
            && Linked(m3, Insertion.Rotated(p.side, t, p.elem, p.far), Parent(p.up))
            && PathLinked(m3, p.up, p.elem)
  {
    var s, o, parent := p.side, p.side.Other(), p.elem;
    var c := t.Child(o);
    InnerParts(t, s);
    var inner := Branch(s, t.Child(s), false, t.elem, c.Long(s), c.Child(s));
    assert Elems(inner) == Elems(t.Child(s)) + {t.elem} + Elems(c.Child(s));
    GrownRaisedLinked(m2, parent, c.elem, s, Parent(p.up), inner, c.Child(o), p.far);
    AboveKept(m, m2, GrownRaised(m2, parent, c.elem, s, Parent(p.up)), p, {parent, c.elem} + Just(Top(c.Child(o))),
        {parent} + Elems(t), Elems(t));
  }

  lemma RotatedElems<T>(s: Side, t: Tree<T>, e: T, far: Tree<T>)
    requires t.Node? && (t.Long(s) ==> t.Child(s.Other()).Node?)
    ensures Elems(Insertion.Rotated(s, t, e, far)) == Elems(t) + {e} + Elems(far)
  {
    var o := s.Other();
    if t.Long(s) {
      var c := t.Child(o);
      assert Elems(c) == Elems(c.Child(s)) + {c.elem} + Elems(c.Child(o));
      assert Elems(Branch(s, c.Child(o), c.Long(o), e, false, far)) == Elems(c.Child(o)) + {e} + Elems(far);
    }
  }
}
