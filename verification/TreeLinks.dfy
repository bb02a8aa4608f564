/**
 The link fields of tree nodes, and what it means for them to form a given tree.

 The shape of a linked tree is a `Tree` (or a `Path`) whose elements are the node
 objects themselves.  `Mem` is the content of the link fields of a set of nodes.
 */
module TreeLinks {
  import opened RankTree

  /** A node: its key, its own data, and the embedded links. */
  class Elem<K, V> {
    const key: K
    var data: V
    var entry: Links<K, V>

    constructor (key: K, data: V)
      ensures this.key == key && this.data == data
    {
      this.key := key;
      this.data := data;
      entry := Links(null, null, null, false, false);
    }
  }

  /** The link fields of one node. */
  datatype Links<K, V> = Links(up: Elem?<K, V>, left: Elem?<K, V>, right: Elem?<K, V>, leftLong: bool, rightLong: bool)
  {
    function Link(s: Side): Elem?<K, V> { if s.L? then left else right }

    predicate Long(s: Side) { if s.L? then leftLong else rightLong }

    function WithLink(s: Side, e: Elem?<K, V>): Links<K, V> {
      if s.L? then this.(left := e) else this.(right := e)
    }

    function WithLong(s: Side, b: bool): Links<K, V> {
      if s.L? then this.(leftLong := b) else this.(rightLong := b)
    }

    /** _RB_MOD_XOR with one direction bit. */
    function Flip(s: Side): Links<K, V> { WithLong(s, !Long(s)) }

    function Short(): Links<K, V> { this.(leftLong := false, rightLong := false) }
  }

  type Mem<K, V> = map<Elem<K, V>, Links<K, V>>

  function Sided<K, V>(s: Side, up: Elem?<K, V>, near: Elem?<K, V>, nearLong: bool, farLong: bool,
                       far: Elem?<K, V>): Links<K, V> {
    if s.L? then Links(up, near, far, nearLong, farLong) else Links(up, far, near, farLong, nearLong)
  }

  ghost function Just<K, V>(e: Elem?<K, V>): set<Elem<K, V>> { if e == null then {} else {e} }

  function WithUp<K, V>(m: Mem<K, V>, e: Elem?<K, V>, u: Elem?<K, V>): Mem<K, V>
    requires e != null ==> e in m
  {
    if e == null then m else m[e := m[e].(up := u)]
  }

  /** The effect of RB_ROTATE on the links. */
  function Rotated<K, V>(m: Mem<K, V>, elm: Elem<K, V>, tmp: Elem<K, V>, dir: Side): Mem<K, V>
    requires elm in m && tmp in m && (m[tmp].Link(dir) != null ==> m[tmp].Link(dir) in m)
  {
    var c := m[tmp].Link(dir);
    var m1 := m[elm := m[elm].WithLink(dir.Other(), c)];
    var m2 := WithUp(m1, c, elm);
    var m3 := m2[tmp := m2[tmp].WithLink(dir, elm)];
    WithUp(m3, elm, tmp)
  }

  /** RB_ROTATE, then the new parent link of the node that rose. */
  function Raised<K, V>(m: Mem<K, V>, parent: Elem<K, V>, child: Elem<K, V>, dir: Side, gpar: Elem?<K, V>): Mem<K, V>
    requires parent in m && child in m && (m[child].Link(dir) != null ==> m[child].Link(dir) in m)
  {
    WithUp(Rotated(m, parent, child, dir), child, gpar)
  }

  function Top<K, V>(t: Tree<Elem<K, V>>): Elem?<K, V> { if t.Nil? then null else t.elem }

  function Parent<K, V>(p: Path<Elem<K, V>>): Elem?<K, V> { if p.Root? then null else p.elem }

  ghost function Elems<T>(t: Tree<T>): set<T> {
    if t.Nil? then {} else Elems(t.left) + {t.elem} + Elems(t.right)
  }

  ghost function PathElems<T>(p: Path<T>): set<T> {
    if p.Root? then {} else PathElems(p.up) + {p.elem} + Elems(p.far)
  }

  /** No element occurs twice. */
  ghost predicate Separate<T>(t: Tree<T>) {
    t.Node? ==>
      && Separate(t.left) && Separate(t.right)
      && t.elem !in Elems(t.left) && t.elem !in Elems(t.right) && Elems(t.left) !! Elems(t.right)
  }

  ghost predicate PathSeparate<T>(p: Path<T>, hole: set<T>)
    decreases p
  {
    p.Step? ==>
      && Separate(p.far)
      && p.elem !in hole && p.elem !in Elems(p.far) && Elems(p.far) !! hole
      && PathSeparate(p.up, hole + {p.elem} + Elems(p.far))
  }

  lemma {:induction false} PathDisjoint<T>(p: Path<T>, hole: set<T>)
    requires PathSeparate(p, hole)
    ensures PathElems(p) !! hole
    decreases p
  {
    if p.Step? { PathDisjoint(p.up, hole + {p.elem} + Elems(p.far)); }
  }

  /** The nodes of `t` are linked as `t` says, below the node `up`. */
  ghost predicate Linked<K, V>(m: Mem<K, V>, t: Tree<Elem<K, V>>, up: Elem?<K, V>) {
    t.Node? ==>
      && t.elem in m
      && m[t.elem] == Links(up, Top(t.left), Top(t.right), t.leftLong, t.rightLong)
      && Linked(m, t.left, t.elem) && Linked(m, t.right, t.elem)
  }

  /** The nodes of `p` are linked as `p` says, around a hole that holds `hole`. */
  ghost predicate PathLinked<K, V>(m: Mem<K, V>, p: Path<Elem<K, V>>, hole: Elem?<K, V>)
    decreases p
  {
    p.Step? ==>
      && p.elem in m
      && m[p.elem] == Sided(p.side, Parent(p.up), hole, p.nearLong, p.farLong, Top(p.far))
      && Linked(m, p.far, p.elem)
      && PathLinked(m, p.up, p.elem)
  }

  /** What the root pointer holds when `hole` is at the end of `p`. */
  ghost function RootOf<K, V>(p: Path<Elem<K, V>>, hole: Elem?<K, V>): Elem?<K, V>
    decreases p
  {
    if p.Root? then hole else RootOf(p.up, p.elem)
  }

  lemma {:induction false} PlugLinked<K, V>(m: Mem<K, V>, p: Path<Elem<K, V>>, t: Tree<Elem<K, V>>)
    requires PathLinked(m, p, Top(t)) && Linked(m, t, Parent(p))
    ensures Linked(m, Plug(p, t), null)
    ensures Top(Plug(p, t)) == RootOf(p, Top(t))
    decreases p
  {
    if p.Step? {
      PlugLinked(m, p.up, Branch(p.side, t, p.nearLong, p.elem, p.farLong, p.far));
    }
  }

  /** All nodes of `m` outside `s` are still there with the same links. */
  ghost predicate Agree<K, V>(m: Mem<K, V>, m': Mem<K, V>, s: set<Elem<K, V>>) {
    forall e :: e in m && e !in s ==> e in m' && m'[e] == m[e]
  }

  /** Nothing changed but the links of the nodes in `s`. */
  ghost predicate Only<K, V>(m: Mem<K, V>, m': Mem<K, V>, s: set<Elem<K, V>>) {
    m.Keys == m'.Keys && Agree(m, m', s)
  }

  lemma {:induction false} LinkedFrame<K, V>(m: Mem<K, V>, m': Mem<K, V>, s: set<Elem<K, V>>, t: Tree<Elem<K, V>>,
                                             up: Elem?<K, V>)
    requires Linked(m, t, up) && Agree(m, m', s) && s !! Elems(t)
    ensures Linked(m', t, up)
    decreases t
  {
    if t.Node? {
      LinkedFrame(m, m', s, t.left, t.elem);
      LinkedFrame(m, m', s, t.right, t.elem);
    }
  }

  lemma {:induction false} PathFrame<K, V>(m: Mem<K, V>, m': Mem<K, V>, s: set<Elem<K, V>>, p: Path<Elem<K, V>>,
                                           hole: Elem?<K, V>)
    requires PathLinked(m, p, hole) && Agree(m, m', s) && s !! PathElems(p)
    ensures PathLinked(m', p, hole)
    decreases p
  {
    if p.Step? {
      LinkedFrame(m, m', s, p.far, p.elem);
      PathFrame(m, m', s, p.up, p.elem);
    }
  }

  /** A subtree given a new parent. */
  lemma Adopted<K, V>(m: Mem<K, V>, t: Tree<Elem<K, V>>, before: Elem?<K, V>, up: Elem?<K, V>)
    requires Linked(m, t, before) && Separate(t)
    ensures Linked(WithUp(m, Top(t), up), t, up)
    ensures Only(m, WithUp(m, Top(t), up), Just(Top(t)))
  {
    if t.Node? {
      var m' := WithUp(m, Top(t), up);
      LinkedFrame(m, m', {t.elem}, t.left, t.elem);
      LinkedFrame(m, m', {t.elem}, t.right, t.elem);
    }
  }

  /** Another node put into the hole of a path. */
  lemma Swapped<K, V>(m: Mem<K, V>, p: Path<Elem<K, V>>, out: Elem?<K, V>, into: Elem?<K, V>, hole: set<Elem<K, V>>)
    requires p.Step? && PathLinked(m, p, out) && PathSeparate(p, hole)
    ensures PathLinked(m[p.elem := m[p.elem].WithLink(p.side, into)], p, into)
  {
    var m' := m[p.elem := m[p.elem].WithLink(p.side, into)];
    PathDisjoint(p.up, hole + {p.elem} + Elems(p.far));
    LinkedFrame(m, m', {p.elem}, p.far, p.elem);
    PathFrame(m, m', {p.elem}, p.up, p.elem);
  }

  /** The node rotated down is linked below `tmp`, with `moved` handed over to it. */
  lemma RotatedLinked<K, V>(m: Mem<K, V>, elm: Elem<K, V>, tmp: Elem<K, V>, dir: Side, rest: Tree<Elem<K, V>>,
                            moved: Tree<Elem<K, V>>)
    requires elm in m && tmp in m && elm != tmp && Separate(moved)
    requires {elm, tmp} !! Elems(rest) && {elm, tmp} !! Elems(moved) && Elems(rest) !! Elems(moved)
    requires m[elm].Link(dir) == Top(rest) && Linked(m, rest, elm)
    requires m[tmp].Link(dir) == Top(moved) && Linked(m, moved, tmp)
    ensures m[tmp].Link(dir) != null ==> m[tmp].Link(dir) in m
    ensures var m' := Rotated(m, elm, tmp, dir);
            && Only(m, m', {elm, tmp} + Just(Top(moved)))
            && m'[tmp] == m[tmp].WithLink(dir, elm)
            && Linked(m', Branch(dir, rest, m[elm].Long(dir), elm, m[elm].Long(dir.Other()), moved), tmp)
  {
    var m' := Rotated(m, elm, tmp, dir);
    var m1 := WithUp(m, Top(moved), elm);
    Adopted(m, moved, tmp, elm);
    LinkedFrame(m, m1, Just(Top(moved)), rest, elm);
    assert Only(m1, m', {elm, tmp});
    LinkedFrame(m1, m', {elm, tmp}, rest, elm);
    LinkedFrame(m1, m', {elm, tmp}, moved, elm);
    assert m'[elm] == Sided(dir, tmp, Top(rest), m[elm].Long(dir), m[elm].Long(dir.Other()), Top(moved));
  }

  /** The raised node is linked with `outer` and the old parent below it. */
  lemma RaisedLinked<K, V>(m: Mem<K, V>, parent: Elem<K, V>, child: Elem<K, V>, dir: Side, gpar: Elem?<K, V>,
                        rest: Tree<Elem<K, V>>, moved: Tree<Elem<K, V>>, outer: Tree<Elem<K, V>>)
    requires parent in m && child in m && parent != child && Separate(moved)
    requires {parent, child} !! Elems(outer) && {parent, child} !! Elems(moved) && {parent, child} !! Elems(rest)
    requires Elems(outer) !! Elems(moved) && Elems(outer) !! Elems(rest) && Elems(moved) !! Elems(rest)
    requires m[parent].Link(dir) == Top(rest) && Linked(m, rest, parent)
    requires m[child].Link(dir) == Top(moved) && Linked(m, moved, child)
    requires m[child].Link(dir.Other()) == Top(outer) && Linked(m, outer, child)
    ensures m[child].Link(dir) != null ==> m[child].Link(dir) in m
    ensures var m' := Raised(m, parent, child, dir, gpar);
            && Only(m, m', {parent, child} + Just(Top(moved)))
            && Linked(m', Branch(dir,
                                 Branch(dir, rest, m[parent].Long(dir), parent, m[parent].Long(dir.Other()), moved),
                                 m[child].Long(dir), child, m[child].Long(dir.Other()), outer), gpar)
  {
    RotatedLinked(m, parent, child, dir, rest, moved);
    var m1 := Rotated(m, parent, child, dir);
    var m' := Raised(m, parent, child, dir, gpar);
    var low := Branch(dir, rest, m[parent].Long(dir), parent, m[parent].Long(dir.Other()), moved);
    assert Only(m1, m', {child});
    LinkedFrame(m, m1, {parent, child} + Just(Top(moved)), outer, child);
    LinkedFrame(m1, m', {child}, outer, child);
    LinkedFrame(m1, m', {child}, low, child);
    assert m'[child] == Sided(dir, gpar, parent, m[child].Long(dir), m[child].Long(dir.Other()), Top(outer));
  }

  /** The subtree `t` hangs at the end of `p`, with no node occurring twice. */
  ghost predicate Placed<K, V>(m: Mem<K, V>, p: Path<Elem<K, V>>, t: Tree<Elem<K, V>>) {
    && Linked(m, t, Parent(p)) && PathLinked(m, p, Top(t))
    && Separate(t) && PathSeparate(p, Elems(t))
  }

  /** New edge bits in the parent: the subtree of the parent is placed one step further up. */
  lemma SteppedUp<K, V>(m: Mem<K, V>, m': Mem<K, V>, p: Path<Elem<K, V>>, t: Tree<Elem<K, V>>, nearLong: bool,
                        farLong: bool)
    requires p.Step? && Placed(m, p, t)
    requires m' == m[p.elem := m[p.elem].WithLong(p.side, nearLong).WithLong(p.side.Other(), farLong)]
    ensures Placed(m', p.up, Branch(p.side, t, nearLong, p.elem, farLong, p.far))
  {
    var b := Branch(p.side, t, nearLong, p.elem, farLong, p.far);
    assert Elems(b) == Elems(t) + {p.elem} + Elems(p.far);
    PathDisjoint(p.up, Elems(b));
    LinkedFrame(m, m', {p.elem}, t, p.elem);
    LinkedFrame(m, m', {p.elem}, p.far, p.elem);
    PathFrame(m, m', {p.elem}, p.up, p.elem);
  }

  /** Changes below the end of a path leave the path above it linked. */
  lemma AboveKept<K, V>(m: Mem<K, V>, m1: Mem<K, V>, m2: Mem<K, V>, p: Path<Elem<K, V>>, few: set<Elem<K, V>>,
                        some: set<Elem<K, V>>, hole: set<Elem<K, V>>)
    requires p.Step? && PathLinked(m, p.up, p.elem) && PathSeparate(p.up, hole + {p.elem} + Elems(p.far))
    requires Only(m, m1, some) && Only(m1, m2, few) && few <= some <= hole + {p.elem} + Elems(p.far)
    ensures m2.Keys == m.Keys && PathLinked(m2, p.up, p.elem)
  {
    PathDisjoint(p.up, hole + {p.elem} + Elems(p.far));
    PathFrame(m, m2, some, p.up, p.elem);
  }

  /** The parent is found by comparing its right link, as the loops do. */
  lemma SideFound<K, V>(m: Mem<K, V>, p: Path<Elem<K, V>>, t: Tree<Elem<K, V>>)
    requires p.Step? && Placed(m, p, t) && (t.Node? || p.far.Node?)
    ensures p.side == if m[p.elem].right == Top(t) then R else L
  {
  }

  /** Only a parent without children has equal links. */
  lemma EqualLinks<K, V>(m: Mem<K, V>, p: Path<Elem<K, V>>, t: Tree<Elem<K, V>>)
    requires p.Step? && Placed(m, p, t)
    ensures m[p.elem].left == Top(t) && m[p.elem].right == Top(t) <==> t.Nil? && p.far.Nil?
  {
  }
}
