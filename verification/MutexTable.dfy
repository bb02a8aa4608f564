/**
 The namespace of lib/infra/named_mutex.c over the linked tree, changed in place: what the
 three critical sections do to the reference counters, keyed by name.
 */
module MutexTable {
  import opened RankTree
  import opened TreeLinks
  import opened LinkedTree
  import opened TreeMap
  import opened KeyOrder
  import Names
  import NM = NamedMutex

  /** One more user of a name. */
  function Up<K(==)>(counts: map<K, int>, name: K): map<K, int> {
    counts[name := if name in counts then counts[name] + 1 else 1]
  }

  /** One user less; a name without users is forgotten. */
  function Down<K(==)>(counts: map<K, int>, name: K): map<K, int>
    requires name in counts
  {
    if counts[name] == 1 then counts - {name} else counts[name := counts[name] - 1]
  }

  class Namespace<K(!new,==)> {
    const tree: Head<K, int>
    ghost var view: View<K, int>

    /** The counter of each name that is in use. */
    ghost function Counts(): map<K, int> reads this`view { view.items }

    ghost predicate Valid()
      reads this, tree, tree.mem.Keys`entry, tree.mem.Keys`data
    {
      Stores(tree, view)
    }

    /** named_mutex_create_namespace. */
    constructor (cmp: (K, K) -> int)
      requires TotalOrder(cmp)
      ensures Valid() && Counts() == map[] && fresh(tree) && tree.mem == map[]
    {
      tree := new Head(cmp);
      view := View(Nil, map[], map[]);
    }

    /** The critical section of named_mutex_lock: the mutex of the name, new or old, with one more reference. */
    method Enter(name: K) returns (nmtx: Elem<K, int>)
      requires Valid()
      modifies this`view, tree, tree.mem.Keys
      ensures Valid() && nmtx in tree.mem && nmtx.key == name
      ensures Counts() == Up(old(Counts()), name)
      ensures fresh(tree.mem.Keys - old(tree.mem.Keys))
    {
      nmtx, view := CountUp(tree, name, view);
    }

    /** The first critical section of named_mutex_unlock: null is ENOENT. */
    method Find(name: K) returns (nmtx: Elem?<K, int>)
      requires Valid()
      ensures nmtx == null <==> name !in Counts()
      ensures nmtx != null ==> nmtx in tree.mem && nmtx.key == name
    {
      nmtx := FindEntry(tree, name, view);
    }

    /** The second one: one reference less, and the last one removes the mutex. */
    method Leave(nmtx: Elem<K, int>)
      requires Valid() && nmtx in tree.mem
      modifies this`view, tree, tree.mem.Keys
      ensures Valid() && nmtx.key in old(Counts())
      ensures Counts() == Down(old(Counts()), nmtx.key)
      ensures tree.mem.Keys <= old(tree.mem.Keys)
    {
      view := CountDown(tree, nmtx, view);
    }
  }

  /** RB_INSERT of a new mutex without references, or the one that is there. */
  method Obtain<K(!new)>(head: Head<K, int>, name: K, ghost v: View<K, int>)
    returns (nmtx: Elem<K, int>, ghost w: View<K, int>)
    requires Stores(head, v)
    modifies head, head.mem.Keys`entry
    ensures Stores(head, w) && nmtx in head.mem && nmtx.key == name
    ensures w.items == From(v.items, name)
    ensures fresh(head.mem.Keys - old(head.mem.Keys))
  {
    nmtx := new Elem(name, 0);
    var there;
    ghost var steps;
    there, w, steps := InsertEntry(head, nmtx, v);
    if there != null {
      nmtx := there;
    }
  }

  method CountUp<K(!new)>(head: Head<K, int>, name: K, ghost v: View<K, int>)
    returns (nmtx: Elem<K, int>, ghost w: View<K, int>)
    requires Stores(head, v)
    modifies head, head.mem.Keys
    ensures Stores(head, w) && nmtx in head.mem && nmtx.key == name
    ensures w.items == Up(v.items, name)
    ensures fresh(head.mem.Keys - old(head.mem.Keys))
  {
    nmtx, w := Obtain(head, name, v);
    UpFrom(v.items, name);
    w := Count(head, nmtx, 1, w);
  }

  /** The count that a name starts from. */
  function From<K(==)>(counts: map<K, int>, name: K): map<K, int> {
    counts[name := if name in counts then counts[name] else 0]
  }

  lemma UpFrom<K>(counts: map<K, int>, name: K)
    ensures From(counts, name)[name := From(counts, name)[name] + 1] == Up(counts, name)
  {
  }

  /** nref++ or --nref. */
  method Count<K(!new)>(head: Head<K, int>, nmtx: Elem<K, int>, more: int, ghost v: View<K, int>)
    returns (ghost w: View<K, int>)
    requires Stores(head, v) && nmtx in head.mem
    modifies nmtx`data
    ensures Stores(head, w) && nmtx.key in v.items && nmtx.data == w.items[nmtx.key]
    ensures w == v.(items := v.items[nmtx.key := v.items[nmtx.key] + more])
  {
    w := v.(items := v.items[nmtx.key := nmtx.data + more]);
    UpdateEntry(head, nmtx, nmtx.data + more, v);
  }

  method CountDown<K(!new)>(head: Head<K, int>, nmtx: Elem<K, int>, ghost v: View<K, int>)
    returns (ghost w: View<K, int>)
    requires Stores(head, v) && nmtx in head.mem
    modifies head, head.mem.Keys
    ensures Stores(head, w) && nmtx.key in v.items
    ensures w.items == Down(v.items, nmtx.key)
    ensures head.mem.Keys <= old(head.mem.Keys)
  {
    w := Count(head, nmtx, -1, v);
    if nmtx.data == 0 {
      DownGone(v.items, nmtx.key);
      ghost var a: seq<Elem<K, int>>, b: seq<Elem<K, int>> := Split(w.shape, nmtx);
      ghost var steps;
      w, steps := RemoveEntry(head, nmtx, w, a, b);
    }
  }

  lemma DownGone<K>(counts: map<K, int>, name: K)
    requires name in counts && counts[name] == 1
    ensures counts[name := 0] - {name} == Down(counts, name)
  {
  }

  /** The counters of the protocol, keyed by name. */
  function CountsOf(s: NM.State): map<Names.Key, int> {
    map n | n in s.tree && s.tree[n] in s.objects :: s.objects[s.tree[n]].nref
  }

  /** What a step of the protocol does to them. */
  function CountsAfter(s: NM.State, step: NM.Step): map<Names.Key, int>
    requires NM.Enabled(s, step)
  {
    if step.Leave? && s.pcs[step.t].Inserting? then Up(CountsOf(s), s.pcs[step.t].name)
    else if step.Leave? && s.pcs[step.t].Dropping? && s.pcs[step.t].name in CountsOf(s) then
      Down(CountsOf(s), s.pcs[step.t].name)
    else CountsOf(s)
  }

  /** The protocol counts as the table does: its critical sections are `Enter` and `Leave`, and nothing else counts. */
  lemma ProtocolCounts(s: NM.State, step: NM.Step)
    requires NM.Inv(s) && NM.Enabled(s, step)
    ensures CountsOf(NM.Next(s, step)) == CountsAfter(s, step)
    ensures step.Leave? && s.pcs[step.t].Dropping? ==> s.pcs[step.t].name in CountsOf(s)
    ensures step.Leave? && s.pcs[step.t].Finding? ==> s.pcs[step.t].name in CountsOf(s)
  {
    if step.t in s.pcs { NM.ThreadOkOf(s, step.t); }
    var after, expected := CountsOf(NM.Next(s, step)), CountsAfter(s, step);
    forall n ensures (n in after <==> n in expected) && (n in after ==> after[n] == expected[n]) {
      assert n in s.tree ==> NM.ObjectOk(s, n);
      assert step.t in s.pcs && s.pcs[step.t].name in s.tree ==> NM.ObjectOk(s, s.pcs[step.t].name);
      CountAt(s, step, n);
    }
    assert after == expected;
  }

  lemma CountAt(s: NM.State, step: NM.Step, n: Names.Key)
    requires NM.Enabled(s, step) && (n in s.tree ==> NM.ObjectOk(s, n))
    requires step.t in s.pcs ==>
               NM.ThreadOk(s, step.t) && (s.pcs[step.t].name in s.tree ==> NM.ObjectOk(s, s.pcs[step.t].name))
    ensures var after, expected := CountsOf(NM.Next(s, step)), CountsAfter(s, step);
            (n in after <==> n in expected) && (n in after ==> after[n] == expected[n])
  {
  }
}
