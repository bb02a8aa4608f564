/**
 The cache over the linked tree, changed in place (lib/cache.c).
 */
module Cache {
  import opened RankTree
  import opened TreeLinks
  import opened LinkedTree
  import opened KeyOrder
  import opened TreeMap
  import opened CacheEntries
  import CM = CacheModel

  class Cache<K(!new,==), V> {
    const cfg: CM.Config
    const tree: Head<K, CM.Item<V>>
    var notices: nat                                     // posts of the clean_notice semaphore
    ghost var view: View<K, CM.Item<V>>

    /** The contents as a map. */
    ghost function Items(): CM.Items<K, V> reads this`view { view.items }

    ghost predicate Valid()
      reads this, tree, tree.mem.Keys`entry, tree.mem.Keys`data
    {
      Stores(tree, view)
    }

    /** cache_create. */
    constructor (cfg: CM.Config, cmp: (K, K) -> int)
      requires TotalOrder(cmp)
      ensures Valid() && this.cfg == cfg && Items() == map[] && notices == 0 && fresh(tree) && tree.mem == map[]
    {
      this.cfg := cfg;
      tree := new Head(cmp);
      notices := 0;
      view := View(Nil, map[], map[]);
    }

    /** RB_FIND as the cache uses it. */
    method Lookup(key: K) returns (e: Elem?<K, CM.Item<V>>)
      requires Valid()
      ensures e == null <==> key !in Items()
      ensures e != null ==> e in tree.mem && e.key == key
    {
      e := FindEntry(tree, key, view);
    }

    /** cache_get. */
    method Get(key: K, now: int) returns (r: CM.Answer<V>)
      requires Valid()
      modifies this`notices
      ensures Valid() && r == CM.Get(cfg, Items(), key, now)
      ensures notices == old(notices) + if key in Items() && r.Miss? then 1 else 0
    {
      var item := Lookup(key);
      if item == null {
        return CM.Miss;
      }
      if CM.Outdated(item.data, now) {
        notices := notices + 1;
        return CM.Miss;
      }
      r := CM.Hit(item.data.value, CM.Remaining(cfg, item.data, now));
    }

    /** cache_set; `created` is read before the lock is taken, `now` under it. */
    method Set(key: K, value: V, duration: int, created: int, now: int)
      requires Valid()
      modifies this`view, tree, tree.mem.Keys
      ensures Valid() && Items() == CM.Set(cfg, old(Items()), key, value, duration, created, now)
      ensures fresh(tree.mem.Keys - old(tree.mem.Keys))
    {
      view := SetEntry(tree, key, value, CM.Stored(cfg, duration), created, now, view);
    }

    /** cache_del; false when there is no such key. */
    method Del(key: K) returns (found: bool)
      requires Valid()
      modifies this`view, tree, tree.mem.Keys`entry
      ensures Valid() && Items() == CM.Del(old(Items()), key) && found == (key in old(Items()))
      ensures tree.mem.Keys <= old(tree.mem.Keys)
    {
      ghost var steps;
      found, view, steps := DelEntry(tree, key, view);
    }

    /** One pass of the cleaner at time `now`: every node is visited once, in key order, and the live ones stay. */
    method Clean(now: int) returns (ghost visited: seq<Node<K, V>>)
      requires Valid()
      modifies this`view, tree, tree.mem.Keys`entry
      ensures Valid() && Items() == CM.Sweep(old(Items()), now)
      ensures visited == old(view.shape.Inorder())
      ensures tree.mem.Keys <= old(tree.mem.Keys)
    {
      visited, view := SweepTree(tree, now, view);
    }
  }
}
