/**
 Nodes that cache from each other: node 0 owns the storage, node i + 1 uses node i
 as its storage (lib/builtin/unix.c, lib/io_server.c).  How old can a value be that
 such a chain returns?  Hops take no time; the storage may change by itself.
 */
module Chain {
  import opened Options
  import CM = CacheModel

  /** What the storage held from `time` on, until the next snapshot. */
  datatype Snapshot<!K, V> = Snapshot(time: int, store: map<K, V>)

  datatype Chain<!K, V> = Chain(caches: seq<CM.Items<K, V>>, log: seq<Snapshot<K, V>>)

  datatype Reply<V> = Found(value: V, duration: int) | Missing

  /** io_get at node `i`: answer from the cache, or ask the storage below and cache its answer. */
  function Fetch<K(==), V>(cfg: CM.Config, caches: seq<CM.Items<K, V>>, store: map<K, V>, i: nat, key: K, now: int)
    : (r: (seq<CM.Items<K, V>>, Reply<V>))
    requires i < |caches|
    ensures |r.0| == |caches|
  {
    match CM.Get(cfg, caches[i], key, now)
    case Hit(v, d) => (caches, Found(v, d))
    case Miss =>
      var (below, reply) :=
        if i > 0 then Fetch(cfg, caches, store, i - 1, key, now)
        else (caches, if key in store then Found(store[key], 0) else Missing);
      if reply.Missing? then (below, reply)
      else (below[i := CM.Set(cfg, below[i], key, reply.value, reply.duration, now, now)], reply)
  }

  datatype Action<K, V> =
    | Get(node: nat, key: K)
    | Set(top: nat, key: K, value: V)    // reaches the storage, and its success the nodes below `top`
    | Del(top: nat, key: K)              // the same
    | Change(store: map<K, V>)           // the storage changes by itself
    | Sweep(node: nat)

  datatype Event<K, V> = At(time: int, action: Action<K, V>)

  function Store<K, V>(c: Chain<K, V>): map<K, V>
    requires c.log != []
  {
    c.log[|c.log| - 1].store
  }

  function SetBelow<K(==), V>(cfg: CM.Config, caches: seq<CM.Items<K, V>>, top: nat, key: K, value: V,
                              now: int): seq<CM.Items<K, V>> {
    seq(|caches|, i requires 0 <= i < |caches| =>
          if i < top then CM.Set(cfg, caches[i], key, value, 0, now, now) else caches[i])
  }

  function DelBelow<K(==), V>(caches: seq<CM.Items<K, V>>, top: nat, key: K): seq<CM.Items<K, V>> {
    seq(|caches|, i requires 0 <= i < |caches| => if i < top then CM.Del(caches[i], key) else caches[i])
  }

  function Next<K(==), V>(cfg: CM.Config, c: Chain<K, V>, e: Event<K, V>): (r: Chain<K, V>)
    requires c.log != []
    ensures r.log != [] && |r.caches| == |c.caches|
  {
    match e.action
    case Get(i, key) =>
      if i < |c.caches| then c.(caches := Fetch(cfg, c.caches, Store(c), i, key, e.time).0) else c
    case Set(top, key, v) =>
      Chain(SetBelow(cfg, c.caches, top, key, v, e.time), c.log + [Snapshot(e.time, Store(c)[key := v])])
    case Del(top, key) =>
      Chain(DelBelow(c.caches, top, key), c.log + [Snapshot(e.time, Store(c) - {key})])
    case Change(store) => c.(log := c.log + [Snapshot(e.time, store)])
    case Sweep(i) =>
      if i < |c.caches| then c.(caches := c.caches[i := CM.Sweep(c.caches[i], e.time)]) else c
  }

  /** The chain of `n` nodes after a run that starts with empty caches. */
  function Run<K(==), V>(cfg: CM.Config, n: nat, first: Snapshot<K, V>, run: seq<Event<K, V>>): (r: Chain<K, V>)
    ensures r.log != [] && |r.caches| == n
  {
    if run == [] then Chain(seq(n, _ => map[]), [first])
    else Next(cfg, Run(cfg, n, first, run[..|run| - 1]), run[|run| - 1])
  }

  /** No clock goes backwards. */
  ghost predicate Ordered<K, V>(first: Snapshot<K, V>, run: seq<Event<K, V>>, now: int) {
    && (forall i :: 0 <= i < |run| ==> first.time <= run[i].time <= now)
    && (forall i, j :: 0 <= i < j < |run| ==> run[i].time <= run[j].time)
    && first.time <= now
  }

  /** The storage mapped `key` to `v` during the `j`-th snapshot, which includes the instant `s`. */
  ghost predicate HeldIn<K, V>(log: seq<Snapshot<K, V>>, j: int, s: int, key: K, v: V) {
    && 0 <= j < |log| && log[j].time <= s && (j + 1 < |log| ==> s <= log[j + 1].time)
    && key in log[j].store && log[j].store[key] == v
  }

  /** `v` was the storage's value of `key` at some instant between `from` and `to`. */
  ghost predicate HeldBetween<K, V>(log: seq<Snapshot<K, V>>, key: K, v: V, from: int, to: int) {
    exists j, s :: from <= s <= to && HeldIn(log, j, s, key, v)
  }

  lemma Wider<K, V>(log: seq<Snapshot<K, V>>, key: K, v: V, from: int, to: int, from': int, to': int)
    requires HeldBetween(log, key, v, from, to) && from' <= from && to <= to'
    ensures HeldBetween(log, key, v, from', to')
  {
    var j, s :| from <= s <= to && HeldIn(log, j, s, key, v);
    assert HeldIn(log, j, s, key, v);
  }

  lemma Logged<K, V>(log: seq<Snapshot<K, V>>, key: K, v: V, from: int, to: int, next: Snapshot<K, V>)
    requires HeldBetween(log, key, v, from, to) && to <= next.time
    ensures HeldBetween(log + [next], key, v, from, to)
  {
    var j, s :| from <= s <= to && HeldIn(log, j, s, key, v);
    assert HeldIn(log + [next], j, s, key, v);
  }

  lemma HeldNow<K, V>(log: seq<Snapshot<K, V>>, key: K, from: int, now: int)
    requires log != [] && log[|log| - 1].time <= now && key in log[|log| - 1].store && from <= now
    ensures HeldBetween(log, key, log[|log| - 1].store[key], from, now)
  {
    assert HeldIn(log, |log| - 1, now, key, log[|log| - 1].store[key]);
  }

  /** How old a value in the cache of node `i` may get: D + i·M. */
  function Bound(cfg: CM.Config, i: nat): int {
    if i == 0 then cfg.defaultDuration else Bound(cfg, i - 1) + cfg.minDuration
  }

  lemma {:induction false} BoundProduct(cfg: CM.Config, i: nat)
    ensures Bound(cfg, i) == cfg.defaultDuration + i * cfg.minDuration
  {
    if i > 0 { BoundProduct(cfg, i - 1); }
  }

  lemma {:induction false} BoundGrows(cfg: CM.Config, i: nat, k: nat)
    requires cfg.minDuration >= 0 && i <= k
    ensures cfg.defaultDuration <= Bound(cfg, i) <= Bound(cfg, k)
    decreases k
  {
    if i < k { BoundGrows(cfg, i, k - 1); } else if k > 0 { BoundGrows(cfg, i - 1, k - 1); }
  }

  /** Durations are not negative, and no reachable one is mistaken for the infinite one. */
  ghost predicate Sane(cfg: CM.Config, n: nat) {
    0 <= cfg.defaultDuration && 0 <= cfg.minDuration && Bound(cfg, n) < CM.DURATION_INF
  }

  /** When the entry expires, its value was in the storage at most `bound` ago. */
  ghost predicate FreshEntry<K, V>(log: seq<Snapshot<K, V>>, key: K, item: CM.Item<V>, bound: int, now: int) {
    && item.modified <= now && item.duration != CM.DURATION_INF
    && HeldBetween(log, key, item.value, item.modified + item.duration - bound, item.modified)
  }

  ghost predicate FreshCache<K(!new), V>(log: seq<Snapshot<K, V>>, m: CM.Items<K, V>, bound: int, now: int) {
    forall k :: k in m ==> FreshEntry(log, k, m[k], bound, now)
  }

  ghost predicate Fresh<K(!new), V>(cfg: CM.Config, caches: seq<CM.Items<K, V>>, log: seq<Snapshot<K, V>>, now: int) {
    forall i :: 0 <= i < |caches| ==> FreshCache(log, caches[i], Bound(cfg, i), now)
  }

  /** A value handed out by node `i` at `now` may be kept for `duration` by node `i + 1`. */
  ghost predicate FreshReply<K, V>(cfg: CM.Config, log: seq<Snapshot<K, V>>, key: K, r: Reply<V>, i: nat, now: int) {
    r.Found? ==>
      if r.duration == 0 then HeldBetween(log, key, r.value, now, now)
      else
        && 0 < r.duration != CM.DURATION_INF && cfg.minDuration <= r.duration
        && HeldBetween(log, key, r.value, now + r.duration - Bound(cfg, i + 1), now)
  }

  lemma FreshHit<K(!new), V>(cfg: CM.Config, m: CM.Items<K, V>, log: seq<Snapshot<K, V>>, i: nat, key: K, now: int)
    requires Sane(cfg, i + 1) && FreshCache(log, m, Bound(cfg, i), now) && CM.Get(cfg, m, key, now).Hit?
    ensures var a := CM.Get(cfg, m, key, now); FreshReply(cfg, log, key, Found(a.value, a.duration), i, now)
  {
    var item, a := m[key], CM.Get(cfg, m, key, now);
    assert FreshEntry(log, key, item, Bound(cfg, i), now);
    var from := item.modified + item.duration - Bound(cfg, i);
    var j, s :| from <= s <= item.modified && HeldIn(log, j, s, key, item.value);
    Wider(log, key, a.value, s, s, now + a.duration - Bound(cfg, i + 1), now);
  }

  lemma FreshSet<K(!new), V>(cfg: CM.Config, m: CM.Items<K, V>, log: seq<Snapshot<K, V>>, i: nat, key: K, v: V, d: int,
                             now: int)
    requires Sane(cfg, i) && FreshCache(log, m, Bound(cfg, i), now)
    requires if d == 0 then HeldBetween(log, key, v, now, now)
             else cfg.minDuration <= d != CM.DURATION_INF && HeldBetween(log, key, v, now + d - Bound(cfg, i), now)
    ensures FreshCache(log, CM.Set(cfg, m, key, v, d, now, now), Bound(cfg, i), now)
  {
    var m' := CM.Set(cfg, m, key, v, d, now, now);
    BoundGrows(cfg, 0, i);
    if d == 0 { Wider(log, key, v, now, now, now + cfg.defaultDuration - Bound(cfg, i), now); }
    forall k | k in m' ensures FreshEntry(log, k, m'[k], Bound(cfg, i), now) {
      if k != key { assert FreshEntry(log, k, m[k], Bound(cfg, i), now); }
    }
  }

  lemma FreshPassed<K, V>(cfg: CM.Config, log: seq<Snapshot<K, V>>, key: K, r: Reply<V>, i: nat, now: int)
    requires cfg.minDuration >= 0 && i > 0 && FreshReply(cfg, log, key, r, i - 1, now)
    ensures FreshReply(cfg, log, key, r, i, now)
  {
    if r.Found? && r.duration != 0 {
      Wider(log, key, r.value, now + r.duration - Bound(cfg, i), now, now + r.duration - Bound(cfg, i + 1), now);
    }
  }

  /** io_get keeps every cache fresh and returns a fresh value. */
  lemma {:induction false} FetchFresh<K(!new), V>(cfg: CM.Config, caches: seq<CM.Items<K, V>>, log: seq<Snapshot<K, V>>,
                                                  i: nat, key: K, now: int)
    requires Sane(cfg, |caches|) && Fresh(cfg, caches, log, now) && i < |caches|
    requires log != [] && log[|log| - 1].time <= now
    ensures var (after, reply) := Fetch(cfg, caches, log[|log| - 1].store, i, key, now);
            Fresh(cfg, after, log, now) && FreshReply(cfg, log, key, reply, i, now)
    decreases i
  {
    var store := log[|log| - 1].store;
    BoundGrows(cfg, i, |caches|);
    BoundGrows(cfg, i + 1, |caches|);
    if CM.Get(cfg, caches[i], key, now).Hit? {
      FreshHit(cfg, caches[i], log, i, key, now);
    } else {
      var (below, reply) := if i > 0 then Fetch(cfg, caches, store, i - 1, key, now)
                            else (caches, if key in store then Found(store[key], 0) else Missing);
      if i > 0 {
        FetchFresh(cfg, caches, log, i - 1, key, now);
        FreshPassed(cfg, log, key, reply, i, now);
      } else if key in store {
        HeldNow(log, key, now, now);
      }
      if reply.Found? {
        FreshSet(cfg, below[i], log, i, key, reply.value, reply.duration, now);
      }
    }
  }

  lemma LaterFresh<K(!new), V>(cfg: CM.Config, caches: seq<CM.Items<K, V>>, log: seq<Snapshot<K, V>>, now: int,
                               later: int)
    requires Fresh(cfg, caches, log, now) && now <= later
    ensures Fresh(cfg, caches, log, later)
  {
    forall i | 0 <= i < |caches| ensures FreshCache(log, caches[i], Bound(cfg, i), later) {
      forall k | k in caches[i] ensures FreshEntry(log, k, caches[i][k], Bound(cfg, i), later) {
        assert FreshCache(log, caches[i], Bound(cfg, i), now);
        assert FreshEntry(log, k, caches[i][k], Bound(cfg, i), now);
      }
    }
  }

  lemma LoggedFresh<K(!new), V>(cfg: CM.Config, caches: seq<CM.Items<K, V>>, log: seq<Snapshot<K, V>>,
                                next: Snapshot<K, V>)
    requires Fresh(cfg, caches, log, next.time)
    ensures Fresh(cfg, caches, log + [next], next.time)
  {
    forall i | 0 <= i < |caches| ensures FreshCache(log + [next], caches[i], Bound(cfg, i), next.time) {
      assert FreshCache(log, caches[i], Bound(cfg, i), next.time);
      forall k | k in caches[i] ensures FreshEntry(log + [next], k, caches[i][k], Bound(cfg, i), next.time) {
        var item := caches[i][k];
        assert FreshEntry(log, k, item, Bound(cfg, i), next.time);
        Logged(log, k, item.value, item.modified + item.duration - Bound(cfg, i), item.modified, next);
      }
    }
  }

  lemma SetFresh<K(!new), V>(cfg: CM.Config, caches: seq<CM.Items<K, V>>, log: seq<Snapshot<K, V>>, top: nat, key: K,
                             v: V, now: int)
    requires Sane(cfg, |caches|) && Fresh(cfg, caches, log, now) && HeldBetween(log, key, v, now, now)
    ensures Fresh(cfg, SetBelow(cfg, caches, top, key, v, now), log, now)
  {
    var after := SetBelow(cfg, caches, top, key, v, now);
    forall i | 0 <= i < |after| ensures FreshCache(log, after[i], Bound(cfg, i), now) {
      assert FreshCache(log, caches[i], Bound(cfg, i), now);
      BoundGrows(cfg, i, |caches|);
      if i < top { FreshSet(cfg, caches[i], log, i, key, v, 0, now); }
    }
  }

  /** Every cache `after` is part of the one before. */
  lemma PartFresh<K(!new), V>(cfg: CM.Config, caches: seq<CM.Items<K, V>>, after: seq<CM.Items<K, V>>,
                              log: seq<Snapshot<K, V>>, now: int)
    requires Fresh(cfg, caches, log, now) && |after| == |caches|
    requires forall i :: 0 <= i < |caches| ==> forall k :: k in after[i] ==>
              k in caches[i] && after[i][k] == caches[i][k]
    ensures Fresh(cfg, after, log, now)
  {
    forall i | 0 <= i < |after| ensures FreshCache(log, after[i], Bound(cfg, i), now) {
      assert FreshCache(log, caches[i], Bound(cfg, i), now);
    }
  }

  lemma NextFresh<K(!new), V>(cfg: CM.Config, c: Chain<K, V>, e: Event<K, V>)
    requires Sane(cfg, |c.caches|) && Fresh(cfg, c.caches, c.log, e.time)
    requires c.log != [] && c.log[|c.log| - 1].time <= e.time
    ensures var r := Next(cfg, c, e); Fresh(cfg, r.caches, r.log, e.time) && r.log[|r.log| - 1].time <= e.time
  {
    var r := Next(cfg, c, e);
    match e.action
    case Get(i, key) =>
      if i < |c.caches| { FetchFresh(cfg, c.caches, c.log, i, key, e.time); }
    case Set(top, key, v) =>
      LoggedFresh(cfg, c.caches, c.log, r.log[|c.log|]);
      HeldNow(r.log, key, e.time, e.time);
      SetFresh(cfg, c.caches, r.log, top, key, v, e.time);
    case Del(top, key) =>
      LoggedFresh(cfg, c.caches, c.log, r.log[|c.log|]);
      PartFresh(cfg, c.caches, r.caches, r.log, e.time);
    case Change(_) =>
      LoggedFresh(cfg, c.caches, c.log, r.log[|c.log|]);
    case Sweep(_) =>
      PartFresh(cfg, c.caches, r.caches, c.log, e.time);
  }

  lemma {:induction false} RunFresh<K(!new), V>(cfg: CM.Config, n: nat, first: Snapshot<K, V>, run: seq<Event<K, V>>,
                                                now: int)
    requires Sane(cfg, n) && Ordered(first, run, now)
    ensures var c := Run(cfg, n, first, run); Fresh(cfg, c.caches, c.log, now) && c.log[|c.log| - 1].time <= now
    decreases |run|
  {
    if run != [] {
      var e, before := run[|run| - 1], run[..|run| - 1];
      RunFresh(cfg, n, first, before, e.time);
      NextFresh(cfg, Run(cfg, n, first, before), e);
      var c := Run(cfg, n, first, run);
      LaterFresh(cfg, c.caches, c.log, e.time, now);
    }
  }

  /**
   Whatever gets, sets, deletions, sweeps and changes of the storage came before, a
   value returned by the node `k` hops above the owner of the storage was the
   storage's value at some instant within the last D + k·M.
   */
  lemma BoundedStaleness<K(!new), V>(cfg: CM.Config, n: nat, first: Snapshot<K, V>, run: seq<Event<K, V>>, k: nat,
                                     key: K,
                                     now: int)
    requires 0 <= cfg.defaultDuration && 0 <= cfg.minDuration
    requires k < n && cfg.defaultDuration + n * cfg.minDuration < CM.DURATION_INF
    requires Ordered(first, run, now)
    ensures var c := Run(cfg, n, first, run); var reply := Fetch(cfg, c.caches, Store(c), k, key, now).1;
            reply.Found? ==>
              HeldBetween(c.log, key, reply.value, now - (cfg.defaultDuration + k * cfg.minDuration), now)
  {
    BoundProduct(cfg, n);
    BoundProduct(cfg, k);
    BoundGrows(cfg, 0, k);
    RunFresh(cfg, n, first, run, now);
    var c := Run(cfg, n, first, run);
    FetchFresh(cfg, c.caches, c.log, k, key, now);
    var reply := Fetch(cfg, c.caches, Store(c), k, key, now).1;
    if reply.Found? {
      Wider(c.log, key, reply.value, if reply.duration == 0 then now else now + reply.duration - Bound(cfg, k + 1), now,
            now - Bound(cfg, k), now);
    }
  }

  /** The highest node at or below `i` whose cache answers, if any. */
  function Answering<K(==), V>(cfg: CM.Config, caches: seq<CM.Items<K, V>>, i: nat, key: K, now: int): Option<nat>
    requires i < |caches|
  {
    if CM.Get(cfg, caches[i], key, now).Hit? then Some(i)
    else if i == 0 then None
    else Answering(cfg, caches, i - 1, key, now)
  }

  /**
   A get returns what the highest answering cache on its way holds, or else what the
   storage holds.  The nodes it passed on the way keep the answer with the duration
   they were given, and no other cache changes.
   */
  lemma {:induction false} FetchExact<K(!new), V>(cfg: CM.Config, caches: seq<CM.Items<K, V>>, store: map<K, V>, i: nat,
                                                  key: K, now: int)
    requires i < |caches|
    ensures var (after, reply) := Fetch(cfg, caches, store, i, key, now); var j := Answering(cfg, caches, i, key, now);
            && (j.Some? ==>
                  && j.value <= i
                  && var hit := CM.Get(cfg, caches[j.value], key, now);
                  hit.Hit? && reply == Found(hit.value, hit.duration))
            && (j.None? ==> reply == if key in store then Found(store[key], 0) else Missing)
            && (forall n :: 0 <= n < |caches| && !(reply.Found? && n <= i && (j.Some? ==> j.value < n)) ==>
                  after[n] == caches[n])
            && (forall n :: 0 <= n <= i && reply.Found? && (j.Some? ==> j.value < n) ==>
                  after[n] == CM.Set(cfg, caches[n], key, reply.value, reply.duration, now, now))
    decreases i
  {
    if CM.Get(cfg, caches[i], key, now).Miss? && i > 0 { FetchExact(cfg, caches, store, i - 1, key, now); }
  }

  lemma {:induction false} NobodyAnswers<K(!new), V>(cfg: CM.Config, caches: seq<CM.Items<K, V>>, i: nat, key: K,
                                                     now: int)
    requires i < |caches| && forall n :: 0 <= n <= i ==> key !in caches[n]
    ensures Answering(cfg, caches, i, key, now).None?
    decreases i
  {
    if i > 0 { NobodyAnswers(cfg, caches, i - 1, key, now); }
  }

  /** The first answer on the way down from `i` is at `j` or above. */
  lemma {:induction false} AnsweringAbove<K(!new), V>(cfg: CM.Config, caches: seq<CM.Items<K, V>>, i: nat, j: nat,
                                                      key: K, now: int)
    requires j <= i < |caches| && CM.Get(cfg, caches[j], key, now).Hit?
    ensures var a := Answering(cfg, caches, i, key, now); a.Some? && j <= a.value
    decreases i
  {
    if j < i { AnsweringAbove(cfg, caches, i - 1, j, key, now); }
  }

  /** The nodes below `top` have the entry. */
  ghost predicate Holding<K, V>(caches: seq<CM.Items<K, V>>, top: nat, key: K, item: CM.Item<V>) {
    forall n :: 0 <= n < |caches| && n < top ==> key in caches[n] && caches[n][key] == item
  }

  /** The event writes the key. */
  predicate Writes<K(==), V>(e: Event<K, V>, key: K) { (e.action.Set? || e.action.Del?) && e.action.key == key }

  lemma FetchHolds<K(!new), V>(cfg: CM.Config, caches: seq<CM.Items<K, V>>, store: map<K, V>, i: nat, k: K, now: int,
                               top: nat, key: K, item: CM.Item<V>)
    requires i < |caches| && Holding(caches, top, key, item) && !CM.Outdated(item, now)
    ensures Holding(Fetch(cfg, caches, store, i, k, now).0, top, key, item)
  {
    var after := Fetch(cfg, caches, store, i, k, now).0;
    FetchExact(cfg, caches, store, i, k, now);
    forall n | 0 <= n < |after| && n < top ensures key in after[n] && after[n][key] == item {
      if k == key && n <= i { AnsweringAbove(cfg, caches, i, n, key, now); }
    }
  }

  lemma NextHolds<K(!new), V>(cfg: CM.Config, c: Chain<K, V>, e: Event<K, V>, top: nat, key: K, item: CM.Item<V>)
    requires c.log != [] && Holding(c.caches, top, key, item) && !CM.Outdated(item, e.time) && !Writes(e, key)
    ensures Holding(Next(cfg, c, e).caches, top, key, item)
  {
    if e.action.Get? && e.action.node < |c.caches| {
      FetchHolds(cfg, c.caches, Store(c), e.action.node, e.action.key, e.time, top, key, item);
    }
  }

  /** The chain after further events. */
  function Continue<K(==), V>(cfg: CM.Config, c: Chain<K, V>, run: seq<Event<K, V>>): (r: Chain<K, V>)
    requires c.log != []
    ensures r.log != [] && |r.caches| == |c.caches|
    decreases |run|
  {
    if run == [] then c else Continue(cfg, Next(cfg, c, run[0]), run[1..])
  }

  lemma {:induction false} ContinueHolds<K(!new), V>(cfg: CM.Config, c: Chain<K, V>, run: seq<Event<K, V>>, top: nat,
                                                     key: K, item: CM.Item<V>)
    requires c.log != [] && Holding(c.caches, top, key, item)
    requires forall i :: 0 <= i < |run| ==> !CM.Outdated(item, run[i].time) && !Writes(run[i], key)
    ensures Holding(Continue(cfg, c, run).caches, top, key, item)
    decreases |run|
  {
    if run != [] {
      NextHolds(cfg, c, run[0], top, key, item);
      ContinueHolds(cfg, Next(cfg, c, run[0]), run[1..], top, key, item);
    }
  }

  /**
   After a set through the nodes below `top`, whatever gets, sweeps, changes of the storage
   and writes to other keys follow, a get at any of these nodes returns the value written
   until the default duration has passed.
   */
  lemma ReadYourWrites<K(!new), V>(cfg: CM.Config, c: Chain<K, V>, w: Event<K, V>, run: seq<Event<K, V>>, i: nat,
                                   now: int)
    requires c.log != [] && w.action.Set? && i < |c.caches| && i < w.action.top
    requires forall j :: 0 <= j < |run| ==> run[j].time < w.time + cfg.defaultDuration && !Writes(run[j], w.action.key)
    requires now < w.time + cfg.defaultDuration
    ensures var r := Continue(cfg, Next(cfg, c, w), run);
            var reply := Fetch(cfg, r.caches, Store(r), i, w.action.key, now).1;
            reply.Found? && reply.value == w.action.value
  {
    var item := CM.Item(w.action.value, w.time, cfg.defaultDuration);
    var r := Continue(cfg, Next(cfg, c, w), run);
    ContinueHolds(cfg, Next(cfg, c, w), run, w.action.top, w.action.key, item);
    assert r.caches[i][w.action.key] == item;
    FetchExact(cfg, r.caches, Store(r), i, w.action.key, now);
  }

  /** Neither the storage nor the nodes below `top` have the key. */
  ghost predicate Absent<K, V>(c: Chain<K, V>, top: nat, key: K)
    requires c.log != []
  {
    key !in Store(c) && forall n :: 0 <= n < |c.caches| && n < top ==> key !in c.caches[n]
  }

  /** The event brings the key back into the storage. */
  predicate Restores<K(==), V>(e: Event<K, V>, key: K) {
    (e.action.Set? && e.action.key == key) || (e.action.Change? && key in e.action.store)
  }

  lemma NextAbsent<K(!new), V>(cfg: CM.Config, c: Chain<K, V>, e: Event<K, V>, top: nat, key: K)
    requires c.log != [] && Absent(c, top, key) && !Restores(e, key)
    ensures Absent(Next(cfg, c, e), top, key)
  {
    if e.action.Get? && e.action.node < |c.caches| {
      FetchExact(cfg, c.caches, Store(c), e.action.node, e.action.key, e.time);
    }
  }

  lemma {:induction false} ContinueAbsent<K(!new), V>(cfg: CM.Config, c: Chain<K, V>, run: seq<Event<K, V>>, top: nat,
                                                      key: K)
    requires c.log != [] && Absent(c, top, key) && forall i :: 0 <= i < |run| ==> !Restores(run[i], key)
    ensures Absent(Continue(cfg, c, run), top, key)
    decreases |run|
  {
    if run != [] {
      NextAbsent(cfg, c, run[0], top, key);
      ContinueAbsent(cfg, Next(cfg, c, run[0]), run[1..], top, key);
    }
  }

  /**
   After a deletion through the nodes below `top`, a get at any of these nodes finds nothing
   until the key is brought back into the storage, whatever the nodes above still hold.
   */
  lemma ReadYourDeletions<K(!new), V>(cfg: CM.Config, c: Chain<K, V>, w: Event<K, V>, run: seq<Event<K, V>>, i: nat,
                                      now: int)
    requires c.log != [] && w.action.Del? && i < |c.caches| && i < w.action.top
    requires forall j :: 0 <= j < |run| ==> !Restores(run[j], w.action.key)
    ensures var r := Continue(cfg, Next(cfg, c, w), run);
            Fetch(cfg, r.caches, Store(r), i, w.action.key, now).1.Missing?
  {
    var r := Continue(cfg, Next(cfg, c, w), run);
    ContinueAbsent(cfg, Next(cfg, c, w), run, w.action.top, w.action.key);
    NobodyAnswers(cfg, r.caches, i, w.action.key, now);
    FetchExact(cfg, r.caches, Store(r), i, w.action.key, now);
  }

  /** Both have the same entry for the key, or none. */
  ghost predicate Agree<K, V>(m: map<K, V>, m': map<K, V>, key: K) {
    (key in m <==> key in m') && (key in m ==> m[key] == m'[key])
  }

  /** A get depends on what the caches on its way answer, and on the storage's entry for its key. */
  lemma {:induction false} FetchAgrees<K(!new), V>(cfg: CM.Config, caches: seq<CM.Items<K, V>>, store: map<K, V>,
                                                   caches': seq<CM.Items<K, V>>, store': map<K, V>, i: nat, key: K,
                                                   now: int)
    requires i < |caches| == |caches'| && Agree(store, store', key)
    requires forall n :: 0 <= n <= i ==> CM.Get(cfg, caches[n], key, now) == CM.Get(cfg, caches'[n], key, now)
    ensures Fetch(cfg, caches, store, i, key, now).1 == Fetch(cfg, caches', store', i, key, now).1
    decreases i
  {
    assert CM.Get(cfg, caches[i], key, now) == CM.Get(cfg, caches'[i], key, now);
    if i > 0 { FetchAgrees(cfg, caches, store, caches', store', i - 1, key, now); }
  }

  /**
   A set or a deletion changes its own key only: the storage and the caches below `top` have
   the value or no longer the key, the caches from `top` on are as before, and the storage
   and all caches keep what they hold for other keys.
   */
  lemma WritesOwnKey<K(!new), V>(cfg: CM.Config, c: Chain<K, V>, w: Event<K, V>)
    requires c.log != [] && (w.action.Set? || w.action.Del?)
    ensures var r, key := Next(cfg, c, w), w.action.key;
            && |r.log| == |c.log| + 1 && r.log[..|c.log|] == c.log && r.log[|c.log|].time == w.time
            && (if w.action.Set? then key in Store(r) && Store(r)[key] == w.action.value else key !in Store(r))
            && (forall k :: k != key ==> Agree(Store(r), Store(c), k))
            && (forall n :: 0 <= n < |c.caches| && n < w.action.top ==>
                  if w.action.Set? then
                    && key in r.caches[n] && r.caches[n][key].value == w.action.value
                    && r.caches[n][key].modified == w.time && r.caches[n][key].duration == cfg.defaultDuration
                  else key !in r.caches[n])
            && (forall n :: w.action.top <= n < |c.caches| ==> r.caches[n] == c.caches[n])
            && (forall n, k :: 0 <= n < |c.caches| && k != key ==> Agree(r.caches[n], c.caches[n], k))
  {
  }

  /** A get of any other key answers at every node what it would have answered before the write. */
  lemma OtherKeysUntouched<K(!new), V>(cfg: CM.Config, c: Chain<K, V>, w: Event<K, V>, i: nat, key: K, now: int)
    requires c.log != [] && (w.action.Set? || w.action.Del?) && i < |c.caches| && key != w.action.key
    ensures var r := Next(cfg, c, w);
            Fetch(cfg, r.caches, Store(r), i, key, now).1 == Fetch(cfg, c.caches, Store(c), i, key, now).1
  {
    var r := Next(cfg, c, w);
    WritesOwnKey(cfg, c, w);
    forall n | 0 <= n <= i ensures CM.Get(cfg, r.caches[n], key, now) == CM.Get(cfg, c.caches[n], key, now) {
      assert Agree(r.caches[n], c.caches[n], key);
    }
    FetchAgrees(cfg, r.caches, Store(r), c.caches, Store(c), i, key, now);
  }

  /**
   A get that the storage has answered puts the value into the caches it passed: whatever gets,
   sweeps, changes of the storage and writes to other keys follow, a get at any of these nodes
   returns the same value until the default duration has passed.
   */
  lemma ReadsRepeat<K(!new), V>(cfg: CM.Config, c: Chain<K, V>, g: Event<K, V>, run: seq<Event<K, V>>, i: nat, now: int)
    requires c.log != [] && g.action.Get? && i <= g.action.node < |c.caches|
    requires Answering(cfg, c.caches, g.action.node, g.action.key, g.time).None? && g.action.key in Store(c)
    requires forall j :: 0 <= j < |run| ==> run[j].time < g.time + cfg.defaultDuration && !Writes(run[j], g.action.key)
    requires now < g.time + cfg.defaultDuration
    ensures var r := Continue(cfg, Next(cfg, c, g), run);
            var reply := Fetch(cfg, r.caches, Store(r), i, g.action.key, now).1;
            reply.Found? && reply.value == Store(c)[g.action.key]
  {
    var key, top := g.action.key, g.action.node + 1;
    var item := CM.Item(Store(c)[key], g.time, cfg.defaultDuration);
    var r := Continue(cfg, Next(cfg, c, g), run);
    FetchExact(cfg, c.caches, Store(c), g.action.node, key, g.time);
    ContinueHolds(cfg, Next(cfg, c, g), run, top, key, item);
    assert r.caches[i][key] == item;
    FetchExact(cfg, r.caches, Store(r), i, key, now);
  }

  /** A sweep of one cache leaves what is not outdated, and no get from then on can tell. */
  lemma SweepInvisible<K(!new), V>(cfg: CM.Config, c: Chain<K, V>, e: Event<K, V>, i: nat, key: K, now: int)
    requires c.log != [] && e.action.Sweep? && e.action.node < |c.caches| && i < |c.caches| && e.time <= now
    ensures var r, n := Next(cfg, c, e), e.action.node;
            && (key in r.caches[n] <==> key in c.caches[n] && !CM.Outdated(c.caches[n][key], e.time))
            && r.log == c.log
            && Fetch(cfg, r.caches, Store(r), i, key, now).1 == Fetch(cfg, c.caches, Store(c), i, key, now).1
  {
    var r := Next(cfg, c, e);
    FetchAgrees(cfg, r.caches, Store(r), c.caches, Store(c), i, key, now);
  }

  /** When the storage has changed by itself, a get that no cache answers sees the new contents. */
  lemma ChangeSeen<K(!new), V>(cfg: CM.Config, c: Chain<K, V>, e: Event<K, V>, i: nat, key: K, now: int)
    requires c.log != [] && e.action.Change? && i < |c.caches|
    ensures var r := Next(cfg, c, e); var reply := Fetch(cfg, r.caches, Store(r), i, key, now).1;
            match Answering(cfg, c.caches, i, key, now)
            case Some(_) => reply == Fetch(cfg, c.caches, Store(c), i, key, now).1
            case None => reply == if key in e.action.store then Found(e.action.store[key], 0) else Missing
  {
    var r := Next(cfg, c, e);
    FetchExact(cfg, r.caches, Store(r), i, key, now);
    FetchExact(cfg, c.caches, Store(c), i, key, now);
  }
}
