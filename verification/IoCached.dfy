/**
 How long the cache answers for an operation that has updated it.
 */
module IoCached {
  import opened Names
  import opened Io
  import CM = CacheModel

  /** The entry `item` of `k` is in the cache, or it is gone and outdated. */
  ghost predicate Kept(s: State, k: Key, item: CM.Item<Value>) {
    && s.cache.Some?
    && if k in s.cache.value then s.cache.value[k] == item else CM.Outdated(item, s.now)
  }

  /** The step updates the cache entry of `k`. */
  predicate Touches(s: State, step: Step, k: Key) { step.Cache? && step.t in s.ops && s.ops[step.t].op.key == k }

  /** No step of the run does. */
  ghost predicate Untouched(cfg: CM.Config, s: State, run: seq<Step>, end: State, k: Key)
    requires Runs(cfg, s, run, end)
    decreases |run|
  {
    run != [] ==> !Touches(s, run[0], k) && Untouched(cfg, Next(cfg, s, run[0]), run[1..], end, k)
  }

  lemma KeptNext(cfg: CM.Config, s: State, step: Step, k: Key, item: CM.Item<Value>)
    requires Kept(s, k, item) && Enabled(s, step) && !Touches(s, step, k)
    ensures Kept(Next(cfg, s, step), k, item)
  {
  }

  lemma {:induction false} KeptRuns(cfg: CM.Config, s: State, run: seq<Step>, end: State, k: Key, item: CM.Item<Value>)
    requires Kept(s, k, item) && Runs(cfg, s, run, end) && Untouched(cfg, s, run, end, k)
    ensures Kept(end, k, item)
    decreases |run|
  {
    if run != [] {
      KeptNext(cfg, s, run[0], k, item);
      KeptRuns(cfg, Next(cfg, s, run[0]), run[1..], end, k, item);
    }
  }

  /** The entry that an operation leaves in the cache. */
  function Entry(cfg: CM.Config, s: State, t: Tid, created: int): CM.Item<Value>
    requires Enabled(s, Cache(t, created)) && (s.ops[t].op.Set? || (s.ops[t].op.Get? && s.ops[t].result.Found?))
  {
    var op := s.ops[t].op;
    CM.Item(if op.Set? then op.value else s.ops[t].result.value,
            if op.key in s.cache.value then s.now else created,
            CM.Stored(cfg, if op.Set? then 0 else s.ops[t].duration))
  }

  /**
   After a read or a write has updated the cache, whatever happens except another update of
   the same key - sweeps, time passing, other operations, storages coming and going - a read
   is answered with its value for exactly as long as the entry lasts, and goes to the
   storage from then on.
   */
  lemma AnsweredUntilExpiry(cfg: CM.Config, s: State, t: Tid, created: int, run: seq<Step>, end: State, u: Tid)
    requires Enabled(s, Cache(t, created)) && (s.ops[t].op.Set? || (s.ops[t].op.Get? && s.ops[t].result.Found?))
    requires Runs(cfg, Next(cfg, s, Cache(t, created)), run, end)
    requires Untouched(cfg, Next(cfg, s, Cache(t, created)), run, end, s.ops[t].op.key)
    requires u in end.ops && end.ops[u] == Begin(Get(s.ops[t].op.key))
    ensures var item := Entry(cfg, s, t, created);
            && Enabled(end, Start(u))
            && Next(cfg, end, Start(u)).ops[u] ==
               if item.duration == CM.DURATION_INF || end.now < item.modified + item.duration
               then Returning(Get(s.ops[t].op.key), Found(item.value))
               else Routing(Get(s.ops[t].op.key))
  {
    KeptRuns(cfg, Next(cfg, s, Cache(t, created)), run, end, s.ops[t].op.key, Entry(cfg, s, t, created));
  }

  /** The storage call of a get has found its key, or that of a set has written it. */
  predicate Stores(s: State, t: Tid, d: int) {
    && Enabled(s, Store(t, true, d)) && s.cache.Some?
    && (s.ops[t].op.Set? || (s.ops[t].op.Get? && s.ops[t].op.key in s.stores[s.route.refs[t]]))
  }

  /** The thread is about to update the cache, and no step but its own changes that. */
  lemma {:induction false} StaysCaching(cfg: CM.Config, s: State, run: seq<Step>, end: State, t: Tid)
    requires t in s.ops && s.ops[t].Caching? && s.cache.Some? && Runs(cfg, s, run, end)
    requires forall i :: 0 <= i < |run| ==> !(run[i].Cache? && run[i].t == t)
    ensures t in end.ops && end.ops[t] == s.ops[t] && end.cache.Some?
    decreases |run|
  {
    if run != [] {
      assert !(run[0].Cache? && run[0].t == t);
      StillCaching(cfg, s, run[0], t);
      StaysCaching(cfg, Next(cfg, s, run[0]), run[1..], end, t);
    }
  }

  lemma StillCaching(cfg: CM.Config, s: State, step: Step, t: Tid)
    requires t in s.ops && s.ops[t].Caching? && s.cache.Some?
    requires Enabled(s, step) && !(step.Cache? && step.t == t)
    ensures var s' := Next(cfg, s, step); t in s'.ops && s'.ops[t] == s.ops[t] && s'.cache.Some?
  {
  }

  /**
   What a storage call leaves behind.  The value that a get has found there, or a set has
   written, is answered for the duration `d` that came with it from the storage - the default
   for 0 and for a set, never less than the minimum - whatever the threads do between the
   storage call and the update of the cache, and whatever but another update they do later.
   */
  lemma AnsweredAsStored(cfg: CM.Config, s: State, t: Tid, d: int, run: seq<Step>, mid: State, created: int,
                         more: seq<Step>, end: State, u: Tid)
    requires Stores(s, t, d) && Runs(cfg, Next(cfg, s, Store(t, true, d)), run, mid)
    requires forall i :: 0 <= i < |run| ==> !(run[i].Cache? && run[i].t == t)
    requires Enabled(mid, Cache(t, created)) && Runs(cfg, Next(cfg, mid, Cache(t, created)), more, end)
    requires Untouched(cfg, Next(cfg, mid, Cache(t, created)), more, end, s.ops[t].op.key)
    requires u in end.ops && end.ops[u] == Begin(Get(s.ops[t].op.key))
    ensures var op := s.ops[t].op;
            var value := if op.Set? then op.value else s.stores[s.route.refs[t]][op.key];
            var x := if op.Set? || d == 0 then cfg.defaultDuration
                     else if d < cfg.minDuration then cfg.minDuration
                     else d;
            var since := if op.key in mid.cache.value then mid.now else created;
            && Enabled(end, Start(u))
            && Next(cfg, end, Start(u)).ops[u] ==
               if x == CM.DURATION_INF || end.now < since + x
               then Returning(Get(op.key), Found(value))
               else Routing(Get(op.key))
  {
    StaysCaching(cfg, Next(cfg, s, Store(t, true, d)), run, mid, t);
    AnsweredUntilExpiry(cfg, mid, t, created, more, end, u);
  }

  /** A deletion that has updated the cache sends every read to the storage until the key is cached again. */
  lemma AskedAfterDeletion(cfg: CM.Config, s: State, t: Tid, created: int, run: seq<Step>, end: State, u: Tid)
    requires Enabled(s, Cache(t, created)) && s.ops[t].op.Del?
    requires Runs(cfg, Next(cfg, s, Cache(t, created)), run, end)
    requires Untouched(cfg, Next(cfg, s, Cache(t, created)), run, end, s.ops[t].op.key)
    requires u in end.ops && end.ops[u] == Begin(Get(s.ops[t].op.key))
    ensures Enabled(end, Start(u)) && Next(cfg, end, Start(u)).ops[u] == Routing(Get(s.ops[t].op.key))
  {
    StaysGone(cfg, Next(cfg, s, Cache(t, created)), run, end, s.ops[t].op.key);
  }

  lemma {:induction false} StaysGone(cfg: CM.Config, s: State, run: seq<Step>, end: State, k: Key)
    requires s.cache.Some? && k !in s.cache.value && Runs(cfg, s, run, end) && Untouched(cfg, s, run, end, k)
    ensures end.cache.Some? && k !in end.cache.value
    decreases |run|
  {
    if run != [] { StaysGone(cfg, Next(cfg, s, run[0]), run[1..], end, k); }
  }

  /** A sweep empties the cache of what is outdated and of nothing else, and the clock moves nothing but itself. */
  lemma SweepAndTick(cfg: CM.Config, s: State, k: Key, time: int)
    requires s.cache.Some? && s.now <= time
    ensures var swept := Next(cfg, s, Sweep);
            && swept == s.(cache := swept.cache) && swept.cache.Some?
            && (k in swept.cache.value <==> k in s.cache.value && !CM.Outdated(s.cache.value[k], s.now))
            && (k in swept.cache.value ==> swept.cache.value[k] == s.cache.value[k])
    ensures Next(cfg, s, Tick(time)) == s.(now := time)
  {
  }
}
