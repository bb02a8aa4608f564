/**
 What registering and unregistering storages does to the registers, and when the relation
 between program and registers survives it.
 */
module IoReroute {
  import opened Names
  import opened Options
  import opened Io
  import opened IoLinear
  import AR = AtomicRegisters
  import CM = CacheModel
  import RT = Route

  /** The storage that serves the key before and after a change of the route is not the same. */
  ghost predicate Rerouted(home: Home, home': Home, k: Key) {
    !(k in home <==> k in home') || (k in home && k in home' && home[k] != home'[k])
  }

  /** The change of the registers that a change of the route stands for. */
  ghost function Remounts(s: State, s': State): AR.Mount
    requires RT.Listed(s.route) && RT.Listed(s'.route)
  {
    var home, home' := HomeOf(s), HomeOf(s');
    var keys := iset k | Rerouted(home, home', k);
    AR.Mount(keys, imap k | k in keys :: Content(s', home', k), home'.Keys)
  }

  /** An operation on the key has chosen its storage and not yet finished with storage and cache. */
  ghost predicate Busy(s: State, k: Key) { exists t :: t in s.ops && Committed(s.ops[t]) && s.ops[t].op.key == k }

  predicate Live(s: State, k: Key) { s.cache.Some? && k in s.cache.value && !CM.Outdated(s.cache.value[k], s.now) }

  /**
   A change of the route does no harm if no key that it reroutes is being worked on, and
   the cache has no live entry for it other than what the new storage holds.
   */
  ghost predicate Harmless(s: State, s': State)
    requires RT.Listed(s.route) && RT.Listed(s'.route)
  {
    forall k :: Rerouted(HomeOf(s), HomeOf(s'), k) ==>
      !Busy(s, k) && (Live(s, k) ==> Content(s', HomeOf(s'), k) == Some(s.cache.value[k].value))
  }

  lemma HomeIs(s: State, home: Home)
    requires RT.Listed(s.route) && forall k :: HomeOk(s, home, k)
    ensures home == HomeOf(s)
  {
    forall k ensures k in home <==> k in HomeOf(s) { assert HomeOk(s, home, k); }
    forall k | k in home ensures home[k] == HomeOf(s)[k] { assert HomeOk(s, home, k); }
  }

  lemma HomeOfOk(s: State, k: Key)
    requires RT.Listed(s.route)
    ensures HomeOk(s, HomeOf(s), k)
  {
  }

  /** What a change of the route leaves alone: operations, locks, cache, clock, and the storages that stay. */
  lemma AdminFrame(cfg: CM.Config, s: State, step: Step)
    requires Inv(s) && Enabled(s, step) && step.Admin?
    ensures var s' := Next(cfg, s, step);
            && s'.ops == s.ops && s'.names == s.names && s'.cache == s.cache && s'.now == s.now
            && s'.route.refs == s.route.refs
            && StoresStay(s, s')
  {
  }

  ghost predicate StoresStay(s: State, s': State) {
    forall a :: a in s.route.items && a in s'.route.items ==>
      a in s.stores && a in s'.stores && s'.stores[a] == s.stores[a]
  }

  /** A key that keeps its storage keeps its contents. */
  lemma ContentKept(s: State, s': State, k: Key)
    requires RT.Listed(s.route) && RT.Listed(s'.route) && StoresStay(s, s') && !Rerouted(HomeOf(s), HomeOf(s'), k)
    ensures Content(s', HomeOf(s'), k) == Content(s, HomeOf(s), k)
  {
  }

  /** The registers after the change. */
  ghost function Remounted(s: State, s': State, a: AR.State): AR.State
    requires RT.Listed(s.route) && RT.Listed(s'.route)
  {
    var m := Remounts(s, s');
    a.(values := a.values + m.contents, routed := m.routed)
  }

  lemma ThreadRerouted(s: State, s': State, a: AR.State, a': AR.State, home: Home, home': Home, t: Tid)
    requires ThreadRel(s, a, home, t) && s'.ops == s.ops && s'.route.refs == s.route.refs && a'.pending == a.pending
    requires t in s.ops && Committed(s.ops[t]) ==>
               var k := s.ops[t].op.key;
               && !Rerouted(home, home', k) && Content(s', home', k) == Content(s, home, k)
               && (k in a.values ==> k in a'.values && a'.values[k] == a.values[k])
    ensures ThreadRel(s', a', home', t)
  {
  }

  /** Nothing but the route changes, and the keys that keep their storage keep its contents. */
  ghost predicate OnlyRoute(s: State, s': State)
    requires RT.Listed(s.route) && RT.Listed(s'.route)
  {
    && s'.ops == s.ops && s'.cache == s.cache && s'.now == s.now && s'.route.refs == s.route.refs
    && forall k :: !Rerouted(HomeOf(s), HomeOf(s'), k) ==> Content(s', HomeOf(s'), k) == Content(s, HomeOf(s), k)
  }

  lemma AdminOnlyRoute(cfg: CM.Config, s: State, step: Step)
    requires Inv(s) && Enabled(s, step) && step.Admin? && Inv(Next(cfg, s, step))
    ensures OnlyRoute(s, Next(cfg, s, step))
  {
    var s' := Next(cfg, s, step);
    AdminFrame(cfg, s, step);
    forall k | !Rerouted(HomeOf(s), HomeOf(s'), k) ensures Content(s', HomeOf(s'), k) == Content(s, HomeOf(s), k) {
      ContentKept(s, s', k);
    }
  }

  lemma AdminThread(s: State, s': State, a: AR.State, t: Tid)
    requires RT.Listed(s.route) && RT.Listed(s'.route) && OnlyRoute(s, s') && Harmless(s, s')
    requires ThreadRel(s, a, HomeOf(s), t)
    ensures ThreadRel(s', Remounted(s, s', a), HomeOf(s'), t)
  {
    if t in s.ops && Committed(s.ops[t]) { assert Busy(s, s.ops[t].op.key); }
    ThreadRerouted(s, s', a, Remounted(s, s', a), HomeOf(s), HomeOf(s'), t);
  }

  lemma KeyRerouted(s: State, s': State, a: AR.State, a': AR.State, home: Home, home': Home, k: Key)
    requires KeyRel(s, a, home, k) && s'.ops == s.ops && s'.cache == s.cache && s'.now == s.now && k in a'.values
    requires Rerouted(home, home', k) ==>
               && a'.values[k] == Content(s', home', k)
               && (Live(s, k) ==> Content(s', home', k) == Some(s.cache.value[k].value))
    requires !Rerouted(home, home', k) ==> a'.values[k] == a.values[k] && Content(s', home', k) == Content(s, home, k)
    ensures KeyRel(s', a', home', k)
  {
    if Unsettled(s, k) {
      var t :| Writing(s, t, k);
      assert Writing(s', t, k);
    }
  }

  lemma AdminKey(s: State, s': State, a: AR.State, k: Key)
    requires RT.Listed(s.route) && RT.Listed(s'.route) && OnlyRoute(s, s') && Harmless(s, s')
    requires KeyRel(s, a, HomeOf(s), k)
    ensures KeyRel(s', Remounted(s, s', a), HomeOf(s'), k)
  {
    KeyRerouted(s, s', a, Remounted(s, s', a), HomeOf(s), HomeOf(s'), k);
  }

  /** A harmless change of the route is one step of the registers. */
  lemma AdminRel(cfg: CM.Config, s: State, a: AR.State, step: Step)
    requires Related(s, a) && Enabled(s, step) && step.Admin?
    requires Inv(Next(cfg, s, step)) && Harmless(s, Next(cfg, s, step))
    ensures var s' := Next(cfg, s, step); var r := AR.Remount(Remounts(s, s'));
            AR.Enabled(a, r) && AR.Next(a, r) == Remounted(s, s', a) && Related(s', AR.Next(a, r))
  {
    var s' := Next(cfg, s, step);
    var b := Remounted(s, s', a);
    AdminOnlyRoute(cfg, s, step);
    forall k ensures HomeOk(s', HomeOf(s'), k) { HomeOfOk(s', k); }
    forall t: Tid ensures ThreadRel(s', b, HomeOf(s'), t) {
      assert ThreadRel(s, a, HomeOf(s), t);
      AdminThread(s, s', a, t);
    }
    forall k ensures KeyRel(s', b, HomeOf(s'), k) {
      assert KeyRel(s, a, HomeOf(s), k);
      AdminKey(s, s', a, k);
    }
  }
}
