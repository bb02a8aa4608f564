/**
 A run that shows why a change of the route must be harmless: a cache entry outlives the
 storage it came from.  One thread sets a key to `v`; when it has returned, a storage that
 holds `w` is registered for the same key; a read that begins after that returns `v`.
 */
module RerouteHarm {
  import opened Names
  import opened Options
  import opened Io
  import opened IoLinear
  import opened IoReroute
  import opened L = Linearizability
  import AR = AtomicRegisters
  import CM = CacheModel
  import NM = NamedMutex
  import RT = Route
  import PM = PrefixMatch

  const cfg: CM.Config := CM.Config(10, 1)
  const key: Key := Key("k")

  /** The moments of the run: one storage, which serves the key. */
  function Moment(name: Label, ops: map<Tid, Pc>, names: NM.State, nref: int, refs: map<Tid, Address>,
                  cache: CM.Items<Key, Value>, store: map<Key, Value>): State {
    State(ops, names, RT.State([0], map[0 := RT.Item(name, ["k"], nref)], None, refs), Some(cache), 0, map[0 := store])
  }

  function Locked(): NM.State {
    NM.State(map[5 := NM.Object(key, 1, Some(1))], None, map[key := 5], map[1 := NM.Holding(key)])
  }

  function Cached(v: Value): CM.Items<Key, Value> { map[key := CM.Item(v, 0, 10)] }

  lemma Then(s: State, run: seq<Step>, mid: State, more: seq<Step>, end: State)
    requires Runs(cfg, s, run, mid) && Runs(cfg, mid, more, end)
    ensures Runs(cfg, s, run + more, end)
  {
    RunsJoin(cfg, s, run, mid, more, end);
  }

  lemma One(s: State, step: Step)
    requires Enabled(s, step)
    ensures Runs(cfg, s, [step], Next(cfg, s, step))
  {
    assert [step][1..] == [];
    assert Runs(cfg, Next(cfg, s, step), [], Next(cfg, s, step));
  }

  lemma Two(s: State, a: Step, b: Step)
    requires Enabled(s, a) && Enabled(Next(cfg, s, a), b)
    ensures Runs(cfg, s, [a, b], Next(cfg, Next(cfg, s, a), b))
  {
    One(s, a);
    One(Next(cfg, s, a), b);
    Then(s, [a], Next(cfg, s, a), [b], Next(cfg, Next(cfg, s, a), b));
    assert [a] + [b] == [a, b];
  }

  lemma Serves(name: Label, nref: int)
    ensures RT.Serves(RT.Item(name, ["k"], nref), key)
  {
    assert PM.Match(["k"][0], key.text);
  }

  lemma Begins(name: Label, v: Value)
    ensures Runs(cfg, Moment(name, map[], NM.Init(), 0, map[], map[], map[]),
                 [Invoke(1, Set(key, v)), Start(1)],
                 Moment(name, map[1 := Routing(Set(key, v))], NM.Init(), 0, map[], map[], map[]))
  {
    Two(Moment(name, map[], NM.Init(), 0, map[], map[], map[]), Invoke(1, Set(key, v)), Start(1));
  }

  lemma Routes(name: Label, v: Value)
    ensures Runs(cfg, Moment(name, map[1 := Routing(Set(key, v))], NM.Init(), 0, map[], map[], map[]),
                 [Match(1)],
                 Moment(name, map[1 := Locking(Set(key, v))], NM.Init(), 1, map[1 := 0], map[], map[]))
  {
    Serves(name, 0);
    var s := Moment(name, map[1 := Routing(Set(key, v))], NM.Init(), 0, map[], map[], map[]);
    assert RT.FirstMatch(s.route.list, s.route.items, key) == Some(0);
    One(s, Match(1));
  }

  function Inserting(): NM.State {
    NM.State(map[5 := NM.Object(key, 0, None)], Some(1), map[], map[1 := NM.Inserting(key, 5)])
  }

  lemma Enters(name: Label, v: Value)
    ensures Runs(cfg, Moment(name, map[1 := Locking(Set(key, v))], NM.Init(), 1, map[1 := 0], map[], map[]),
                 [Mutex(NM.Create(1, key, 5)), Mutex(NM.Acquire(1))],
                 Moment(name, map[1 := Locking(Set(key, v))], Inserting(), 1, map[1 := 0], map[], map[]))
  {
    Two(Moment(name, map[1 := Locking(Set(key, v))], NM.Init(), 1, map[1 := 0], map[], map[]),
        Mutex(NM.Create(1, key, 5)), Mutex(NM.Acquire(1)));
  }

  lemma Locks(name: Label, v: Value)
    ensures Runs(cfg, Moment(name, map[1 := Locking(Set(key, v))], Inserting(), 1, map[1 := 0], map[], map[]),
                 [Mutex(NM.Leave(1)), Mutex(NM.Lock(1))],
                 Moment(name, map[1 := Storing(Set(key, v))], Locked(), 1, map[1 := 0], map[], map[]))
  {
    Two(Moment(name, map[1 := Locking(Set(key, v))], Inserting(), 1, map[1 := 0], map[], map[]),
        Mutex(NM.Leave(1)), Mutex(NM.Lock(1)));
  }

  lemma Writes(name: Label, v: Value)
    ensures Runs(cfg, Moment(name, map[1 := Storing(Set(key, v))], Locked(), 1, map[1 := 0], map[], map[]),
                 [Store(1, true, 0), Cache(1, 0)],
                 Moment(name, map[1 := Unlocking(Set(key, v), Done)], Locked(), 1, map[1 := 0], Cached(v),
                     map[key := v]))
  {
    Two(Moment(name, map[1 := Storing(Set(key, v))], Locked(), 1, map[1 := 0], map[], map[]), Store(1, true, 0),
        Cache(1, 0));
  }

  function Finding(): NM.State {
    NM.State(map[5 := NM.Object(key, 1, Some(1))], None, map[key := 5], map[1 := NM.Found(key, 5)])
  }

  function Dropping(): NM.State {
    NM.State(map[5 := NM.Object(key, 1, None)], Some(1), map[key := 5], map[1 := NM.Dropping(key, 5)])
  }

  /** The moments after the write. */
  function Later(name: Label, v: Value, ops: map<Tid, Pc>, names: NM.State, nref: int, refs: map<Tid, Address>): State {
    Moment(name, ops, names, nref, refs, Cached(v), map[key := v])
  }

  lemma Finds(name: Label, v: Value)
    ensures Runs(cfg, Later(name, v, map[1 := Unlocking(Set(key, v), Done)], Locked(), 1, map[1 := 0]),
                 [Mutex(NM.Acquire(1)), Mutex(NM.Leave(1))],
                 Later(name, v, map[1 := Unlocking(Set(key, v), Done)], Finding(), 1, map[1 := 0]))
  {
    Two(Later(name, v, map[1 := Unlocking(Set(key, v), Done)], Locked(), 1, map[1 := 0]), Mutex(NM.Acquire(1)),
        Mutex(NM.Leave(1)));
  }

  lemma Unlocks(name: Label, v: Value)
    ensures Runs(cfg, Later(name, v, map[1 := Unlocking(Set(key, v), Done)], Finding(), 1, map[1 := 0]),
                 [Mutex(NM.Unlock(1)), Mutex(NM.Acquire(1))],
                 Later(name, v, map[1 := Unlocking(Set(key, v), Done)], Dropping(), 1, map[1 := 0]))
  {
    Two(Later(name, v, map[1 := Unlocking(Set(key, v), Done)], Finding(), 1, map[1 := 0]), Mutex(NM.Unlock(1)),
        Mutex(NM.Acquire(1)));
  }

  lemma Drops(name: Label, v: Value)
    ensures Runs(cfg, Later(name, v, map[1 := Unlocking(Set(key, v), Done)], Dropping(), 1, map[1 := 0]),
                 [Mutex(NM.Leave(1))],
                 Later(name, v, map[1 := Dereffing(Set(key, v), Done)], NM.Init(), 1, map[1 := 0]))
  {
    One(Later(name, v, map[1 := Unlocking(Set(key, v), Done)], Dropping(), 1, map[1 := 0]), Mutex(NM.Leave(1)));
  }

  lemma Returns(name: Label, v: Value)
    ensures Runs(cfg, Later(name, v, map[1 := Dereffing(Set(key, v), Done)], NM.Init(), 1, map[1 := 0]),
                 [Deref(1), Return(1)],
                 Later(name, v, map[], NM.Init(), 0, map[]))
  {
    Two(Later(name, v, map[1 := Dereffing(Set(key, v), Done)], NM.Init(), 1, map[1 := 0]), Deref(1), Return(1));
  }

  /** The first half of the set: up to the moment when it has its key locked. */
  lemma LockRun(name: Label, v: Value) returns (run: seq<Step>)
    ensures Runs(cfg, Moment(name, map[], NM.Init(), 0, map[], map[], map[]), run,
                 Moment(name, map[1 := Storing(Set(key, v))], Locked(), 1, map[1 := 0], map[], map[]))
  {
    var s := Moment(name, map[], NM.Init(), 0, map[], map[], map[]);
    Begins(name, v);
    Routes(name, v);
    Enters(name, v);
    Locks(name, v);
    var a, b, c, d := [Invoke(1, Set(key, v)), Start(1)], [Match(1)],
      [Mutex(NM.Create(1, key, 5)), Mutex(NM.Acquire(1))], [Mutex(NM.Leave(1)), Mutex(NM.Lock(1))];
    var routing := Moment(name, map[1 := Routing(Set(key, v))], NM.Init(), 0, map[], map[], map[]);
    var locking := Moment(name, map[1 := Locking(Set(key, v))], NM.Init(), 1, map[1 := 0], map[], map[]);
    var inserting := Moment(name, map[1 := Locking(Set(key, v))], Inserting(), 1, map[1 := 0], map[], map[]);
    var storing := Moment(name, map[1 := Storing(Set(key, v))], Locked(), 1, map[1 := 0], map[], map[]);
    Then(s, a, routing, b, locking);
    Then(s, a + b, locking, c, inserting);
    Then(s, a + b + c, inserting, d, storing);
    run := a + b + c + d;
  }

  /** The second half. */
  lemma ReturnRun(name: Label, v: Value) returns (run: seq<Step>)
    ensures Runs(cfg, Moment(name, map[1 := Storing(Set(key, v))], Locked(), 1, map[1 := 0], map[], map[]), run,
                 Later(name, v, map[], NM.Init(), 0, map[]))
  {
    var s := Moment(name, map[1 := Storing(Set(key, v))], Locked(), 1, map[1 := 0], map[], map[]);
    var unlocking := map[1 := Unlocking(Set(key, v), Done)];
    Writes(name, v);
    Finds(name, v);
    Unlocks(name, v);
    Drops(name, v);
    Returns(name, v);
    var a, b, c, d, e := [Store(1, true, 0), Cache(1, 0)], [Mutex(NM.Acquire(1)), Mutex(NM.Leave(1))],
      [Mutex(NM.Unlock(1)), Mutex(NM.Acquire(1))], [Mutex(NM.Leave(1))], [Deref(1), Return(1)];
    Then(s, a, Later(name, v, unlocking, Locked(), 1, map[1 := 0]), b,
        Later(name, v, unlocking, Finding(), 1, map[1 := 0]));
    Then(s, a + b, Later(name, v, unlocking, Finding(), 1, map[1 := 0]), c,
        Later(name, v, unlocking, Dropping(), 1, map[1 := 0]));
    var dereffing := Later(name, v, map[1 := Dereffing(Set(key, v), Done)], NM.Init(), 1, map[1 := 0]);
    Then(s, a + b + c, Later(name, v, unlocking, Dropping(), 1, map[1 := 0]), d, dereffing);
    Then(s, a + b + c + d, dereffing, e, Later(name, v, map[], NM.Init(), 0, map[]));
    run := a + b + c + d + e;
  }

  lemma SetRun(name: Label, v: Value) returns (run: seq<Step>)
    ensures Runs(cfg, Moment(name, map[], NM.Init(), 0, map[], map[], map[]), run,
              Later(name, v, map[], NM.Init(), 0, map[]))
  {
    var a := LockRun(name, v);
    var b := ReturnRun(name, v);
    Then(Moment(name, map[], NM.Init(), 0, map[], map[], map[]), a,
         Moment(name, map[1 := Storing(Set(key, v))], Locked(), 1, map[1 := 0], map[], map[]), b,
         Later(name, v, map[], NM.Init(), 0, map[]));
    run := a + b;
  }

  lemma StartsInitial(name: Label)
    ensures Initial(Moment(name, map[], NM.Init(), 0, map[], map[], map[]))
  {
    var s := Moment(name, map[], NM.Init(), 0, map[], map[], map[]);
    assert RT.Users(s.route.refs, 0) == {};
  }

  /** A second storage for the key, with another value, is registered. */
  function Rival(name: Label, other: Label, v: Value, w: Value, ops: map<Tid, Pc>): State {
    State(ops, NM.Init(),
          RT.State([1, 0], map[0 := RT.Item(name, ["k"], 0), 1 := RT.Item(other, ["k"], 0)], None, map[]),
          Some(Cached(v)), 0, map[0 := map[key := v], 1 := map[key := w]])
  }

  function Change(other: Label, w: Value): Step { Admin(RT.Register(1, other, ["k"]), map[key := w]) }

  lemma RivalComes(name: Label, other: Label, v: Value, w: Value)
    requires name != other
    ensures var s := Later(name, v, map[], NM.Init(), 0, map[]);
            Enabled(s, Change(other, w)) && Next(cfg, s, Change(other, w)) == Rival(name, other, v, w, map[])
  {
    var s := Later(name, v, map[], NM.Init(), 0, map[]);
    assert RT.Labelled(s.route.list, s.route.items, other).None?;
    assert [1] + [0] == [1, 0];
  }

  lemma RivalServes(name: Label, other: Label, v: Value, w: Value, ops: map<Tid, Pc>)
    ensures var s := Rival(name, other, v, w, ops); RT.Listed(s.route) && Content(s, HomeOf(s), key) == Some(w)
  {
    Serves(other, 0);
    var s := Rival(name, other, v, w, ops);
    assert RT.FirstMatch(s.route.list, s.route.items, key) == Some(1);
  }

  /**
   The run: nothing is in flight when the storage with `w` comes to serve the key, and yet a
   read that begins after that is answered with `v`.  No run of the registers shows that.
   */
  lemma StaleAnswer(name: Label, other: Label, v: Value, w: Value)
    returns (start: State, before: seq<Step>, mid: State, change: Step, end: State)
    requires name != other && v != w
    ensures Initial(start) && Inv(start) && Runs(cfg, start, before, mid) && Inv(mid) && mid.ops == map[]
    ensures change.Admin? && Enabled(mid, change) && Inv(Next(cfg, mid, change))
    ensures var mid' := Next(cfg, mid, change);
            && Content(mid', HomeOf(mid'), key) == Some(w)
            && Runs(cfg, mid', Reading(key), end)
            && History(cfg, mid', Reading(key), end) == [AR.Event.Called(0, Get(key)), AR.Answered(0, Found(v))]
    ensures Runs(cfg, start, Around(before, change, Reading(key)), end)
    ensures !Atomic(cfg, start, Around(before, change, Reading(key)), end)
  {
    start := Moment(name, map[], NM.Init(), 0, map[], map[], map[]);
    mid, change := Later(name, v, map[], NM.Init(), 0, map[]), Change(other, w);
    StartsInitial(name);
    InitialInv(start);
    before := SetRun(name, v);
    InvRuns(cfg, start, before, mid);
    RivalComes(name, other, v, w);
    InvNext(cfg, mid, change);
    Harms(name, other, v, w);
    end := ReadingRuns(cfg, Rival(name, other, v, w, map[]), key);
    HarmNotAtomic(cfg, start, before, mid, change, key, end);
  }

  /** The key is rerouted from the storage with `v`, which is also in the cache, to the one with `w`. */
  lemma Harms(name: Label, other: Label, v: Value, w: Value)
    ensures var s, s' := Later(name, v, map[], NM.Init(), 0, map[]), Rival(name, other, v, w, map[]);
            && RT.Listed(s.route) && RT.Listed(s'.route) && Rerouted(HomeOf(s), HomeOf(s'), key)
            && Live(s, key) && s.cache.value[key].value == v && Content(s', HomeOf(s'), key) == Some(w)
  {
    var s, s' := Later(name, v, map[], NM.Init(), 0, map[]), Rival(name, other, v, w, map[]);
    Serves(name, 0);
    Serves(other, 0);
    RivalServes(name, other, v, w, map[]);
    assert RT.FirstMatch(s.route.list, s.route.items, key) == Some(0);
    assert RT.FirstMatch(s'.route.list, s'.route.items, key) == Some(1);
  }
}
