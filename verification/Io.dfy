/**
 io_get, io_set and io_del (lib/io.c) run by any number of threads over one cache, one
 route, one namespace of mutexes and the storages.  One step is one critical section,
 one storage call, or one lock operation; the clock, the cleaner and the registration
 of storages run beside them.
 */
module Io {
  import opened Names
  import opened Options
  import CM = CacheModel
  import NM = NamedMutex
  import RT = Route

  datatype Op = Get(key: Key) | Set(key: Key, value: Value) | Del(key: Key)

  datatype Result = Found(value: Value) | Done | NotFound | Failed | NoRoute

  /** Where a thread is inside its operation. */
  datatype Pc =
    | Begin(op: Op)
    | Routing(op: Op)                                   // no answer from the cache
    | Locking(op: Op)                                   // in named_mutex_lock
    | Storing(op: Op)
    | Caching(op: Op, result: Result, duration: int)    // the storage call succeeded
    | Unlocking(op: Op, result: Result)                 // in named_mutex_unlock
    | Dereffing(op: Op, result: Result)
    | Returning(op: Op, result: Result)

  datatype State = State(
    ops: map<Tid, Pc>,
    names: NM.State,
    route: RT.State,
    cache: Option<CM.Items<Key, Value>>,                // io->cache may be null
    now: int,
    stores: map<Address, map<Key, Value>>)              // the contents of each registered storage

  datatype Step =
    | Invoke(t: Tid, op: Op)
    | Start(t: Tid)
    | Match(t: Tid)
    | Mutex(m: NM.Step)
    | LockFails(t: Tid)                                 // no memory for a mutex
    | Store(t: Tid, ok: bool, duration: int)            // a storage may fail, and leaves its state then
    | Cache(t: Tid, created: int)                       // cache_set reads the clock before it takes the lock
    | Deref(t: Tid)
    | Return(t: Tid)
    | Tick(time: int)
    | Sweep
    | Admin(r: RT.Step, contents: map<Key, Value>)

  predicate IsAdmin(r: RT.Step) { r.Register? || r.Begin? || r.Look? || r.Finish? }

  /** The thread is in flight on a route item. */
  predicate InFlight(pc: Pc) { pc.Locking? || pc.Storing? || pc.Caching? || pc.Unlocking? || pc.Dereffing? }

  predicate Enabled(s: State, step: Step) {
    match step
    case Invoke(t, _) => t !in s.ops
    case Start(t) => t in s.ops && s.ops[t].Begin?
    case Match(t) => t in s.ops && s.ops[t].Routing? && RT.Enabled(s.route, RT.Match(t, s.ops[t].op.key))
    case Mutex(m) =>
      && m.t in s.ops && NM.Enabled(s.names, m)
      && if s.ops[m.t].Locking? then !m.Unlock? && (m.Create? ==> m.name == s.ops[m.t].op.key)
         else s.ops[m.t].Unlocking? && !m.Create? && !m.Lock?
    case LockFails(t) => t in s.ops && s.ops[t].Locking? && t !in s.names.pcs
    case Store(t, _, _) => t in s.ops && s.ops[t].Storing? && t in s.route.refs && s.route.refs[t] in s.stores
    case Cache(t, _) => t in s.ops && s.ops[t].Caching? && s.cache.Some?
    case Deref(t) => t in s.ops && s.ops[t].Dereffing? && RT.Enabled(s.route, RT.Deref(t))
    case Return(t) => t in s.ops && s.ops[t].Returning?
    case Tick(time) => s.now <= time
    case Sweep => s.cache.Some?
    case Admin(r, _) => IsAdmin(r) && RT.Enabled(s.route, r)
  }

  /** Only io_get looks into the cache first. */
  function Started(cfg: CM.Config, s: State, op: Op): Pc {
    if op.Get? && s.cache.Some? then
      match CM.Get(cfg, s.cache.value, op.key, s.now)
      case Hit(v, _) => Returning(op, Found(v))
      case Miss => Routing(op)
    else Routing(op)
  }

  /** named_mutex_lock returns when the mutex is locked, named_mutex_unlock when the thread is no longer counted. */
  function AfterMutex(pc: Pc, m: NM.Step, names: NM.State): Pc
    requires pc.Locking? || pc.Unlocking?
  {
    if pc.Locking? then (if m.Lock? then Storing(pc.op) else pc)
    else if m.t in names.pcs then pc
    else Dereffing(pc.op, pc.result)
  }

  function Stored(store: map<Key, Value>, op: Op, ok: bool): map<Key, Value> {
    if !ok then store
    else
      match op
      case Get(_) => store
      case Set(k, v) => store[k := v]
      case Del(k) => store - {k}
  }

  function StoreResult(store: map<Key, Value>, op: Op, ok: bool): Result {
    if !ok then Failed
    else if !op.Get? then Done
    else if op.key in store then Found(store[op.key])
    else NotFound
  }

  /** After the storage call: update the cache, unless the call failed or there is no cache. */
  function AfterStore(s: State, store: map<Key, Value>, op: Op, ok: bool, duration: int): Pc {
    var r := StoreResult(store, op, ok);
    if s.cache.Some? && (r.Done? || r.Found?) then Caching(op, r, duration) else Unlocking(op, r)
  }

  function Cached(cfg: CM.Config, m: CM.Items<Key, Value>, pc: Pc, created: int, now: int): CM.Items<Key, Value>
    requires pc.Caching?
  {
    match pc.op
    case Get(k) => if pc.result.Found? then CM.Set(cfg, m, k, pc.result.value, pc.duration, created, now) else m
    case Set(k, v) => CM.Set(cfg, m, k, v, 0, created, now)
    case Del(k) => CM.Del(m, k)
  }

  ghost function Next(cfg: CM.Config, s: State, step: Step): State
    requires Enabled(s, step)
  {
    match step
    case Invoke(t, op) => s.(ops := s.ops[t := Begin(op)])
    case Start(t) => s.(ops := s.ops[t := Started(cfg, s, s.ops[t].op)])
    case Match(t) =>
      var op := s.ops[t].op;
      var found := RT.FirstMatch(s.route.list, s.route.items, op.key).Some?;
      s.(ops := s.ops[t := if found then Locking(op) else Returning(op, NoRoute)],
         route := RT.Next(s.route, RT.Match(t, op.key)))
    case Mutex(m) =>
      var names := NM.Next(s.names, m);
      s.(ops := s.ops[m.t := AfterMutex(s.ops[m.t], m, names)], names := names)
    case LockFails(t) => s.(ops := s.ops[t := Dereffing(s.ops[t].op, Failed)])
    case Store(t, ok, duration) =>
      var op, a := s.ops[t].op, s.route.refs[t];
      s.(ops := s.ops[t := AfterStore(s, s.stores[a], op, ok, duration)],
         stores := s.stores[a := Stored(s.stores[a], op, ok)])
    case Cache(t, created) =>
      s.(ops := s.ops[t := Unlocking(s.ops[t].op, s.ops[t].result)],
         cache := Some(Cached(cfg, s.cache.value, s.ops[t], created, s.now)))
    case Deref(t) =>
      s.(ops := s.ops[t := Returning(s.ops[t].op, s.ops[t].result)], route := RT.Next(s.route, RT.Deref(t)))
    case Return(t) => s.(ops := s.ops - {t})
    case Tick(time) => s.(now := time)
    case Sweep => s.(cache := Some(CM.Sweep(s.cache.value, s.now)))
    case Admin(r, contents) =>
      var route := RT.Next(s.route, r);
      s.(route := route, stores := map a | a in route.items :: if a in s.stores then s.stores[a] else contents)
  }

  /** What a thread's place in its operation says about its place in the lock and in the route. */
  predicate ThreadOk(s: State, t: Tid) {
    && (t in s.route.refs <==> t in s.ops && InFlight(s.ops[t]))
    && (t in s.names.pcs ==> t in s.ops && s.names.pcs[t].name == s.ops[t].op.key)
    && (t in s.ops ==>
          var pc := s.ops[t];
          if pc.Locking? then t in s.names.pcs ==> NM.Private(s.names.pcs[t]) || s.names.pcs[t].Waiting?
          else if pc.Storing? || pc.Caching? then t in s.names.pcs && s.names.pcs[t].Holding?
          else if pc.Unlocking? then t in s.names.pcs && !NM.Private(s.names.pcs[t]) && !s.names.pcs[t].Waiting?
          else t !in s.names.pcs)
  }

  ghost predicate Inv(s: State) {
    && NM.Inv(s.names) && RT.Inv(s.route)
    && (forall t: Tid :: ThreadOk(s, t))
    && (forall a :: a in s.route.items ==> a in s.stores)
    && (forall t :: t in s.ops && s.ops[t].Caching? ==> s.cache.Some?)
  }

  /** Every step keeps each thread's places in line, given that the unlocking thread is counted. */
  lemma ThreadNext(cfg: CM.Config, s: State, step: Step, t: Tid)
    requires Enabled(s, step) && ThreadOk(s, t)
    requires step.Mutex? && step.m.t in s.names.pcs ==> NM.ThreadOk(s.names, step.m.t)
    ensures ThreadOk(Next(cfg, s, step), t)
  {
    if step.Mutex? { MutexThreadNext(cfg, s, step.m, t); }
  }

  lemma MutexThreadNext(cfg: CM.Config, s: State, m: NM.Step, t: Tid)
    requires Enabled(s, Mutex(m)) && ThreadOk(s, t)
    requires m.t in s.names.pcs ==> NM.ThreadOk(s.names, m.t)
    ensures ThreadOk(Next(cfg, s, Mutex(m)), t)
  {
  }

  lemma StoresNext(cfg: CM.Config, s: State, step: Step, a: Address)
    requires Inv(s) && Enabled(s, step) && a in Next(cfg, s, step).route.items
    ensures a in Next(cfg, s, step).stores
  {
  }

  lemma NamesNext(cfg: CM.Config, s: State, step: Step)
    requires NM.Inv(s.names) && RT.Inv(s.route) && Enabled(s, step)
    ensures NM.Inv(Next(cfg, s, step).names) && RT.Inv(Next(cfg, s, step).route)
  {
    match step
    case Match(t) => RT.InvNext(s.route, RT.Match(t, s.ops[t].op.key));
    case Mutex(m) => NM.InvNext(s.names, m);
    case Deref(t) => RT.InvNext(s.route, RT.Deref(t));
    case Admin(r, _) => RT.InvNext(s.route, r);
    case _ =>
  }

  lemma InvNext(cfg: CM.Config, s: State, step: Step)
    requires Inv(s) && Enabled(s, step)
    ensures Inv(Next(cfg, s, step))
  {
    var s' := Next(cfg, s, step);
    NamesNext(cfg, s, step);
    forall t: Tid ensures ThreadOk(s', t) {
      assert ThreadOk(s, t);
      if step.Mutex? && step.m.t in s.names.pcs { NM.ThreadOkOf(s.names, step.m.t); }
      ThreadNext(cfg, s, step, t);
    }
    forall a | a in s'.route.items ensures a in s'.stores { StoresNext(cfg, s, step, a); }
    forall t | t in s'.ops && s'.ops[t].Caching? ensures s'.cache.Some? { CacheKept(cfg, s, step, t); }
  }

  lemma CacheKept(cfg: CM.Config, s: State, step: Step, t: Tid)
    requires Enabled(s, step) && t in Next(cfg, s, step).ops && Next(cfg, s, step).ops[t].Caching?
    requires t in s.ops && s.ops[t].Caching? ==> s.cache.Some?
    ensures Next(cfg, s, step).cache.Some?
  {
  }

  /** No operation in flight: any registered storages, an empty cache or none, and nobody in the namespace. */
  ghost predicate Initial(s: State) {
    && s.ops == map[] && s.names == NM.Init()
    && RT.Inv(s.route) && s.route.refs == map[] && s.route.writer.None?
    && (forall a :: a in s.route.items ==> a in s.stores)
    && (s.cache.Some? ==> s.cache.value == map[])
  }

  ghost predicate Runs(cfg: CM.Config, s: State, run: seq<Step>, end: State)
    decreases |run|
  {
    if run == [] then end == s
    else Enabled(s, run[0]) && Runs(cfg, Next(cfg, s, run[0]), run[1..], end)
  }

  /** Runs can be joined. */
  lemma {:induction false} RunsJoin(cfg: CM.Config, s: State, run: seq<Step>, mid: State, more: seq<Step>, end: State)
    requires Runs(cfg, s, run, mid) && Runs(cfg, mid, more, end)
    ensures Runs(cfg, s, run + more, end)
    decreases |run|
  {
    if run == [] {
      assert run + more == more;
    } else {
      RunsJoin(cfg, Next(cfg, s, run[0]), run[1..], mid, more, end);
      assert (run + more)[0] == run[0] && (run + more)[1..] == run[1..] + more;
    }
  }

  lemma InitialInv(s: State)
    requires Initial(s)
    ensures Inv(s)
  {
  }

  lemma {:induction false} InvRuns(cfg: CM.Config, s: State, run: seq<Step>, end: State)
    requires Inv(s) && Runs(cfg, s, run, end)
    ensures Inv(end)
    decreases |run|
  {
    if run != [] {
      InvNext(cfg, s, run[0]);
      InvRuns(cfg, Next(cfg, s, run[0]), run[1..], end);
    }
  }

  /** The thread is between the storage call and the update of the cache, or before both, with its key locked. */
  predicate Exclusive(pc: Pc) { pc.Storing? || pc.Caching? }

  /** Both are, on the same key. */
  predicate BothExclusive(s: State, t: Tid, u: Tid) {
    && t in s.ops && u in s.ops && Exclusive(s.ops[t]) && Exclusive(s.ops[u])
    && s.ops[t].op.key == s.ops[u].op.key
  }

  /** The operations in flight on a storage. */
  function InFlightOn(s: State, a: Address): set<Tid> {
    set t | t in s.ops && InFlight(s.ops[t]) && t in s.route.refs && s.route.refs[t] == a
  }

  lemma KeyExclusive(s: State, t: Tid, u: Tid)
    requires Inv(s) && t in s.ops && u in s.ops && Exclusive(s.ops[t]) && Exclusive(s.ops[u])
    requires s.ops[t].op.key == s.ops[u].op.key
    ensures t == u
  {
    assert ThreadOk(s, t) && ThreadOk(s, u);
    NM.ThreadOkOf(s.names, t);
    NM.ThreadOkOf(s.names, u);
  }

  /**
   In every state that any number of threads can reach, with storages registered and
   unregistered meanwhile: at most one operation per key is in its storage call or cache
   update; the storage of every operation in flight is registered and alive; the counter of
   a storage is the number of operations in flight on it; and when no operation is in
   flight, no mutex is left.
   */
  lemma Safety(cfg: CM.Config, start: State, run: seq<Step>, s: State)
    requires Initial(start) && Runs(cfg, start, run, s)
    ensures forall t, u :: BothExclusive(s, t, u) ==> t == u
    ensures forall t :: t in s.ops && InFlight(s.ops[t]) ==>
              t in s.route.refs && s.route.refs[t] in s.route.items && s.route.refs[t] in s.stores
    ensures forall a :: a in s.route.items ==>
              s.route.items[a].nref == |InFlightOn(s, a)|
    ensures s.ops == map[] ==> s.names.tree == map[] && s.names.objects == map[]
  {
    InitialInv(start);
    InvRuns(cfg, start, run, s);
    forall t, u | BothExclusive(s, t, u) ensures t == u {
      KeyExclusive(s, t, u);
    }
    forall t | t in s.ops && InFlight(s.ops[t]) ensures t in s.route.refs { assert ThreadOk(s, t); }
    forall a | a in s.route.items
      ensures s.route.items[a].nref == |InFlightOn(s, a)| {
      InFlightUsers(s, a);
    }
    if s.ops == map[] {
      NobodyActive(s);
    }
  }

  lemma InFlightUsers(s: State, a: Address)
    requires Inv(s) && a in s.route.items
    ensures s.route.items[a].nref == |InFlightOn(s, a)|
  {
    assert RT.ItemOk(s.route, a);
    forall t: Tid | t in s.route.refs ensures t in s.ops && InFlight(s.ops[t]) { assert ThreadOk(s, t); }
    assert RT.Users(s.route.refs, a) == InFlightOn(s, a);
  }

  lemma NobodyActive(s: State)
    requires Inv(s) && s.ops == map[]
    ensures s.names.tree == map[] && s.names.objects == map[]
  {
    forall t: Tid ensures t !in s.names.pcs { assert ThreadOk(s, t); }
    NM.NoThreads(s.names);
  }

  predicate Failing(pc: Pc) { (pc.Caching? || pc.Unlocking? || pc.Dereffing? || pc.Returning?) && pc.result.Failed? }

  /** The step is a storage call or a lock of `t` that fails. */
  predicate Fails(step: Step, t: Tid) { (step.LockFails? || (step.Store? && !step.ok)) && step.t == t }

  /** An operation fails only because its own storage call or its own lock did. */
  lemma {:induction false} FailureFromBelow(cfg: CM.Config, s: State, run: seq<Step>, end: State, t: Tid)
    requires Runs(cfg, s, run, end) && (t in s.ops ==> !Failing(s.ops[t]))
    requires forall i :: 0 <= i < |run| ==> !Fails(run[i], t)
    ensures t in end.ops ==> !Failing(end.ops[t])
    decreases |run|
  {
    if run != [] {
      NotFailing(cfg, s, run[0], t);
      FailureFromBelow(cfg, Next(cfg, s, run[0]), run[1..], end, t);
    }
  }

  lemma NotFailing(cfg: CM.Config, s: State, step: Step, t: Tid)
    requires Enabled(s, step) && !Fails(step, t) && (t in s.ops ==> !Failing(s.ops[t]))
    ensures t in Next(cfg, s, step).ops ==> !Failing(Next(cfg, s, step).ops[t])
  {
  }
}
