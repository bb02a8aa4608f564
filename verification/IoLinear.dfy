/**
 The key operations as operations on atomic registers: the relation between the two, and
 its preservation by every step of an operation.  Cache hits are read without the key lock.
 Sets and deletions take effect when they update the cache, or at the storage call when
 there is no cache; reads at the cache hit or at the storage call.
 */
module IoLinear {
  import opened Names
  import opened Options
  import opened Io
  import AR = AtomicRegisters
  import CM = CacheModel
  import RT = Route

  /** Whether an operation has already acted on its register, and with which result. */
  function Status(pc: Pc): AR.Pending {
    if pc.Begin? || pc.Routing? || pc.Locking? || pc.Storing? || (pc.Caching? && !pc.op.Get?)
    then AR.Pending.Called(pc.op)
    else AR.Acted(pc.op, pc.result)
  }

  /** The step of the registers that a step of the program stands for. */
  ghost function Image(cfg: CM.Config, s: State, step: Step): Option<AR.Step>
    requires Enabled(s, step)
  {
    match step
    case Invoke(t, op) => Some(AR.Call(t, op))
    case Start(t) =>
      var pc := Started(cfg, s, s.ops[t].op);
      if pc.Returning? then Some(AR.Act(t, pc.result)) else None
    case Match(t) =>
      var found := RT.FirstMatch(s.route.list, s.route.items, s.ops[t].op.key);
      if found.None? then Some(AR.Act(t, NoRoute)) else None
    case LockFails(t) => Some(AR.Act(t, Failed))
    case Store(t, ok, duration) =>
      var pc := AfterStore(s, s.stores[s.route.refs[t]], s.ops[t].op, ok, duration);
      if Status(pc).Acted? then Some(AR.Act(t, pc.result)) else None
    case Cache(t, _) => if s.ops[t].op.Get? then None else Some(AR.Act(t, s.ops[t].result))
    case Return(t) => Some(AR.Answer(t, s.ops[t].result))
    case _ => None
  }

  /** The storage that serves each key. */
  type Home = imap<Key, Address>

  ghost predicate HomeOk(s: State, home: Home, k: Key)
    requires RT.Listed(s.route)
  {
    RT.FirstMatch(s.route.list, s.route.items, k) == (if k in home then Some(home[k]) else None)
  }

  /** What the storage of the key holds. */
  ghost function Content(s: State, home: Home, k: Key): Option<Value> {
    if k in home && home[k] in s.stores && k in s.stores[home[k]] then Some(s.stores[home[k]][k]) else None
  }

  /** Between the storage call and the cache update of a write. */
  predicate Writing(s: State, t: Tid, k: Key) {
    t in s.ops && s.ops[t].Caching? && !s.ops[t].op.Get? && s.ops[t].op.key == k
  }

  /** What a thread about to update the cache knows: its value is in the storage. */
  ghost predicate CachingRel(s: State, a: AR.State, home: Home, pc: Pc)
    requires pc.Caching?
  {
    match pc.op
    case Get(k) => k in a.values && pc.result.Found? && Content(s, home, k) == Some(pc.result.value) == a.values[k]
    case Set(k, v) => pc.result.Done? && Content(s, home, k) == Some(v)
    case Del(k) => pc.result.Done? && Content(s, home, k) == None
  }

  /** The operation has chosen its storage and has not yet finished with storage and cache. */
  predicate Committed(pc: Pc) { pc.Locking? || pc.Storing? || pc.Caching? }

  ghost predicate ThreadRel(s: State, a: AR.State, home: Home, t: Tid) {
    && (t in s.ops <==> t in a.pending)
    && (t in s.ops ==>
          var pc := s.ops[t];
          && a.pending[t] == Status(pc)
          && (Committed(pc) ==> pc.op.key in home && t in s.route.refs && s.route.refs[t] == home[pc.op.key])
          && (pc.Caching? ==> CachingRel(s, a, home, pc)))
  }

  ghost predicate Unsettled(s: State, k: Key) { exists t :: Writing(s, t, k) }

  /**
   A register is what its storage holds, unless a write is about to act; a live cache entry
   always equals the register.
   */
  ghost predicate KeyRel(s: State, a: AR.State, home: Home, k: Key) {
    && k in a.values
    && (a.values[k] == Content(s, home, k) || Unsettled(s, k))
    && (a.values[k].Some? ==> k in home)
    && (s.cache.Some? && k in s.cache.value && !CM.Outdated(s.cache.value[k], s.now) ==>
          a.values[k] == Some(s.cache.value[k].value))
  }

  ghost predicate Rel(s: State, a: AR.State, home: Home) {
    && Inv(s) && a.routed == home.Keys
    && (forall k :: HomeOk(s, home, k))
    && (forall t: Tid :: ThreadRel(s, a, home, t))
    && (forall k :: KeyRel(s, a, home, k))
  }

  ghost function After(a: AR.State, image: Option<AR.Step>): AR.State
    requires image.Some? ==> AR.Enabled(a, image.value)
  {
    if image.Some? then AR.Next(a, image.value) else a
  }

  lemma {:induction false} FirstMatchSame(list: seq<Address>, items: map<Address, RT.Item>,
                                          items': map<Address, RT.Item>, k: Key)
    requires forall a :: a in list ==> a in items && a in items' && items[a].prefixes == items'[a].prefixes
    ensures RT.FirstMatch(list, items, k) == RT.FirstMatch(list, items', k)
  {
    if list != [] { FirstMatchSame(list[1..], items, items', k); }
  }

  /** Counting references does not change which storage serves a key. */
  lemma HomeNext(cfg: CM.Config, s: State, step: Step, home: Home, k: Key)
    requires Inv(s) && Enabled(s, step) && !step.Admin? && HomeOk(s, home, k)
    ensures RT.Listed(Next(cfg, s, step).route) && HomeOk(Next(cfg, s, step), home, k)
  {
    var s' := Next(cfg, s, step);
    if step.Match? || step.Deref? {
      FirstMatchSame(s.route.list, s.route.items, s'.route.items, k);
    }
  }

  /** The thread that takes the step, if an operation does. */
  function Actor(step: Step): Option<Tid> {
    match step
    case Invoke(t, _) => Some(t)
    case Start(t) => Some(t)
    case Match(t) => Some(t)
    case Mutex(m) => Some(m.t)
    case LockFails(t) => Some(t)
    case Store(t, _, _) => Some(t)
    case Cache(t, _) => Some(t)
    case Deref(t) => Some(t)
    case Return(t) => Some(t)
    case _ => None
  }

  /** Nobody else is at the register of a thread that has its key locked. */
  lemma Settled(s: State, t: Tid)
    requires Inv(s) && t in s.ops && Exclusive(s.ops[t])
    ensures Unsettled(s, s.ops[t].op.key) ==> Writing(s, t, s.ops[t].op.key)
  {
    var k := s.ops[t].op.key;
    if Unsettled(s, k) {
      var u :| Writing(s, u, k);
      KeyExclusive(s, t, u);
    }
  }

  /** What is known about the actor of a step and its key. */
  ghost predicate ActorRel(s: State, a: AR.State, home: Home, step: Step) {
    Actor(step).Some? && Actor(step).value in s.ops ==>
      var t := Actor(step).value; var k := s.ops[t].op.key;
      && RT.Listed(s.route) && HomeOk(s, home, k)
      && ThreadRel(s, a, home, t) && KeyRel(s, a, home, k)
      && (Exclusive(s.ops[t]) && Unsettled(s, k) ==> Writing(s, t, k))
      && (s.ops[t].Caching? ==> s.cache.Some?)
  }

  lemma ActorKnown(s: State, a: AR.State, home: Home, step: Step)
    requires Rel(s, a, home)
    ensures ActorRel(s, a, home, step)
  {
    if Actor(step).Some? && Actor(step).value in s.ops {
      var t := Actor(step).value;
      assert ThreadRel(s, a, home, t) && KeyRel(s, a, home, s.ops[t].op.key) && HomeOk(s, home, s.ops[t].op.key);
      if Exclusive(s.ops[t]) { Settled(s, t); }
    }
  }

  /** The registers allow what the program does. */
  lemma ImageEnabled(cfg: CM.Config, s: State, a: AR.State, home: Home, step: Step)
    requires Enabled(s, step) && ActorRel(s, a, home, step) && a.routed == home.Keys
    requires step.Invoke? ==> ThreadRel(s, a, home, step.t)
    ensures Image(cfg, s, step).Some? ==> AR.Enabled(a, Image(cfg, s, step).value)
  {
  }

  /** The program and the registers before a step, and what is known about its actor. */
  ghost predicate Ready(cfg: CM.Config, s: State, a: AR.State, home: Home, step: Step) {
    && Enabled(s, step) && !step.Admin? && ActorRel(s, a, home, step)
    && (step.Invoke? ==> ThreadRel(s, a, home, step.t))
    && (Image(cfg, s, step).Some? ==> AR.Enabled(a, Image(cfg, s, step).value))
  }

  lemma ActorNext(cfg: CM.Config, s: State, a: AR.State, home: Home, step: Step)
    requires Ready(cfg, s, a, home, step) && Actor(step).Some?
    ensures ThreadRel(Next(cfg, s, step), After(a, Image(cfg, s, step)), home, Actor(step).value)
  {
    if step.Store? {
      StoreActor(cfg, s, a, home, step);
    } else if step.Match? {
      MatchActor(cfg, s, a, home, step);
    } else if step.Mutex? || step.Deref? {
      QuietActor(cfg, s, a, home, step);
    }
  }

  /** Steps in the lock and the last one in the route do not act. */
  lemma QuietActor(cfg: CM.Config, s: State, a: AR.State, home: Home, step: Step)
    requires Ready(cfg, s, a, home, step) && (step.Mutex? || step.Deref?)
    ensures ThreadRel(Next(cfg, s, step), After(a, Image(cfg, s, step)), home, Actor(step).value)
  {
  }

  lemma MatchActor(cfg: CM.Config, s: State, a: AR.State, home: Home, step: Step)
    requires Ready(cfg, s, a, home, step) && step.Match?
    ensures ThreadRel(Next(cfg, s, step), After(a, Image(cfg, s, step)), home, step.t)
  {
  }

  lemma StoreActor(cfg: CM.Config, s: State, a: AR.State, home: Home, step: Step)
    requires Ready(cfg, s, a, home, step) && step.Store?
    ensures ThreadRel(Next(cfg, s, step), After(a, Image(cfg, s, step)), home, step.t)
  {
  }

  /** The actor and `u` are not both at work on the same key. */
  predicate Separated(s: State, step: Step, u: Tid) {
    Actor(step).Some? && Actor(step).value in s.ops && u in s.ops && Exclusive(s.ops[u]) ==>
      Exclusive(s.ops[Actor(step).value]) ==> s.ops[u].op.key != s.ops[Actor(step).value].op.key
  }

  lemma OtherNext(cfg: CM.Config, s: State, a: AR.State, home: Home, step: Step, u: Tid)
    requires Ready(cfg, s, a, home, step) && ThreadRel(s, a, home, u) && Actor(step) != Some(u)
    requires Separated(s, step, u)
    ensures ThreadRel(Next(cfg, s, step), After(a, Image(cfg, s, step)), home, u)
  {
    if step.Store? {
      StoreOther(cfg, s, a, home, step, u);
    } else if step.Match? || step.Mutex? || step.Deref? {
      QuietOther(cfg, s, a, home, step, u);
    }
  }

  lemma QuietOther(cfg: CM.Config, s: State, a: AR.State, home: Home, step: Step, u: Tid)
    requires Ready(cfg, s, a, home, step) && ThreadRel(s, a, home, u) && Actor(step) != Some(u)
    requires (step.Match? || step.Mutex? || step.Deref?)
    ensures ThreadRel(Next(cfg, s, step), After(a, Image(cfg, s, step)), home, u)
  {
  }

  lemma StoreOther(cfg: CM.Config, s: State, a: AR.State, home: Home, step: Step, u: Tid)
    requires Ready(cfg, s, a, home, step) && ThreadRel(s, a, home, u) && step.Store? && step.t != u
    requires u in s.ops && Exclusive(s.ops[u]) ==> s.ops[u].op.key != s.ops[step.t].op.key
    ensures ThreadRel(Next(cfg, s, step), After(a, Image(cfg, s, step)), home, u)
  {
  }

  lemma StillUnsettled(cfg: CM.Config, s: State, step: Step, k: Key)
    requires Enabled(s, step) && Unsettled(s, k) && !(step.Cache? && s.ops[step.t].op.key == k)
    ensures Unsettled(Next(cfg, s, step), k)
  {
    var t :| Writing(s, t, k);
    assert Writing(Next(cfg, s, step), t, k);
  }

  lemma KeyRelNext(cfg: CM.Config, s: State, a: AR.State, home: Home, step: Step, k: Key)
    requires Ready(cfg, s, a, home, step) && KeyRel(s, a, home, k)
    ensures KeyRel(Next(cfg, s, step), After(a, Image(cfg, s, step)), home, k)
  {
    if Unsettled(s, k) && !(step.Cache? && s.ops[step.t].op.key == k) { StillUnsettled(cfg, s, step, k); }
    if step.Store? { StoreKey(cfg, s, a, home, step, k); }
  }

  lemma StoreKey(cfg: CM.Config, s: State, a: AR.State, home: Home, step: Step, k: Key)
    requires Ready(cfg, s, a, home, step) && KeyRel(s, a, home, k) && step.Store?
    ensures KeyRel(Next(cfg, s, step), After(a, Image(cfg, s, step)), home, k)
  {
    var s' := Next(cfg, s, step);
    if Unsettled(s, k) { StillUnsettled(cfg, s, step, k); }
    if s.ops[step.t].op.key == k && !s.ops[step.t].op.Get? {
      assert s'.ops[step.t].Caching? ==> Writing(s', step.t, k);
    }
  }

  /** Every step of the program is no step or one step of the registers. */
  lemma RelNext(cfg: CM.Config, s: State, a: AR.State, home: Home, step: Step)
    requires Rel(s, a, home) && Enabled(s, step) && !step.Admin?
    ensures Image(cfg, s, step).Some? ==> AR.Enabled(a, Image(cfg, s, step).value)
    ensures Rel(Next(cfg, s, step), After(a, Image(cfg, s, step)), home)
  {
    ActorKnown(s, a, home, step);
    assert step.Invoke? ==> ThreadRel(s, a, home, step.t);
    ImageEnabled(cfg, s, a, home, step);
    var s', a' := Next(cfg, s, step), After(a, Image(cfg, s, step));
    InvNext(cfg, s, step);
    forall k ensures HomeOk(s', home, k) {
      assert HomeOk(s, home, k);
      HomeNext(cfg, s, step, home, k);
    }
    forall t: Tid ensures ThreadRel(s', a', home, t) { ThreadRelNext(cfg, s, a, home, step, t); }
    forall k ensures KeyRel(s', a', home, k) {
      assert KeyRel(s, a, home, k);
      KeyRelNext(cfg, s, a, home, step, k);
    }
  }

  lemma ThreadRelNext(cfg: CM.Config, s: State, a: AR.State, home: Home, step: Step, u: Tid)
    requires Rel(s, a, home) && Ready(cfg, s, a, home, step)
    ensures ThreadRel(Next(cfg, s, step), After(a, Image(cfg, s, step)), home, u)
  {
    assert ThreadRel(s, a, home, u);
    if Actor(step) == Some(u) {
      ActorNext(cfg, s, a, home, step);
    } else {
      Apart(s, step, u);
      OtherNext(cfg, s, a, home, step, u);
    }
  }

  lemma Apart(s: State, step: Step, u: Tid)
    requires Inv(s) && Actor(step) != Some(u)
    ensures Separated(s, step, u)
  {
    if Actor(step).Some? && Actor(step).value in s.ops && u in s.ops && Exclusive(s.ops[u])
       && Exclusive(s.ops[Actor(step).value])
       && s.ops[u].op.key == s.ops[Actor(step).value].op.key {
      KeyExclusive(s, u, Actor(step).value);
    }
  }

  ghost function HomeOf(s: State): Home
    requires RT.Listed(s.route)
  {
    imap k | RT.FirstMatch(s.route.list, s.route.items, k).Some? :: RT.FirstMatch(s.route.list, s.route.items, k).value
  }

  /** Program and registers, with the storages that serve the keys at the moment. */
  ghost predicate Related(s: State, a: AR.State) { Inv(s) && Rel(s, a, HomeOf(s)) }

  /** The registers that the program starts with: the contents of its storages. */
  ghost function Registers(s: State): AR.State
    requires RT.Listed(s.route)
  {
    var home := HomeOf(s);
    AR.State(imap k: Key | true :: Content(s, home, k), home.Keys, map[])
  }

  lemma InitialRel(s: State)
    requires Initial(s)
    ensures Related(s, Registers(s))
  {
    InitialInv(s);
    var home, a := HomeOf(s), Registers(s);
    forall k ensures KeyRel(s, a, home, k) { assert k in a.values; }
  }

  lemma Coherent(s: State, a: AR.State, k: Key)
    requires Related(s, a)
    ensures k in a.values
    ensures s.cache.Some? && k in s.cache.value && !CM.Outdated(s.cache.value[k], s.now) ==>
              a.values[k] == Some(s.cache.value[k].value)
    ensures s.ops == map[] ==> a.values[k] == Content(s, HomeOf(s), k)
  {
    assert KeyRel(s, a, HomeOf(s), k);
  }
}
