/**
 Mutexes that exist only while somebody uses their name (lib/infra/named_mutex.c),
 as a transition system over any number of threads.  Taking the namespace lock is
 one step; the critical section with its release is the next one.
 */
module NamedMutex {
  import opened Names
  import opened Options

  /** A mutex object; `holder` is the thread that has locked it. */
  datatype Object = Object(name: Key, nref: int, holder: Option<Tid>)

  /** Where a thread is inside named_mutex_lock and named_mutex_unlock. */
  datatype Pc =
    | Created(name: Key, obj: Address)     // has made an object of its own
    | Inserting(name: Key, obj: Address)   // has the namespace lock
    | Waiting(name: Key, obj: Address)     // counted, about to lock the mutex
    | Holding(name: Key)                      // named_mutex_lock has returned
    | Finding(name: Key)                      // in named_mutex_unlock, has the namespace lock
    | Found(name: Key, obj: Address)       // about to unlock the mutex
    | Released(name: Key, obj: Address)
    | Dropping(name: Key, obj: Address)    // has the namespace lock again

  /** All live objects, and the namespace: its lock and its tree. */
  datatype State = State(objects: map<Address, Object>, lock: Option<Tid>, tree: map<Key, Address>, pcs: map<Tid, Pc>)

  datatype Step =
    | Create(t: Tid, name: Key, obj: Address)
    | Acquire(t: Tid)                          // take the namespace lock
    | Leave(t: Tid)                            // run the critical section and give it back
    | Lock(t: Tid)
    | Unlock(t: Tid)

  predicate Inside(pc: Pc) { pc.Inserting? || pc.Finding? || pc.Dropping? }

  /** Before the thread is counted, its object is its own. */
  predicate Private(pc: Pc) { pc.Created? || pc.Inserting? }

  predicate Holds(pc: Pc) { pc.Holding? || pc.Finding? || pc.Found? }

  function Entered(pc: Pc): Pc
    requires pc.Created? || pc.Holding? || pc.Released?
  {
    match pc
    case Created(n, o) => Inserting(n, o)
    case Holding(n) => Finding(n)
    case Released(n, o) => Dropping(n, o)
  }

  /**
   Whether the step can be taken: the mutex it locks is free, and the object it
   touches is alive.  (A step at an object that was destroyed has no meaning.)
   */
  predicate Enabled(s: State, step: Step) {
    if step.Create? then step.t !in s.pcs && step.obj !in s.objects
    else
      && step.t in s.pcs
      && var pc := s.pcs[step.t];
      match step
      case Acquire(_) => (pc.Created? || pc.Holding? || pc.Released?) && s.lock.None?
      case Leave(_) =>
        && Inside(pc) && (pc.Finding? || pc.obj in s.objects)
        && (pc.Inserting? && pc.name in s.tree ==> s.tree[pc.name] in s.objects)
      case Lock(_) => pc.Waiting? && pc.obj in s.objects && s.objects[pc.obj].holder.None?
      case Unlock(_) => pc.Found? && pc.obj in s.objects
  }

  /** RB_INSERT of the thread's object, which is destroyed when the name is taken, and one more reference. */
  function Inserted(s: State, t: Tid, name: Key, o: Address): State
    requires o in s.objects && (name in s.tree ==> s.tree[name] in s.objects)
  {
    if name in s.tree then
      var there := s.tree[name];
      var counted := s.objects[there := s.objects[there].(nref := s.objects[there].nref + 1)];
      State(counted - {o}, None, s.tree, s.pcs[t := Waiting(name, there)])
    else
      State(s.objects[o := s.objects[o].(nref := s.objects[o].nref + 1)], None, s.tree[name := o],
            s.pcs[t := Waiting(name, o)])
  }

  /** One reference less; the last one removes and destroys the object. */
  function Dropped(s: State, t: Tid, o: Address): State
    requires o in s.objects
  {
    var x := s.objects[o].(nref := s.objects[o].nref - 1);
    if x.nref == 0 then State(s.objects - {o}, None, s.tree - {x.name}, s.pcs - {t})
    else State(s.objects[o := x], None, s.tree, s.pcs - {t})
  }

  function Next(s: State, step: Step): State
    requires Enabled(s, step)
  {
    match step
    case Create(t, name, o) => s.(objects := s.objects[o := Object(name, 0, None)], pcs := s.pcs[t := Created(name, o)])
    case Acquire(t) => s.(lock := Some(t), pcs := s.pcs[t := Entered(s.pcs[t])])
    case Leave(t) =>
      (match s.pcs[t]
       case Inserting(name, o) => Inserted(s, t, name, o)
       case Finding(name) =>
         // ENOENT when the name is not there
         if name in s.tree then s.(lock := None, pcs := s.pcs[t := Found(name, s.tree[name])])
         else s.(lock := None, pcs := s.pcs - {t})
       case Dropping(name, o) => Dropped(s, t, o))
    case Lock(t) =>
      var pc := s.pcs[t];
      s.(objects := s.objects[pc.obj := s.objects[pc.obj].(holder := Some(t))], pcs := s.pcs[t := Holding(pc.name)])
    case Unlock(t) =>
      var pc := s.pcs[t];
      s.(objects := s.objects[pc.obj := s.objects[pc.obj].(holder := None)],
         pcs := s.pcs[t := Released(pc.name, pc.obj)])
  }

  function Init(): State { State(map[], None, map[], map[]) }

  /** The threads that wait for, hold or are releasing a name. */
  function Users(pcs: map<Tid, Pc>, name: Key): set<Tid> {
    set t | t in pcs && !Private(pcs[t]) && pcs[t].name == name
  }

  predicate Published(s: State, o: Address) {
    o in s.objects && s.objects[o].name in s.tree && s.tree[s.objects[o].name] == o
  }

  predicate ThreadOk(s: State, t: Tid)
    requires t in s.pcs
  {
    var pc := s.pcs[t];
    if Private(pc) then pc.obj in s.objects && s.objects[pc.obj] == Object(pc.name, 0, None) && !Published(s, pc.obj)
    else
      && pc.name in s.tree && s.tree[pc.name] in s.objects
      && (pc.Holding? || pc.Finding? || pc.obj == s.tree[pc.name])
      && (Holds(pc) <==> s.objects[s.tree[pc.name]].holder == Some(t))
  }

  /** An object in the tree counts its users and is locked by one of them or by nobody. */
  predicate ObjectOk(s: State, n: Key)
    requires n in s.tree
  {
    && s.tree[n] in s.objects
    && var x := s.objects[s.tree[n]];
    && x.name == n && x.nref == |Users(s.pcs, n)| && x.nref > 0
    && (x.holder.Some? ==> x.holder.value in s.pcs && Holds(s.pcs[x.holder.value]) && s.pcs[x.holder.value].name == n)
  }

  /** Objects outside the tree belong to one thread each. */
  ghost predicate Owned(s: State, o: Address) {
    exists t :: t in s.pcs && Private(s.pcs[t]) && s.pcs[t].obj == o
  }

  /** Two threads before the insertion have different objects. */
  predicate Apart(s: State, t: Tid, u: Tid)
    requires t in s.pcs && u in s.pcs
  {
    t != u && Private(s.pcs[t]) && Private(s.pcs[u]) ==> s.pcs[t].obj != s.pcs[u].obj
  }

  ghost predicate Inv(s: State) {
    && (forall t :: t in s.pcs ==> ThreadOk(s, t))
    && (forall n :: n in s.tree ==> ObjectOk(s, n))
    && (forall t, u :: t in s.pcs && u in s.pcs ==> Apart(s, t, u))
    && (forall o :: o in s.objects ==> Published(s, o) || Owned(s, o))
    && LockOk(s)
  }

  /** The namespace lock is held by the thread inside a critical section, if any. */
  ghost predicate LockOk(s: State) {
    forall t :: s.lock == Some(t) <==> t in s.pcs && Inside(s.pcs[t])
  }

  lemma UsersAdded(pcs: map<Tid, Pc>, t: Tid, pc: Pc)
    requires !Private(pc) && (t in pcs ==> Private(pcs[t]))
    ensures |Users(pcs[t := pc], pc.name)| == |Users(pcs, pc.name)| + 1
    ensures forall n :: n != pc.name ==> Users(pcs[t := pc], n) == Users(pcs, n)
  {
    assert Users(pcs[t := pc], pc.name) == Users(pcs, pc.name) + {t};
  }

  lemma UsersKept(pcs: map<Tid, Pc>, t: Tid, pc: Pc)
    requires Private(pc) <==> t !in pcs || Private(pcs[t])
    requires t in pcs ==> pcs[t].name == pc.name
    ensures forall n :: Users(pcs[t := pc], n) == Users(pcs, n)
  {
  }

  lemma UsersRemoved(pcs: map<Tid, Pc>, t: Tid)
    requires t in pcs && !Private(pcs[t])
    ensures |Users(pcs - {t}, pcs[t].name)| == |Users(pcs, pcs[t].name)| - 1
    ensures forall n :: n != pcs[t].name ==> Users(pcs - {t}, n) == Users(pcs, n)
  {
    assert Users(pcs, pcs[t].name) == Users(pcs - {t}, pcs[t].name) + {t};
  }

  /** The last user is alone. */
  lemma LastUser(s: State, t: Tid, u: Tid)
    requires t in s.pcs && u in s.pcs && !Private(s.pcs[t]) && !Private(s.pcs[u]) && s.pcs[t].name == s.pcs[u].name
    requires |Users(s.pcs, s.pcs[t].name)| == 1
    ensures t == u
  {
    var users := Users(s.pcs, s.pcs[t].name);
    assert t in users && u in users;
    assert |users - {t}| == 0;
    assert u !in users - {t};
  }

  /** The step leaves the thread `u` as it must be. */
  lemma ThreadNext(s: State, step: Step, u: Tid)
    requires Enabled(s, step) && u in Next(s, step).pcs
    requires step.Create? && step.name in s.tree ==> ObjectOk(s, step.name)
    requires step.t in s.pcs ==>
               ThreadOk(s, step.t) && (s.pcs[step.t].name in s.tree ==> ObjectOk(s, s.pcs[step.t].name))
    requires u in s.pcs ==>
               && ThreadOk(s, u) && (step.t in s.pcs ==> Apart(s, step.t, u))
               && (s.pcs[u].name in s.tree ==> ObjectOk(s, s.pcs[u].name))
    ensures ThreadOk(Next(s, step), u)
  {
    if u in s.pcs && step.Leave? && s.pcs[step.t].Dropping? && s.objects[s.pcs[step.t].obj].nref == 1
       && !Private(s.pcs[u]) && s.pcs[u].name == s.pcs[step.t].name {
      LastUser(s, step.t, u);
    }
  }

  /** Who uses a name changes by the stepping thread alone. */
  lemma UsersNext(s: State, step: Step, n: Key)
    requires Enabled(s, step) && (step.t in s.pcs ==> ThreadOk(s, step.t))
    ensures var before, after := |Users(s.pcs, n)|, |Users(Next(s, step).pcs, n)|;
            after == if step.t !in s.pcs || s.pcs[step.t].name != n then before
                     else if s.pcs[step.t].Inserting? && step.Leave? then before + 1
                     else if s.pcs[step.t].Dropping? && step.Leave? then before - 1
                     else before
  {
    var s' := Next(s, step);
    if step.t in s.pcs && s.pcs[step.t].Dropping? && step.Leave? {
      UsersRemoved(s.pcs, step.t);
    } else if step.t in s.pcs && s.pcs[step.t].Inserting? && step.Leave? {
      UsersAdded(s.pcs, step.t, s'.pcs[step.t]);
    } else {
      UsersKept(s.pcs, step.t, s'.pcs[step.t]);
    }
  }

  /** The step leaves the object of the name `n` as it must be. */
  lemma ObjectNext(s: State, step: Step, n: Key)
    requires Enabled(s, step) && n in Next(s, step).tree
    requires step.t in s.pcs ==> ThreadOk(s, step.t)
    requires n in s.tree ==>
               ObjectOk(s, n) && (s.objects[s.tree[n]].holder.Some? ==> ThreadOk(s, s.objects[s.tree[n]].holder.value))
    requires n !in s.tree ==> Users(s.pcs, n) == {}
    requires step.t in s.pcs && s.pcs[step.t].name in s.tree ==> ObjectOk(s, s.pcs[step.t].name)
    ensures ObjectOk(Next(s, step), n)
  {
    UsersNext(s, step, n);
  }

  /** Every live object is in the tree or belongs to a thread. */
  lemma OwnerNext(s: State, step: Step, o: Address)
    requires Inv(s) && Enabled(s, step) && o in Next(s, step).objects
    ensures Published(Next(s, step), o) || Owned(Next(s, step), o)
  {
    var s' := Next(s, step);
    if step.Create? && step.obj == o {
      assert step.t in s'.pcs;
    } else if Published(s, o) {
      PublishedNext(s, step, o);
    } else {
      var u :| u in s.pcs && Private(s.pcs[u]) && s.pcs[u].obj == o;
      assert step.t in s.pcs ==> ThreadOk(s, step.t);
      if u in s'.pcs && Private(s'.pcs[u]) {
        assert s'.pcs[u].obj == o;
      }
    }
  }

  lemma PublishedNext(s: State, step: Step, o: Address)
    requires Enabled(s, step) && Published(s, o) && o in Next(s, step).objects
    requires step.t in s.pcs ==>
               ThreadOk(s, step.t) && (s.pcs[step.t].name in s.tree ==> ObjectOk(s, s.pcs[step.t].name))
    ensures Published(Next(s, step), o)
  {
  }

  lemma ApartNext(s: State, step: Step, t: Tid, u: Tid)
    requires Enabled(s, step) && t in Next(s, step).pcs && u in Next(s, step).pcs
    requires t in s.pcs ==> ThreadOk(s, t)
    requires u in s.pcs ==> ThreadOk(s, u)
    requires t in s.pcs && u in s.pcs ==> Apart(s, t, u)
    ensures Apart(Next(s, step), t, u)
  {
  }

  lemma LockNext(s: State, step: Step)
    requires LockOk(s) && Enabled(s, step)
    ensures LockOk(Next(s, step))
  {
  }

  /** Every step keeps the invariant. */
  lemma InvNext(s: State, step: Step)
    requires Inv(s) && Enabled(s, step)
    ensures Inv(Next(s, step))
  {
    var s' := Next(s, step);
    forall u | u in s'.pcs ensures ThreadOk(s', u) { ThreadNext(s, step, u); }
    forall n | n in s'.tree ensures ObjectOk(s', n) {
      NoUsers(s, n);
      ObjectNext(s, step, n);
    }
    forall t, u | t in s'.pcs && u in s'.pcs ensures Apart(s', t, u) { ApartNext(s, step, t, u); }
    forall o | o in s'.objects ensures Published(s', o) || Owned(s', o) { OwnerNext(s, step, o); }
    LockNext(s, step);
  }

  lemma ThreadOkOf(s: State, t: Tid)
    requires Inv(s) && t in s.pcs
    ensures ThreadOk(s, t)
  {
  }

  lemma HolderCan(s: State, t: Tid)
    requires Inv(s) && s.lock == Some(t)
    ensures t in s.pcs && Inside(s.pcs[t]) && Enabled(s, Leave(t))
  {
    assert t in s.pcs && ThreadOk(s, t);
    if s.pcs[t].name in s.tree { assert ObjectOk(s, s.pcs[t].name); }
  }

  /** A thread outside the critical sections can step when the lock it wants is free. */
  lemma ActiveCan(s: State, t: Tid)
    requires Inv(s) && s.lock.None? && t in s.pcs
    ensures var pc := s.pcs[t];
            && !Inside(pc)
            && (pc.Created? || pc.Holding? || pc.Released? ==> Enabled(s, Acquire(t)))
            && (pc.Waiting? ==> pc.obj in s.objects && (s.objects[pc.obj].holder.None? ==> Enabled(s, Lock(t))))
            && (pc.Found? ==> Enabled(s, Unlock(t)))
  {
    assert ThreadOk(s, t);
    assert s.lock != Some(t);
  }

  /** The thread that another one waits for holds the name and waits for none itself. */
  lemma HolderNotWaiting(s: State, t: Tid)
    requires Inv(s) && t in s.pcs && s.pcs[t].Waiting? && s.pcs[t].obj in s.objects
    requires s.objects[s.pcs[t].obj].holder.Some?
    ensures var u := s.objects[s.pcs[t].obj].holder.value; u in s.pcs && Holds(s.pcs[u])
  {
    assert ThreadOk(s, t);
    assert ObjectOk(s, s.pcs[t].name);
  }

  lemma NoUsers(s: State, n: Key)
    requires forall t :: t in s.pcs ==> ThreadOk(s, t)
    ensures n !in s.tree ==> Users(s.pcs, n) == {}
  {
  }

  lemma NoThreads(s: State)
    requires Inv(s) && s.pcs == map[]
    ensures s.tree == map[] && s.objects == map[] && s.lock.None?
  {
    assert forall n :: Users(s.pcs, n) == {};
  }

  ghost predicate Runs(s: State, run: seq<Step>, end: State)
    decreases |run|
  {
    if run == [] then end == s
    else Enabled(s, run[0]) && Runs(Next(s, run[0]), run[1..], end)
  }

  lemma {:induction false} InvRuns(s: State, run: seq<Step>, end: State)
    requires Inv(s) && Runs(s, run, end)
    ensures Inv(end)
    decreases |run|
  {
    if run != [] {
      InvNext(s, run[0]);
      InvRuns(Next(s, run[0]), run[1..], end);
    }
  }

  /** Both threads hold the mutex of the same name. */
  predicate BothHold(s: State, t: Tid, u: Tid) {
    t in s.pcs && u in s.pcs && Holds(s.pcs[t]) && Holds(s.pcs[u]) && s.pcs[t].name == s.pcs[u].name
  }

  /** The object belongs to one thread that has not inserted it yet. */
  ghost predicate OwnedOnce(s: State, o: Address) {
    exists t :: OwnedBy(s, o, t) && forall u :: OwnedBy(s, o, u) ==> u == t
  }

  predicate OwnedBy(s: State, o: Address, t: Tid) { t in s.pcs && Private(s.pcs[t]) && s.pcs[t].obj == o }

  lemma Unpublished(s: State, o: Address)
    requires Inv(s) && o in s.objects && !Published(s, o)
    ensures s.objects[o].nref == 0 && OwnedOnce(s, o)
  {
    var t :| t in s.pcs && Private(s.pcs[t]) && s.pcs[t].obj == o;
    assert ThreadOk(s, t) && OwnedBy(s, o, t);
    forall u | OwnedBy(s, o, u) ensures u == t { assert Apart(s, t, u); }
  }

  /**
   In every state that threads can reach: a name has at most one holder and one object with
   references, the one in the tree, whose counter is the number of threads that wait for it,
   hold it or are releasing it; every other object belongs to one thread that has not
   inserted it yet; and when no thread is active, the namespace is empty and no object is left.
   */
  lemma NamedLocks(run: seq<Step>, s: State)
    requires Runs(Init(), run, s)
    ensures forall t, u :: BothHold(s, t, u) ==> t == u
    ensures forall n :: n in s.tree ==> s.tree[n] in s.objects && s.objects[s.tree[n]].nref == |Users(s.pcs, n)| > 0
    ensures forall n :: n !in s.tree ==> Users(s.pcs, n) == {}
    ensures forall o :: o in s.objects && s.objects[o].nref > 0 ==> Published(s, o)
    ensures forall o :: o in s.objects && !Published(s, o) ==> s.objects[o].nref == 0 && OwnedOnce(s, o)
    ensures s.pcs == map[] ==> s.tree == map[] && s.objects == map[] && s.lock.None?
  {
    InvRuns(Init(), run, s);
    forall t, u | BothHold(s, t, u) ensures t == u {
      assert ThreadOk(s, t) && ThreadOk(s, u);
    }
    forall n | n in s.tree ensures s.tree[n] in s.objects && s.objects[s.tree[n]].nref == |Users(s.pcs, n)| > 0 {
      assert ObjectOk(s, n);
    }
    forall n | n !in s.tree ensures Users(s.pcs, n) == {} { NoUsers(s, n); }
    forall o | o in s.objects && !Published(s, o) ensures s.objects[o].nref == 0 && OwnedOnce(s, o) {
      Unpublished(s, o);
    }
    if s.pcs == map[] { NoThreads(s); }
  }

  /**
   No thread touches a destroyed object or unlocks a mutex it does not hold: in every
   reachable state a step of an active thread is held up by a lock and nothing else,
   RB_FIND in named_mutex_unlock succeeds and finds the mutex that the thread locked, and
   an object destroyed because its name is taken has never been referenced.
   */
  lemma NoDanglingObject(run: seq<Step>, s: State, t: Tid)
    requires Runs(Init(), run, s) && t in s.pcs
    ensures var pc := s.pcs[t];
            && (pc.Created? || pc.Holding? || pc.Released? ==> (Enabled(s, Acquire(t)) <==> s.lock.None?))
            && (Inside(pc) ==> s.lock == Some(t) && Enabled(s, Leave(t)))
            && (pc.Inserting? ==> s.objects[pc.obj].nref == 0)
            && (pc.Finding? ==>
                  pc.name in s.tree && s.tree[pc.name] in s.objects && s.objects[s.tree[pc.name]].holder == Some(t))
            && (pc.Waiting? ==> pc.obj in s.objects && (Enabled(s, Lock(t)) <==> s.objects[pc.obj].holder.None?))
            && (pc.Found? ==> Enabled(s, Unlock(t)) && s.objects[pc.obj].holder == Some(t))
  {
    InvRuns(Init(), run, s);
    assert ThreadOk(s, t);
    if s.pcs[t].name in s.tree { assert ObjectOk(s, s.pcs[t].name); }
  }
}
