/**
 Progress of the key operations: threads never block each other for good, and every
 operation ends after a bounded number of its own steps.
 */
module IoProgress {
  import opened Names
  import opened Options
  import opened Io
  import CM = CacheModel
  import NM = NamedMutex
  import RT = Route
  import opened Sums

  /** A step of an operation or of an unregistration that has begun. */
  predicate Working(step: Step) {
    || step.Start? || step.Match? || step.Mutex? || step.LockFails?
    || step.Store? || step.Cache? || step.Deref? || step.Return?
    || (step.Admin? && (step.r.Look? || step.r.Finish?))
  }

  function Worker(step: Step): Tid
    requires Working(step) && !step.Admin?
  {
    if step.Mutex? then step.m.t else step.t
  }

  /** All operations and unregistrations have ended. */
  predicate Idle(s: State) { s.ops == map[] && s.route.writer.None? }

  /** A new object can always be placed somewhere. */
  lemma Room(objects: map<Address, NM.Object>) returns (o: Address)
    ensures o !in objects
  {
    o := Above(objects.Keys);
  }

  lemma {:induction false} Above(s: set<Address>) returns (o: Address)
    ensures forall x :: x in s ==> x < o
    decreases s
  {
    if s == {} {
      o := 0;
    } else {
      var x :| x in s;
      var y := Above(s - {x});
      o := if x < y then y else x + 1;
      assert forall z :: z in s ==> z == x || z in s - {x};
    }
  }

  /** The thread inside a critical section of the namespace can leave it: it waits for no other lock there. */
  lemma LockHolderCan(s: State)
    requires Inv(s) && s.names.lock.Some?
    ensures Enabled(s, Mutex(NM.Leave(s.names.lock.value)))
  {
    var t := s.names.lock.value;
    NM.HolderCan(s.names, t);
    assert ThreadOk(s, t);
  }

  /** The thread waits for a mutex that another one holds. */
  predicate Blocked(s: State, t: Tid) {
    && t in s.names.pcs && s.names.pcs[t].Waiting? && s.names.pcs[t].obj in s.names.objects
    && s.names.objects[s.names.pcs[t].obj].holder.Some?
  }

  /** With the other two locks free, only a thread that waits for a name cannot step. */
  lemma ThreadCan(s: State, t: Tid) returns (step: Step)
    requires Inv(s) && s.route.writer.None? && s.names.lock.None? && t in s.ops && !Blocked(s, t)
    ensures Working(step) && Enabled(s, step)
  {
    assert ThreadOk(s, t);
    var pc := s.ops[t];
    match pc
    case Begin(_) => step := Start(t);
    case Routing(_) => step := Match(t);
    case Locking(op) =>
      if t in s.names.pcs {
        NM.ActiveCan(s.names, t);
        step := Mutex(if s.names.pcs[t].Created? then NM.Acquire(t) else NM.Lock(t));
      } else {
        var o := Room(s.names.objects);
        step := Mutex(NM.Create(t, op.key, o));
      }
    case Storing(_) => step := Store(t, true, 0);
    case Caching(_, _, _) => step := Cache(t, s.now);
    case Unlocking(_, _) =>
      NM.ActiveCan(s.names, t);
      step := Mutex(if s.names.pcs[t].Found? then NM.Unlock(t) else NM.Acquire(t));
    case Dereffing(_, _) => step := Deref(t);
    case Returning(_, _) => step := Return(t);
  }

  /** The thread that holds the mutex that `t` waits for. */
  function HolderOf(s: State, t: Tid): Tid
    requires Blocked(s, t)
  {
    s.names.objects[s.names.pcs[t].obj].holder.value
  }

  /**
   Whoever waits for a name waits for a thread that can step, or that waits for nothing but
   the namespace lock, whose holder can step.
   */
  lemma WaitedForCan(s: State, t: Tid) returns (step: Step)
    requires Inv(s) && Blocked(s, t)
    ensures Working(step) && !step.Admin? && Enabled(s, step)
    ensures Worker(step) == HolderOf(s, t) || (s.names.lock.Some? && step == Mutex(NM.Leave(s.names.lock.value)))
  {
    var u := HolderOf(s, t);
    NM.HolderNotWaiting(s.names, t);
    NM.ThreadOkOf(s.names, u);
    assert ThreadOk(s, u);
    match s.ops[u]
    case Storing(_) => step := Store(u, true, 0);
    case Caching(_, _, _) => step := Cache(u, s.now);
    case Unlocking(_, _) =>
      if s.names.lock.Some? {
        LockHolderCan(s);
        step := Mutex(NM.Leave(s.names.lock.value));
      } else {
        NM.ActiveCan(s.names, u);
        step := Mutex(if s.names.pcs[u].Found? then NM.Unlock(u) else NM.Acquire(u));
      }
  }

  /** Somebody can always step while something is unfinished. */
  lemma SomebodyCan(s: State) returns (step: Step)
    requires Inv(s) && !Idle(s)
    ensures Working(step) && Enabled(s, step)
  {
    if s.route.writer.Some? {
      step := Admin(if s.route.writer.value.Looking? then RT.Look else RT.Finish, map[]);
    } else if s.names.lock.Some? {
      LockHolderCan(s);
      step := Mutex(NM.Leave(s.names.lock.value));
    } else {
      var t :| t in s.ops;
      if Blocked(s, t) {
        step := WaitedForCan(s, t);
      } else {
        step := ThreadCan(s, t);
      }
    }
  }

  /** The steps that the thread has still to take. */
  function Left(s: State, t: Tid): nat
    requires t in s.ops
  {
    match s.ops[t]
    case Begin(_) => 15
    case Routing(_) => 14
    case Locking(_) =>
      if t !in s.names.pcs then 13
      else if s.names.pcs[t].Created? then 12
      else if s.names.pcs[t].Inserting? then 11 else 10
    case Storing(_) => 9
    case Caching(_, _, _) => 8
    case Unlocking(_, _) =>
      if t !in s.names.pcs || s.names.pcs[t].Holding? then 7
      else if s.names.pcs[t].Finding? then 6
      else if s.names.pcs[t].Found? then 5
      else if s.names.pcs[t].Released? then 4 else 3
    case Dereffing(_, _) => 2
    case Returning(_, _) => 1
  }

  function WriterLeft(r: RT.State): (n: nat)
    ensures n <= 2 * |r.items| + 2 && (n == 0 <==> r.writer.None?)
  {
    if r.writer.None? then 0 else 2 * |r.items| + if r.writer.value.Looking? then 2 else 1
  }

  ghost function Lefts(s: State): map<Tid, nat> { map t | t in s.ops :: Left(s, t) }

  /** The steps that all threads together have still to take. */
  ghost function Work(s: State): nat { Sum(Lefts(s)) + WriterLeft(s.route) }

  lemma LeftsBounded(s: State)
    ensures Sum(Lefts(s)) <= 15 * |s.ops|
  {
    SumBounded(Lefts(s), 15);
    assert Lefts(s).Keys == s.ops.Keys;
  }

  lemma WorkBounded(s: State)
    ensures Work(s) <= 15 * |s.ops| + WriterLeft(s.route)
  {
    LeftsBounded(s);
  }

  /** A step brings its own thread forward. */
  lemma OwnLeft(cfg: CM.Config, s: State, step: Step)
    requires Working(step) && !step.Admin? && !step.Mutex? && Enabled(s, step) && ThreadOk(s, step.t)
    ensures step.t in s.ops && (step.t in Next(cfg, s, step).ops ==> Left(Next(cfg, s, step), step.t) < Left(s, step.t))
  {
  }

  /** An operation leaves a writer where it is. */
  lemma WriterUndisturbed(cfg: CM.Config, s: State, step: Step)
    requires Working(step) && !step.Admin? && Enabled(s, step)
    ensures WriterLeft(Next(cfg, s, step).route) == WriterLeft(s.route)
  {
  }

  lemma MutexLeft(cfg: CM.Config, s: State, m: NM.Step)
    requires Enabled(s, Mutex(m)) && ThreadOk(s, m.t)
    ensures m.t in s.ops && m.t in Next(cfg, s, Mutex(m)).ops && Left(Next(cfg, s, Mutex(m)), m.t) < Left(s, m.t)
  {
  }

  /** And no other one. */
  lemma OtherLeft(cfg: CM.Config, s: State, step: Step, u: Tid)
    requires Working(step) && !step.Admin? && Enabled(s, step) && u != Worker(step)
    ensures var s' := Next(cfg, s, step); (u in s.ops <==> u in s'.ops) && (u in s.ops ==> Left(s', u) == Left(s, u))
  {
    var s' := Next(cfg, s, step);
    assert u in s.ops ==> u in s'.ops && s'.ops[u] == s.ops[u];
    assert u in s.names.pcs <==> u in s'.names.pcs;
    assert u in s.names.pcs ==> s'.names.pcs[u] == s.names.pcs[u];
  }

  lemma WriterLess(r: RT.State, step: RT.Step)
    requires RT.Inv(r) && RT.Enabled(r, step) && (step.Look? || step.Finish?)
    ensures WriterLeft(RT.Next(r, step)) < WriterLeft(r)
  {
    var w := r.writer.value;
    if step.Finish? && w.nref == 0 {
      assert (r.items - {w.item}).Keys == r.items.Keys - {w.item};
      assert |(r.items - {w.item}).Keys| == |r.items.Keys| - 1;
    }
  }

  lemma WorkLess(cfg: CM.Config, s: State, step: Step)
    requires Inv(s) && Working(step) && Enabled(s, step)
    ensures Work(Next(cfg, s, step)) < Work(s)
  {
    if step.Admin? {
      AdminLess(cfg, s, step);
    } else {
      OpLess(cfg, s, step);
    }
  }

  lemma AdminLess(cfg: CM.Config, s: State, step: Step)
    requires Inv(s) && Working(step) && step.Admin? && Enabled(s, step)
    ensures Work(Next(cfg, s, step)) < Work(s)
  {
    WriterLess(s.route, step.r);
    SameLefts(s, Next(cfg, s, step));
  }

  lemma SameLefts(s: State, s': State)
    requires s'.ops == s.ops && s'.names == s.names
    ensures Lefts(s') == Lefts(s)
  {
    forall t | t in s.ops ensures Left(s', t) == Left(s, t) { }
  }

  lemma OpLess(cfg: CM.Config, s: State, step: Step)
    requires Inv(s) && Working(step) && !step.Admin? && Enabled(s, step)
    ensures Work(Next(cfg, s, step)) < Work(s) && Sum(Lefts(Next(cfg, s, step))) < Sum(Lefts(s))
  {
    var s', t := Next(cfg, s, step), Worker(step);
    forall u: Tid | u != t ensures (u in s.ops <==> u in s'.ops) && (u in s.ops ==> Left(s', u) == Left(s, u)) {
      OtherLeft(cfg, s, step, u);
    }
    assert ThreadOk(s, t);
    WriterUndisturbed(cfg, s, step);
    if step.Mutex? { MutexLeft(cfg, s, step.m); } else { OwnLeft(cfg, s, step); }
    SumLess(Lefts(s), Lefts(s'), t);
  }

  /** Every run without new arrivals is at most as long as the work at its start. */
  lemma {:induction false} RunBounded(cfg: CM.Config, s: State, run: seq<Step>, end: State)
    requires Inv(s) && Runs(cfg, s, run, end) && forall i :: 0 <= i < |run| ==> Working(run[i])
    ensures |run| + Work(end) <= Work(s)
    decreases |run|
  {
    if run != [] {
      WorkLess(cfg, s, run[0]);
      InvNext(cfg, s, run[0]);
      RunBounded(cfg, Next(cfg, s, run[0]), run[1..], end);
    }
  }

  /** How many steps of operations a run has, and how many operations begin in it. */
  function OwnSteps(run: seq<Step>): nat {
    if run == [] then 0 else (if Working(run[0]) && !run[0].Admin? then 1 else 0) + OwnSteps(run[1..])
  }

  function Invokes(run: seq<Step>): nat {
    if run == [] then 0 else (if run[0].Invoke? then 1 else 0) + Invokes(run[1..])
  }

  /** The clock, the cleaner and the route. */
  function Others(run: seq<Step>): nat {
    if run == [] then 0 else (if run[0].Tick? || run[0].Sweep? || run[0].Admin? then 1 else 0) + Others(run[1..])
  }

  /** These are all the steps of a run. */
  lemma {:induction false} EveryStep(run: seq<Step>)
    ensures OwnSteps(run) + Invokes(run) + Others(run) == |run|
  {
    if run != [] { EveryStep(run[1..]); }
  }

  /** A new operation brings 15 steps, and no other step of the environment brings any. */
  lemma LeftsNext(cfg: CM.Config, s: State, step: Step)
    requires Enabled(s, step) && !(Working(step) && !step.Admin?)
    ensures Sum(Lefts(Next(cfg, s, step))) == Sum(Lefts(s)) + if step.Invoke? then 15 else 0
  {
    var s' := Next(cfg, s, step);
    if step.Invoke? {
      SumAdded(Lefts(s), step.t, 15);
      assert Lefts(s') == Lefts(s)[step.t := 15];
    } else {
      SameLefts(s, s');
    }
  }

  lemma {:induction false} OwnStepsBounded(cfg: CM.Config, s: State, run: seq<Step>, end: State)
    requires Inv(s) && Runs(cfg, s, run, end)
    ensures OwnSteps(run) + Sum(Lefts(end)) <= Sum(Lefts(s)) + 15 * Invokes(run)
    decreases |run|
  {
    if run != [] {
      InvNext(cfg, s, run[0]);
      OwnStepsBounded(cfg, Next(cfg, s, run[0]), run[1..], end);
      if Working(run[0]) && !run[0].Admin? {
        OpLess(cfg, s, run[0]);
      } else {
        LeftsNext(cfg, s, run[0]);
      }
    }
  }

  /**
   In any run at all, whatever the clock, the cleaner and the registration of storages do in
   between, the operations take at most 15 steps each, counting those under way at its start.
   */
  lemma FewSteps(cfg: CM.Config, start: State, before: seq<Step>, s: State, run: seq<Step>, end: State)
    requires Initial(start) && Runs(cfg, start, before, s) && Runs(cfg, s, run, end)
    ensures OwnSteps(run) <= 15 * (|s.ops| + Invokes(run))
  {
    InitialInv(start);
    InvRuns(cfg, start, before, s);
    OwnStepsBounded(cfg, s, run, end);
    LeftsBounded(s);
  }

  /**
   In every reachable state: as long as an operation or an unregistration is unfinished,
   some thread can step, and however the threads are scheduled from here on, they stop
   only when everything is finished, after at most 15 steps for each operation.
   */
  lemma Progress(cfg: CM.Config, start: State, before: seq<Step>, s: State)
    requires Initial(start) && Runs(cfg, start, before, s)
    ensures !(s.ops == map[] && s.route.writer.None?) ==> exists step :: Working(step) && Enabled(s, step)
    ensures forall run, end :: Runs(cfg, s, run, end) && (forall i :: 0 <= i < |run| ==> Working(run[i])) ==>
              && |run| <= 15 * |s.ops| + WriterLeft(s.route)
              && ((end.ops == map[] && end.route.writer.None?) || exists step :: Working(step) && Enabled(end, step))
  {
    InitialInv(start);
    InvRuns(cfg, start, before, s);
    if !Idle(s) { var step := SomebodyCan(s); }
    WorkBounded(s);
    forall run, end | Runs(cfg, s, run, end) && (forall i :: 0 <= i < |run| ==> Working(run[i]))
      ensures |run| <= 15 * |s.ops| + WriterLeft(s.route)
      ensures (Idle(end) || exists step :: Working(step) && Enabled(end, step)) {
      RunBounded(cfg, s, run, end);
      InvRuns(cfg, s, run, end);
      if !Idle(end) { var step := SomebodyCan(end); }
    }
  }

  /**
   Nothing outside the program is restricted: any thread may call any operation, a storage call
   that is due may succeed or fail, making a mutex may fail before the thread is counted, and
   the clock that cache_set has read may show anything.
   */
  lemma AnyOutcome(s: State, t: Tid, op: Op, ok: bool, duration: int, created: int)
    requires Inv(s)
    ensures t !in s.ops ==> Enabled(s, Invoke(t, op))
    ensures t in s.ops && s.ops[t].Storing? ==> Enabled(s, Store(t, ok, duration))
    ensures t in s.ops && s.ops[t].Locking? && t !in s.names.pcs ==> Enabled(s, LockFails(t))
    ensures t in s.ops && s.ops[t].Caching? ==> Enabled(s, Cache(t, created))
  {
    assert ThreadOk(s, t);
  }

  /** And the route may change whenever its lock is free. */
  lemma AnyChange(s: State, t: Tid, target: Option<Label>, item: Address, name: Label, prefixes: seq<string>,
                  contents: map<Key, Value>)
    requires Inv(s) && s.route.writer.None?
    ensures Enabled(s, Admin(RT.Begin(t, target), contents))
    ensures item !in s.route.items ==> Enabled(s, Admin(RT.Register(item, name, prefixes), contents))
  {
  }
}
