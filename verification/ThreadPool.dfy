/**
 The thread pool of lib/infra/thread_pool.c: any number of submitting threads and
 workers around one task queue, as a monitor.  A step is a whole critical section, up to
 its release or to the wait in it, or a step of a worker outside the lock.  A signal
 wakes at least one sleeper if there is one, and sleepers may wake without a signal.
 */
module ThreadPool {
  import opened Names
  import opened Options
  import opened TaskQueue

  /** A routine with its argument, and whether its submitter waits for the result. */
  datatype Task = Task(routine: int, owner: Tid, sync: bool)

  datatype Stage = Entering | Asleep | Woken | Awaiting

  /** A thread in thread_pool_submit, with its local `result` and semaphore. */
  datatype Producer = Producer(stage: Stage, task: Task, ticket: nat, result: int, posts: nat)

  /** A worker; a ticket is the number of a task in the order of the pushes. */
  datatype Worker =
    | Ready
    | Sleeping
    | Roused
    | Running(task: Task, ticket: nat)
    | Storing(task: Task, ticket: nat, result: int)      // the routine has returned
    | Posting(task: Task, ticket: nat)

  datatype State = State(
    ring: Ring<Task>,
    producers: map<Tid, Producer>,
    workers: map<Tid, Worker>,
    pushed: seq<Task>,                                   // all tasks ever pushed
    popped: nat,                                         // how many were popped
    outcomes: map<nat, int>)                             // what the routine of each finished task returned

  datatype Step =
    | Submit(p: Tid, task: Task)
    | Push(p: Tid, wake: set<Tid>)
    | Pop(w: Tid, wake: set<Tid>)
    | WakeProducer(p: Tid)
    | WakeWorker(w: Tid)
    | Finish(w: Tid, result: int)
    | Store(w: Tid)
    | Post(w: Tid)
    | Return(p: Tid)

  function SleepingProducers(m: map<Tid, Producer>): set<Tid> { set p | p in m && m[p].stage.Asleep? }
  function WokenProducers(m: map<Tid, Producer>): set<Tid> { set p | p in m && m[p].stage.Woken? }
  function SleepingWorkers(m: map<Tid, Worker>): set<Tid> { set w | w in m && m[w].Sleeping? }
  function RousedWorkers(m: map<Tid, Worker>): set<Tid> { set w | w in m && m[w].Roused? }

  /** Whom a signal may wake. */
  predicate Signalled(sleepers: set<Tid>, wake: set<Tid>) {
    wake <= sleepers && (sleepers != {} ==> wake != {})
  }

  function WithProducers(m: map<Tid, Producer>, wake: set<Tid>): map<Tid, Producer> {
    map p | p in m :: if p in wake then m[p].(stage := Woken) else m[p]
  }

  function WithWorkers(m: map<Tid, Worker>, wake: set<Tid>): map<Tid, Worker> {
    map w | w in m :: if w in wake then Roused else m[w]
  }

  predicate Full(s: State) { s.ring.count >= |s.ring.slots| }

  predicate Enabled(s: State, step: Step) {
    && RingOk(s.ring)
    && match step
       case Submit(p, task) => p !in s.producers && task.owner == p
       case Push(p, wake) =>
         && p in s.producers && (s.producers[p].stage.Entering? || s.producers[p].stage.Woken?)
         && Signalled(SleepingWorkers(s.workers), wake)
       case Pop(w, wake) =>
         && w in s.workers && (s.workers[w].Ready? || s.workers[w].Roused?)
         && Signalled(SleepingProducers(s.producers), wake)
       case WakeProducer(p) => p in s.producers && s.producers[p].stage.Asleep?
       case WakeWorker(w) => w in s.workers && s.workers[w].Sleeping?
       case Finish(w, _) => w in s.workers && s.workers[w].Running?
       // the result and the semaphore are variables of the submitter, which must still be there
       case Store(w) => w in s.workers && s.workers[w].Storing? && s.workers[w].task.owner in s.producers
       case Post(w) => w in s.workers && s.workers[w].Posting? && s.workers[w].task.owner in s.producers
       case Return(p) => p in s.producers && s.producers[p].stage.Awaiting? && s.producers[p].posts > 0
  }

  function Next(s: State, step: Step): State
    requires Enabled(s, step)
  {
    match step
    case Submit(p, task) => s.(producers := s.producers[p := Producer(Entering, task, 0, 0, 0)])
    case Push(p, wake) =>
      var me := s.producers[p];
      if Full(s) then s.(producers := s.producers[p := me.(stage := Asleep)])
      else
        s.(ring := Pushed(s.ring, me.task), pushed := s.pushed + [me.task],
           workers := WithWorkers(s.workers, wake),
           producers :=
             if me.task.sync then s.producers[p := me.(stage := Awaiting, ticket := |s.pushed|)]
             else s.producers - {p})
    case Pop(w, wake) =>
      if s.ring.count == 0 then s.(workers := s.workers[w := Sleeping])
      else
        s.(ring := Popped(s.ring), popped := s.popped + 1,
           producers := WithProducers(s.producers, wake),
           workers := s.workers[w := Running(s.ring.slots[s.ring.head], s.popped)])
    case WakeProducer(p) => s.(producers := s.producers[p := s.producers[p].(stage := Woken)])
    case WakeWorker(w) => s.(workers := s.workers[w := Roused])
    case Finish(w, r) =>
      var me := s.workers[w];
      s.(outcomes := s.outcomes[me.ticket := r],
         workers := s.workers[w := if me.task.sync then Storing(me.task, me.ticket, r) else Ready])
    case Store(w) =>
      var me := s.workers[w];
      s.(producers := s.producers[me.task.owner := s.producers[me.task.owner].(result := me.result)],
         workers := s.workers[w := Posting(me.task, me.ticket)])
    case Post(w) =>
      var o := s.workers[w].task.owner;
      s.(producers := s.producers[o := s.producers[o].(posts := s.producers[o].posts + 1)],
         workers := s.workers[w := Ready])
    case Return(p) => s.(producers := s.producers - {p})
  }

  /** An empty queue of some capacity and workers that have not started. */
  ghost predicate Initial(s: State) {
    && RingOk(s.ring) && s.ring.count == 0 && s.producers == map[]
    && (forall w :: w in s.workers ==> s.workers[w].Ready?)
    && s.pushed == [] && s.popped == 0 && s.outcomes == map[]
  }

  /** The submitter of the task with ticket `k` is still waiting for its result. */
  predicate OwnerWaits(s: State, k: nat)
    requires k < |s.pushed|
  {
    var o := s.pushed[k].owner;
    o in s.producers && s.producers[o].stage.Awaiting? && s.producers[o].ticket == k && s.producers[o].posts == 0
  }

  predicate Holds(w: Worker, k: nat) { (w.Running? || w.Storing? || w.Posting?) && w.ticket == k }

  /** The queue holds exactly what was pushed and not yet popped, in that order. */
  ghost predicate QueueOk(s: State) {
    RingOk(s.ring) && s.popped <= |s.pushed| && Contents(s.ring) == s.pushed[s.popped..]
  }

  predicate WaitingOk(s: State, k: nat)
    requires k < |s.pushed|
  {
    s.popped <= k && s.pushed[k].sync ==> OwnerWaits(s, k)
  }

  predicate WorkerOk(s: State, w: Tid)
    requires w in s.workers
  {
    var me := s.workers[w];
    me.Running? || me.Storing? || me.Posting? ==>
      && me.ticket < s.popped && me.ticket < |s.pushed| && s.pushed[me.ticket] == me.task
      && (me.task.sync ==> OwnerWaits(s, me.ticket))
      && (me.Running? ==> me.ticket !in s.outcomes)
      && (!me.Running? ==> me.task.sync && me.ticket in s.outcomes)
      && (me.Storing? ==> me.result == s.outcomes[me.ticket])
      && (me.Posting? ==> s.producers[me.task.owner].result == s.outcomes[me.ticket])
  }

  predicate ProducerOk(s: State, p: Tid)
    requires p in s.producers
  {
    var me := s.producers[p];
    && me.task.owner == p && (!me.stage.Awaiting? ==> me.posts == 0)
    && (me.stage.Awaiting? ==>
          && me.ticket < |s.pushed| && s.pushed[me.ticket] == me.task && me.task.sync
          && (me.posts > 0 ==> me.ticket in s.outcomes && me.result == s.outcomes[me.ticket]))
  }

  /** No task is run by two workers. */
  predicate Apart(s: State, v: Tid, w: Tid)
    requires v in s.workers && w in s.workers
  {
    v != w && (s.workers[v].Running? || s.workers[v].Storing? || s.workers[v].Posting?) ==>
      !Holds(s.workers[w], s.workers[v].ticket)
  }

  /** A submitter that waits in vain so far has its task in the queue or with a worker. */
  ghost predicate Underway(s: State, p: Tid)
    requires p in s.producers
  {
    s.producers[p].stage.Awaiting? && s.producers[p].posts == 0 ==>
      s.popped <= s.producers[p].ticket || exists w :: w in s.workers && Holds(s.workers[w], s.producers[p].ticket)
  }

  /** Sleepers imply that every task, and every free slot, has a woken thread coming for it. */
  ghost predicate WakeOk(s: State) {
    && (SleepingWorkers(s.workers) != {} ==> s.ring.count <= |RousedWorkers(s.workers)|)
    && (SleepingProducers(s.producers) != {} ==> |s.ring.slots| - s.ring.count <= |WokenProducers(s.producers)|)
  }

  ghost predicate Inv(s: State) {
    && QueueOk(s) && WakeOk(s)
    && (forall k :: 0 <= k < |s.pushed| ==> WaitingOk(s, k))
    && (forall w :: w in s.workers ==> WorkerOk(s, w))
    && (forall p :: p in s.producers ==> ProducerOk(s, p) && Underway(s, p))
    && (forall v, w :: v in s.workers && w in s.workers ==> Apart(s, v, w))
    && (forall k :: k in s.outcomes ==> k < s.popped)
  }

  lemma QueueNext(s: State, step: Step)
    requires QueueOk(s) && Enabled(s, step)
    ensures QueueOk(Next(s, step))
    ensures step.Pop? && s.ring.count > 0 ==> s.popped < |s.pushed| && s.ring.slots[s.ring.head] == s.pushed[s.popped]
    ensures s.ring.count == |s.pushed| - s.popped
  {
    if step.Push? && !Full(s) {
      PushAppends(s.ring, s.producers[step.p].task);
    } else if step.Pop? && s.ring.count > 0 {
      PopTakesFirst(s.ring);
      assert Contents(s.ring)[0] == s.pushed[s.popped];
      assert Contents(Popped(s.ring)) == Contents(s.ring)[1..];
    }
  }

  lemma WaitingNext(s: State, step: Step, k: nat)
    requires QueueOk(s) && Enabled(s, step) && k < |Next(s, step).pushed|
    requires k < |s.pushed| ==> WaitingOk(s, k)
    requires step.Post? || step.Store? ==> WorkerOk(s, step.w)
    requires step.Push? ==> ProducerOk(s, step.p)
    ensures WaitingOk(Next(s, step), k)
  {
  }

  lemma WorkerNext(s: State, step: Step, w: Tid)
    requires QueueOk(s) && Enabled(s, step) && w in Next(s, step).workers && w in s.workers && WorkerOk(s, w)
    requires (step.Post? || step.Store? || step.Finish?) ==> WorkerOk(s, step.w) && Apart(s, step.w, w)
    requires forall k :: k in s.outcomes ==> k < s.popped
    requires step.Pop? && s.ring.count > 0 ==> s.popped < |s.pushed| && WaitingOk(s, s.popped)
    requires step.Push? ==> ProducerOk(s, step.p)
    ensures WorkerOk(Next(s, step), w)
  {
    QueueNext(s, step);
  }

  lemma ProducerNext(s: State, step: Step, p: Tid)
    requires QueueOk(s) && Enabled(s, step) && p in Next(s, step).producers
    requires p in s.producers ==> ProducerOk(s, p)
    requires (step.Post? || step.Store? || step.Finish?) ==> WorkerOk(s, step.w)
    requires step.Finish? && p in s.producers && s.producers[p].stage.Awaiting? && s.producers[p].posts > 0 ==>
               s.producers[p].ticket in s.outcomes
    ensures ProducerOk(Next(s, step), p)
  {
  }

  lemma ApartNext(s: State, step: Step, v: Tid, w: Tid)
    requires Enabled(s, step) && v in s.workers && w in s.workers && Apart(s, v, w)
    requires WorkerOk(s, v) && WorkerOk(s, w)
    ensures v in Next(s, step).workers && w in Next(s, step).workers && Apart(Next(s, step), v, w)
  {
  }

  /** A worker gives its task up only when it posts. */
  lemma StillHeld(s: State, step: Step, w: Tid, p: Tid)
    requires Enabled(s, step) && w in s.workers && WorkerOk(s, w) && p in s.producers && ProducerOk(s, p)
    requires s.producers[p].stage.Awaiting? && Holds(s.workers[w], s.producers[p].ticket)
    requires p in Next(s, step).producers && Next(s, step).producers[p].posts == 0
    ensures w in Next(s, step).workers && Holds(Next(s, step).workers[w], s.producers[p].ticket)
  {
  }

  lemma UnderwayNext(s: State, step: Step, p: Tid)
    requires Inv(s) && Enabled(s, step) && p in Next(s, step).producers
    ensures Underway(Next(s, step), p)
  {
    var s' := Next(s, step);
    QueueNext(s, step);
    if s'.producers[p].stage.Awaiting? && s'.producers[p].posts == 0 && s'.producers[p].ticket < s'.popped {
      assert p in s.producers && Underway(s, p) && ProducerOk(s, p);
      if s.popped <= s.producers[p].ticket {
        assert Holds(s'.workers[step.w], s.producers[p].ticket);
      } else {
        var w :| w in s.workers && Holds(s.workers[w], s.producers[p].ticket);
        StillHeld(s, step, w, p);
      }
    }
  }

  lemma WorkersSignalled(m: map<Tid, Worker>, wake: set<Tid>)
    requires wake <= SleepingWorkers(m)
    ensures SleepingWorkers(WithWorkers(m, wake)) == SleepingWorkers(m) - wake
    ensures |RousedWorkers(WithWorkers(m, wake))| == |RousedWorkers(m)| + |wake|
  {
    assert RousedWorkers(WithWorkers(m, wake)) == RousedWorkers(m) + wake;
  }

  lemma ProducersSignalled(m: map<Tid, Producer>, wake: set<Tid>)
    requires wake <= SleepingProducers(m)
    ensures SleepingProducers(WithProducers(m, wake)) == SleepingProducers(m) - wake
    ensures |WokenProducers(WithProducers(m, wake))| == |WokenProducers(m)| + |wake|
  {
    assert WokenProducers(WithProducers(m, wake)) == WokenProducers(m) + wake;
  }

  /** A thread that takes another place, or none. */
  lemma WorkerMoved(m: map<Tid, Worker>, w: Tid, x: Worker)
    requires w in m && !m[w].Sleeping? && !x.Sleeping? && !x.Roused?
    ensures SleepingWorkers(m[w := x]) == SleepingWorkers(m)
    ensures |RousedWorkers(m[w := x])| >= |RousedWorkers(m)| - if m[w].Roused? then 1 else 0
  {
    assert RousedWorkers(m[w := x]) == RousedWorkers(m) - {w};
  }

  lemma ProducerMoved(m: map<Tid, Producer>, m': map<Tid, Producer>, p: Tid)
    requires p in m ==> !m[p].stage.Asleep?
    requires p in m' ==> !m'[p].stage.Asleep? && !m'[p].stage.Woken?
    requires forall q :: q != p ==> (q in m <==> q in m') && (q in m ==> m'[q] == m[q])
    ensures SleepingProducers(m') == SleepingProducers(m)
    ensures |WokenProducers(m')| >= |WokenProducers(m)| - if p in m && m[p].stage.Woken? then 1 else 0
  {
    forall q: Tid ensures q in SleepingProducers(m') <==> q in SleepingProducers(m) { }
    var before, after := WokenProducers(m), WokenProducers(m');
    forall q: Tid ensures q in after <==> q in before - {p} { }
    assert after == before - {p};
  }

  /** A push that has room for its task wakes a worker for it, and takes one slot. */
  lemma PushWakes(s: State, p: Tid, wake: set<Tid>)
    requires WakeOk(s) && Enabled(s, Push(p, wake)) && !Full(s)
    ensures WakeOk(Next(s, Push(p, wake)))
  {
    WorkersSignalled(s.workers, wake);
    ProducerMoved(s.producers, Next(s, Push(p, wake)).producers, p);
  }

  /** A pop that finds a task wakes a submitter for the slot, and takes one task. */
  lemma PopWakes(s: State, w: Tid, wake: set<Tid>)
    requires WakeOk(s) && Enabled(s, Pop(w, wake)) && s.ring.count > 0
    ensures WakeOk(Next(s, Pop(w, wake)))
  {
    ProducersSignalled(s.producers, wake);
    WorkerMoved(s.workers, w, Next(s, Pop(w, wake)).workers[w]);
  }

  /** Going to sleep needs a full or an empty queue. */
  lemma SleepKeeps(s: State, step: Step)
    requires WakeOk(s) && Enabled(s, step) && ((step.Push? && Full(s)) || (step.Pop? && s.ring.count == 0))
    ensures WakeOk(Next(s, step))
  {
  }

  /** A wake-up without a signal only adds woken threads. */
  lemma SpuriousKeeps(s: State, step: Step)
    requires WakeOk(s) && Enabled(s, step) && (step.WakeProducer? || step.WakeWorker?)
    ensures WakeOk(Next(s, step))
  {
    if step.WakeProducer? {
      assert WokenProducers(Next(s, step).producers) == WokenProducers(s.producers) + {step.p};
      assert SleepingProducers(Next(s, step).producers) == SleepingProducers(s.producers) - {step.p};
    } else {
      assert RousedWorkers(Next(s, step).workers) == RousedWorkers(s.workers) + {step.w};
      assert SleepingWorkers(Next(s, step).workers) == SleepingWorkers(s.workers) - {step.w};
    }
  }

  /** No step outside the queue touches sleepers or woken threads. */
  lemma OutsideKeeps(s: State, step: Step)
    requires WakeOk(s) && Enabled(s, step)
    requires (step.Submit? || step.Finish? || step.Store? || step.Post? || step.Return?)
    requires step.Store? || step.Post? ==> s.producers[s.workers[step.w].task.owner].stage.Awaiting?
    ensures WakeOk(Next(s, step))
  {
    var s' := Next(s, step);
    if step.Submit? || step.Return? {
      ProducerMoved(s.producers, s'.producers, step.p);
    } else {
      WorkerMoved(s.workers, step.w, s'.workers[step.w]);
      if !step.Finish? { ProducerMoved(s.producers, s'.producers, s.workers[step.w].task.owner); }
    }
  }

  lemma WakeNext(s: State, step: Step)
    requires WakeOk(s) && Enabled(s, step)
    requires (step.Store? || step.Post? ==> s.producers[s.workers[step.w].task.owner].stage.Awaiting?)
    ensures WakeOk(Next(s, step))
  {
    match step
    case Push(p, wake) => if Full(s) { SleepKeeps(s, step); } else { PushWakes(s, p, wake); }
    case Pop(w, wake) => if s.ring.count == 0 { SleepKeeps(s, step); } else { PopWakes(s, w, wake); }
    case WakeProducer(_) => SpuriousKeeps(s, step);
    case WakeWorker(_) => SpuriousKeeps(s, step);
    case _ => OutsideKeeps(s, step);
  }

  lemma InvNext(s: State, step: Step)
    requires Inv(s) && Enabled(s, step)
    ensures Inv(Next(s, step))
  {
    var s' := Next(s, step);
    QueueNext(s, step);
    if step.Store? || step.Post? || step.Finish? { assert WorkerOk(s, step.w); }
    WakeNext(s, step);
    forall k | 0 <= k < |s'.pushed| ensures WaitingOk(s', k) { WaitingNext(s, step, k); }
    forall w | w in s'.workers ensures WorkerOk(s', w) { WorkerNext(s, step, w); }
    forall p | p in s'.producers ensures ProducerOk(s', p) && Underway(s', p) {
      ProducerNext(s, step, p);
      UnderwayNext(s, step, p);
    }
    forall v, w | v in s'.workers && w in s'.workers ensures Apart(s', v, w) { ApartNext(s, step, v, w); }
  }

  ghost predicate Runs(s: State, run: seq<Step>, end: State)
    decreases |run|
  {
    if run == [] then end == s
    else Enabled(s, run[0]) && Runs(Next(s, run[0]), run[1..], end)
  }

  lemma InitialInv(s: State)
    requires Initial(s)
    ensures Inv(s)
  {
    assert SleepingWorkers(s.workers) == {} && SleepingProducers(s.producers) == {};
    assert Contents(s.ring) == [];
  }

  lemma {:induction false} InvRuns(s: State, run: seq<Step>, end: State)
    requires Inv(s) && Runs(s, run, end)
    ensures Inv(end)
    decreases |run|
  {
    if run != [] {
      InvNext(s, run[0]);
      InvRuns(Next(s, run[0]), run[1..], end);
    }
  }

  /** The tasks pushed during a run, in order. */
  ghost function Pushes(s: State, run: seq<Step>, end: State): seq<Task>
    requires Runs(s, run, end)
    decreases |run|
  {
    if run == [] then []
    else JustPushed(s, run[0]) + Pushes(Next(s, run[0]), run[1..], end)
  }

  /** The tasks that the workers took during a run, in order. */
  ghost function Pops(s: State, run: seq<Step>, end: State): seq<Task>
    requires Runs(s, run, end)
    decreases |run|
  {
    if run == [] then []
    else JustPopped(s, run[0]) + Pops(Next(s, run[0]), run[1..], end)
  }

  function JustPushed(s: State, step: Step): seq<Task>
    requires Enabled(s, step)
  {
    if step.Push? && !Full(s) then [s.producers[step.p].task] else []
  }

  function JustPopped(s: State, step: Step): seq<Task>
    requires Enabled(s, step)
  {
    if step.Pop? && s.ring.count > 0 then [s.ring.slots[s.ring.head]] else []
  }

  lemma {:induction false} Flow(s: State, run: seq<Step>, end: State)
    requires Inv(s) && Runs(s, run, end)
    ensures QueueOk(end)
    ensures end.pushed == s.pushed + Pushes(s, run, end)
    ensures end.pushed[..end.popped] == s.pushed[..s.popped] + Pops(s, run, end)
    decreases |run|
  {
    if run != [] {
      var s' := Next(s, run[0]);
      InvNext(s, run[0]);
      Flow(s', run[1..], end);
      FlowStep(s, run[0]);
      Associate(s.pushed, JustPushed(s, run[0]), Pushes(s', run[1..], end));
      Associate(s.pushed[..s.popped], JustPopped(s, run[0]), Pops(s', run[1..], end));
    }
  }

  lemma Associate<T>(a: seq<T>, b: seq<T>, c: seq<T>)
    ensures a + b + c == a + (b + c)
  {
  }

  lemma FlowStep(s: State, step: Step)
    requires QueueOk(s) && Enabled(s, step)
    ensures QueueOk(Next(s, step))
    ensures Next(s, step).pushed == s.pushed + JustPushed(s, step)
    ensures Next(s, step).pushed[..Next(s, step).popped] == s.pushed[..s.popped] + JustPopped(s, step)
  {
    QueueNext(s, step);
  }

  /**
   The queue is first in, first out over every run: what the workers took, followed by
   what is still queued, is exactly what was pushed; nothing is lost or repeated.
   */
  lemma FirstInFirstOut(start: State, run: seq<Step>, s: State)
    requires Initial(start) && Runs(start, run, s)
    ensures RingOk(s.ring) && Pushes(start, run, s) == Pops(start, run, s) + Contents(s.ring)
    ensures s.ring.tail == (s.ring.head + s.ring.count) % |s.ring.slots|
  {
    InitialInv(start);
    Flow(start, run, s);
    TailPosition(s.ring);
    assert s.pushed == s.pushed[..s.popped] + s.pushed[s.popped..];
    assert start.pushed + Pushes(start, run, s) == Pushes(start, run, s);
    assert start.pushed[..start.popped] + Pops(start, run, s) == Pops(start, run, s);
  }

  /** A step of a thread that is awake. */
  predicate Awake(step: Step) {
    step.Push? || step.Pop? || step.Finish? || step.Store? || step.Post? || step.Return?
  }

  /**
   No wake-up is lost: while a worker sleeps there are at most as many tasks as woken
   workers, and while a submitter sleeps at most as many free slots as woken submitters.
   So with at least one worker, as long as a task is queued or a submission is
   unfinished, some thread that is awake can step.
   */
  lemma NoLostWakeup(start: State, run: seq<Step>, s: State)
    requires Initial(start) && Runs(start, run, s)
    ensures SleepingWorkers(s.workers) != {} ==> s.ring.count <= |RousedWorkers(s.workers)|
    ensures SleepingProducers(s.producers) != {} ==> |s.ring.slots| - s.ring.count <= |WokenProducers(s.producers)|
    ensures s.workers != map[] && (s.ring.count > 0 || s.producers != map[]) ==>
              exists step :: Awake(step) && Enabled(s, step)
  {
    InitialInv(start);
    InvRuns(start, run, s);
    if s.workers != map[] && (s.ring.count > 0 || s.producers != map[]) { var step := SomebodyAwake(s); }
  }

  lemma SomebodyAwake(s: State) returns (step: Step)
    requires Inv(s) && s.workers != map[] && (s.ring.count > 0 || s.producers != map[])
    ensures Awake(step) && Enabled(s, step)
  {
    if w :| w in s.workers && !s.workers[w].Sleeping? {
      step := WorkerStep(s, w);
    } else if p :| p in s.producers && (s.producers[p].stage.Entering? || s.producers[p].stage.Woken?) {
      step := Push(p, SleepingWorkers(s.workers));
    } else {
      // all workers sleep, so the queue is empty and no submitter can be asleep
      assert RousedWorkers(s.workers) == {} && WokenProducers(s.producers) == {};
      var w :| w in s.workers;
      assert w in SleepingWorkers(s.workers);
      var p :| p in s.producers;
      assert p !in SleepingProducers(s.producers);
      assert ProducerOk(s, p) && Underway(s, p);
      step := Return(p);
    }
  }

  lemma WorkerStep(s: State, w: Tid) returns (step: Step)
    requires Inv(s) && w in s.workers && !s.workers[w].Sleeping?
    ensures Awake(step) && Enabled(s, step)
  {
    assert WorkerOk(s, w);
    match s.workers[w]
    case Ready => step := Pop(w, SleepingProducers(s.producers));
    case Roused => step := Pop(w, SleepingProducers(s.producers));
    case Running(_, _) => step := Finish(w, 0);
    case Storing(_, _, _) => step := Store(w);
    case Posting(_, _) => step := Post(w);
  }

  /** What a step reports as the result of a routine. */
  function JustReported(s: State, step: Step): map<nat, int>
    requires Enabled(s, step)
  {
    if step.Finish? then map[s.workers[step.w].ticket := step.result] else map[]
  }

  /** What the routines returned during a run, by ticket. */
  ghost function Reports(s: State, run: seq<Step>, end: State): map<nat, int>
    requires Runs(s, run, end)
    decreases |run|
  {
    if run == [] then map[]
    else JustReported(s, run[0]) + Reports(Next(s, run[0]), run[1..], end)
  }

  lemma {:induction false} OutcomesAreReports(s: State, run: seq<Step>, end: State)
    requires Runs(s, run, end)
    ensures end.outcomes == s.outcomes + Reports(s, run, end)
    decreases |run|
  {
    if run == [] {
      NothingOver(s.outcomes);
    } else {
      OutcomesAreReports(Next(s, run[0]), run[1..], end);
      OutcomesNext(s, run[0]);
      Overlay(s.outcomes, JustReported(s, run[0]), Reports(Next(s, run[0]), run[1..], end));
    }
  }

  lemma OutcomesNext(s: State, step: Step)
    requires Enabled(s, step)
    ensures Next(s, step).outcomes == s.outcomes + JustReported(s, step)
  {
  }

  lemma NothingOver<K, V>(m: map<K, V>)
    ensures m + map[] == m && map[] + m == m
  {
  }

  lemma Overlay<K, V>(a: map<K, V>, b: map<K, V>, c: map<K, V>)
    ensures a + b + c == a + (b + c)
  {
  }

  /** The last task that the thread has submitted in a run, read off its steps. */
  function Submission(run: seq<Step>, p: Tid): Option<Task> {
    if run == [] then None
    else
      var later := Submission(run[1..], p);
      if later.Some? then later
      else if run[0].Submit? && run[0].p == p then Some(run[0].task)
      else None
  }

  lemma {:induction false} TaskSubmitted(s: State, run: seq<Step>, end: State, p: Tid)
    requires Runs(s, run, end) && p in end.producers
    ensures match Submission(run, p)
            case Some(task) => end.producers[p].task == task
            case None => p in s.producers && end.producers[p].task == s.producers[p].task
    decreases |run|
  {
    if run != [] { TaskSubmitted(Next(s, run[0]), run[1..], end, p); }
  }

  /** What a push puts into the queue is the task that its thread has submitted last. */
  lemma PushesSubmission(start: State, run: seq<Step>, s: State, p: Tid, wake: set<Tid>)
    requires Initial(start) && Runs(start, run, s) && Enabled(s, Push(p, wake)) && !Full(s)
    ensures Submission(run, p).Some? && JustPushed(s, Push(p, wake)) == [Submission(run, p).value]
  {
    TaskSubmitted(start, run, s, p);
  }

  /**
   A synchronous submission returns what its own routine returned: the task with its
   ticket is the one that its thread has submitted, a worker has reported the result of its
   routine, no worker runs it again, and no later step changes the outcome.
   */
  lemma SubmitReturnsOwnResult(start: State, run: seq<Step>, s: State, p: Tid)
    requires Initial(start) && Runs(start, run, s) && Enabled(s, Return(p))
    ensures var me := s.producers[p];
            && me.ticket < s.popped <= |s.pushed| && s.pushed[me.ticket] == me.task && me.task.owner == p
            && Submission(run, p) == Some(me.task)
            && me.ticket in Reports(start, run, s) && me.result == Reports(start, run, s)[me.ticket]
            && me.ticket in s.outcomes && me.result == s.outcomes[me.ticket]
    ensures forall w :: w in s.workers && s.workers[w].Running? ==> s.workers[w].ticket !in s.outcomes
    ensures forall step, k :: Enabled(s, step) && k in s.outcomes ==>
              k in Next(s, step).outcomes && Next(s, step).outcomes[k] == s.outcomes[k]
  {
    InitialInv(start);
    InvRuns(start, run, s);
    assert ProducerOk(s, p);
    TaskSubmitted(start, run, s, p);
    OutcomesAreReports(start, run, s);
    NothingOver(Reports(start, run, s));
    RunOnce(s);
  }

  /** A task that has an outcome is not being run, and no step changes the outcome. */
  lemma RunOnce(s: State)
    requires Inv(s)
    ensures forall w :: w in s.workers && s.workers[w].Running? ==> s.workers[w].ticket !in s.outcomes
    ensures forall step, k :: Enabled(s, step) && k in s.outcomes ==>
              k in Next(s, step).outcomes && Next(s, step).outcomes[k] == s.outcomes[k]
  {
    forall w | w in s.workers && s.workers[w].Running? ensures s.workers[w].ticket !in s.outcomes {
      assert WorkerOk(s, w);
    }
    forall step, k | Enabled(s, step) && k in s.outcomes
      ensures k in Next(s, step).outcomes && Next(s, step).outcomes[k] == s.outcomes[k] {
      OutcomesNext(s, step);
    }
  }

  /**
   Nothing outside the pool is restricted: any thread may submit any task of its own, routines
   may return anything, a signal may wake any of the sleepers, and sleepers may wake without one.
   */
  lemma AnyChoice(s: State, t: Tid, task: Task, wake: set<Tid>, result: int)
    requires RingOk(s.ring)
    ensures t !in s.producers && task.owner == t ==> Enabled(s, Submit(t, task))
    ensures t in s.workers && s.workers[t].Running? ==> Enabled(s, Finish(t, result))
    ensures t in s.producers && (s.producers[t].stage.Entering? || s.producers[t].stage.Woken?) ==>
              wake <= SleepingWorkers(s.workers) && (wake == {} ==> SleepingWorkers(s.workers) == {}) ==>
                Enabled(s, Push(t, wake))
    ensures t in s.workers && (s.workers[t].Ready? || s.workers[t].Roused?) ==>
              wake <= SleepingProducers(s.producers) && (wake == {} ==> SleepingProducers(s.producers) == {}) ==>
                Enabled(s, Pop(t, wake))
    ensures t in s.workers && s.workers[t].Sleeping? ==> Enabled(s, WakeWorker(t))
    ensures t in s.producers && s.producers[t].stage.Asleep? ==> Enabled(s, WakeProducer(t))
  {
  }
}
