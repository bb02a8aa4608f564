/**
 Progress of the thread pool: the threads that are awake take a bounded number of steps for
 each submission, and when none can step any more all tasks have been run.
 */
module ThreadPoolProgress {
  import opened Names
  import opened TaskQueue
  import opened ThreadPool
  import opened Sums

  /** What a submission weighs: one that has not pushed yet pays for everything its push sets off. */
  function ProducerWeight(p: Producer, a: nat): nat {
    match p.stage
    case Entering => a + 1
    case Woken => a + 1
    case Asleep => a
    case Awaiting => 1
  }

  function WorkerWeight(w: Worker): nat {
    match w
    case Sleeping => 0
    case Ready => 1
    case Roused => 1
    case Running(_, _) => 4
    case Storing(_, _, _) => 3
    case Posting(_, _) => 2
  }

  function ProducerWeights(m: map<Tid, Producer>, a: nat): Sizes { map p | p in m :: ProducerWeight(m[p], a) }

  function WorkerWeights(m: map<Tid, Worker>): Sizes { map w | w in m :: WorkerWeight(m[w]) }

  /** `count` times `each`. */
  function Weigh(each: nat, count: nat): nat { if count == 0 then 0 else each + Weigh(each, count - 1) }

  lemma {:induction false} WeighIs(each: nat, count: nat)
    ensures Weigh(each, count) == each * count
  {
    if count > 0 {
      WeighIs(each, count - 1);
      Times(each, count);
    }
  }

  /** The work left, when a submission weighs `a` and a queued task `b`. */
  ghost function Work(s: State, a: nat, b: nat): nat {
    Sum(ProducerWeights(s.producers, a)) + Weigh(b, s.ring.count) + Sum(WorkerWeights(s.workers))
  }

  /** Weights that pay for waking `n` workers with each push and `m` submissions with each pop. */
  predicate Rates(m: nat, n: nat, a: nat, b: nat) { b == m + 4 && a == b + n + 1 }

  /** A step of a worker alone, or of a submission alone. */
  lemma WorkerOnly(s: State, s': State, w: Tid, a: nat, b: nat)
    requires s'.ring == s.ring && w in s.workers && w in s'.workers && s'.workers == s.workers[w := s'.workers[w]]
    requires WorkerWeight(s'.workers[w]) < WorkerWeight(s.workers[w])
    requires ProducerWeights(s'.producers, a) == ProducerWeights(s.producers, a)
    ensures Work(s', a, b) < Work(s, a, b)
  {
    SumLess(WorkerWeights(s.workers), WorkerWeights(s'.workers), w);
  }

  lemma ProducerOnly(s: State, s': State, p: Tid, a: nat, b: nat)
    requires s'.ring == s.ring && s'.workers == s.workers && p in s.producers
    requires 0 < ProducerWeight(s.producers[p], a)
    requires p in s'.producers ==> ProducerWeight(s'.producers[p], a) < ProducerWeight(s.producers[p], a)
    requires forall q :: q != p ==> (q in s.producers <==> q in s'.producers)
    requires forall q :: q != p && q in s.producers ==> s'.producers[q] == s.producers[q]
    ensures Work(s', a, b) < Work(s, a, b)
  {
    SumLess(ProducerWeights(s.producers, a), ProducerWeights(s'.producers, a), p);
  }

  /** Writing the result or posting the semaphore does not move the submitter. */
  lemma SameWeights(s: State, o: Tid, x: Producer, a: nat)
    requires o in s.producers && x.stage == s.producers[o].stage
    ensures ProducerWeights(s.producers[o := x], a) == ProducerWeights(s.producers, a)
  {
  }

  lemma WorkersRaised(workers: map<Tid, Worker>, wake: set<Tid>)
    requires wake <= SleepingWorkers(workers)
    ensures Sum(WorkerWeights(WithWorkers(workers, wake))) <= Sum(WorkerWeights(workers)) + |workers|
  {
    var before, after := WorkerWeights(workers), WorkerWeights(WithWorkers(workers, wake));
    assert before.Keys == workers.Keys && after.Keys == workers.Keys;
    forall w | w in before ensures after[w] <= before[w] + 1 { assert w in wake ==> workers[w].Sleeping?; }
    SumRaised(before, after);
  }

  lemma ProducersRaised(producers: map<Tid, Producer>, wake: set<Tid>, a: nat)
    requires wake <= SleepingProducers(producers)
    ensures Sum(ProducerWeights(WithProducers(producers, wake), a)) <= Sum(ProducerWeights(producers, a)) + |producers|
  {
    var before, after := ProducerWeights(producers, a), ProducerWeights(WithProducers(producers, wake), a);
    assert before.Keys == producers.Keys && after.Keys == producers.Keys;
    forall p | p in before ensures after[p] <= before[p] + 1 { assert p in wake ==> producers[p].stage.Asleep?; }
    SumRaised(before, after);
  }

  lemma Pushing(s: State, p: Tid, wake: set<Tid>, a: nat)
    requires Enabled(s, Push(p, wake)) && !Full(s)
    ensures Sum(ProducerWeights(Next(s, Push(p, wake)).producers, a)) + a <= Sum(ProducerWeights(s.producers, a))
  {
    var before, after := ProducerWeights(s.producers, a), ProducerWeights(Next(s, Push(p, wake)).producers, a);
    SumChanged(before, after, p);
  }

  lemma Popping(s: State, w: Tid, wake: set<Tid>)
    requires Enabled(s, Pop(w, wake)) && s.ring.count > 0
    ensures Sum(WorkerWeights(Next(s, Pop(w, wake)).workers)) == Sum(WorkerWeights(s.workers)) + 3
    ensures Next(s, Pop(w, wake)).producers == WithProducers(s.producers, wake)
    ensures wake <= SleepingProducers(s.producers)
    ensures Next(s, Pop(w, wake)).ring.count + 1 == s.ring.count
  {
    var before, after := WorkerWeights(s.workers), WorkerWeights(Next(s, Pop(w, wake)).workers);
    SumChanged(before, after, w);
  }

  /** A push takes more weight off the submissions than it puts on the queue and the workers. */
  lemma PushStep(s: State, p: Tid, wake: set<Tid>, m: nat, n: nat, a: nat, b: nat)
    requires Enabled(s, Push(p, wake)) && !Full(s) && |s.workers| <= n && Rates(m, n, a, b)
    ensures Work(Next(s, Push(p, wake)), a, b) < Work(s, a, b)
  {
    WorkersRaised(s.workers, wake);
    Pushing(s, p, wake, a);
    assert Weigh(b, s.ring.count + 1) == b + Weigh(b, s.ring.count);
  }

  /** A pop takes more weight off the queue than it puts on the worker and the submissions. */
  lemma PopStep(s: State, w: Tid, wake: set<Tid>, m: nat, n: nat, a: nat, b: nat)
    requires Enabled(s, Pop(w, wake)) && s.ring.count > 0 && |s.producers| <= m && Rates(m, n, a, b)
    ensures Work(Next(s, Pop(w, wake)), a, b) < Work(s, a, b)
  {
    var s' := Next(s, Pop(w, wake));
    Popping(s, w, wake);
    ProducersRaised(s.producers, wake, a);
    Lighter(s, s', m, a, b);
  }

  lemma Lighter(s: State, s': State, m: nat, a: nat, b: nat)
    requires Sum(ProducerWeights(s'.producers, a)) <= Sum(ProducerWeights(s.producers, a)) + m && b == m + 4
    requires Sum(WorkerWeights(s'.workers)) == Sum(WorkerWeights(s.workers)) + 3 && s'.ring.count + 1 == s.ring.count
    ensures Work(s', a, b) < Work(s, a, b)
  {
    WeighOne(b, s.ring.count, s'.ring.count);
  }

  lemma WeighOne(each: nat, count: nat, fewer: nat)
    requires count == fewer + 1
    ensures Weigh(each, count) == each + Weigh(each, fewer)
  {
  }

  lemma OutcomeLess(s: State, step: Step, a: nat, b: nat)
    requires Enabled(s, step) && (step.Store? || step.Post?)
    ensures Work(Next(s, step), a, b) < Work(s, a, b)
  {
    var s', o := Next(s, step), s.workers[step.w].task.owner;
    SameWeights(s, o, s'.producers[o], a);
    WorkerOnly(s, s', step.w, a, b);
  }

  /** Every step of a thread that is awake does some of the work. */
  lemma WorkLess(s: State, step: Step, m: nat, n: nat, a: nat, b: nat)
    requires Enabled(s, step) && Awake(step) && |s.producers| <= m && |s.workers| <= n && Rates(m, n, a, b)
    ensures Work(Next(s, step), a, b) < Work(s, a, b)
  {
    var s' := Next(s, step);
    match step
    case Push(p, wake) =>
      if Full(s) { ProducerOnly(s, s', p, a, b); } else { PushStep(s, p, wake, m, n, a, b); }
    case Pop(w, wake) =>
      if s.ring.count == 0 { WorkerOnly(s, s', w, a, b); } else { PopStep(s, w, wake, m, n, a, b); }
    case Finish(w, _) => WorkerOnly(s, s', w, a, b);
    case Store(w) => OutcomeLess(s, step, a, b);
    case Post(w) => OutcomeLess(s, step, a, b);
    case Return(p) => ProducerOnly(s, s', p, a, b);
  }

  /** A submission and a wake-up without a signal add work. */
  lemma WorkMore(s: State, step: Step, a: nat, b: nat)
    requires Enabled(s, step) && !Awake(step)
    ensures Work(Next(s, step), a, b) <= Work(s, a, b) + if step.Submit? then a + 1 else 1
  {
    var s' := Next(s, step);
    match step
    case Submit(p, task) =>
      SumAdded(ProducerWeights(s.producers, a), p, a + 1);
      assert ProducerWeights(s'.producers, a) == ProducerWeights(s.producers, a)[p := a + 1];
    case WakeProducer(p) => SumChanged(ProducerWeights(s.producers, a), ProducerWeights(s'.producers, a), p);
    case WakeWorker(w) => SumChanged(WorkerWeights(s.workers), WorkerWeights(s'.workers), w);
  }

  lemma Threads(s: State, step: Step)
    requires Enabled(s, step)
    ensures |Next(s, step).producers| <= |s.producers| + if step.Submit? then 1 else 0
    ensures |Next(s, step).workers| == |s.workers| && (s.workers != map[] ==> Next(s, step).workers != map[])
  {
    var s' := Next(s, step);
    SameWorkers(s, step);
    var most := if step.Submit? then s.producers.Keys + {step.p} else s.producers.Keys;
    assert s'.producers.Keys <= most;
    Fewer(s'.producers.Keys, most);
  }

  lemma SameWorkers(s: State, step: Step)
    requires Enabled(s, step)
    ensures Next(s, step).workers.Keys == s.workers.Keys
  {
  }

  lemma Fewer(a: set<Tid>, b: set<Tid>)
    requires a <= b
    ensures |a| <= |b|
  {
    assert b == a + (b - a);
  }

  /**
   How many steps of a run are taken by threads that are awake, and how many are submissions or
   wake-ups without a signal.
   */
  function Awakes(run: seq<Step>): nat {
    if run == [] then 0 else (if Awake(run[0]) then 1 else 0) + Awakes(run[1..])
  }

  function Submits(run: seq<Step>): nat {
    if run == [] then 0 else (if run[0].Submit? then 1 else 0) + Submits(run[1..])
  }

  function Spurious(run: seq<Step>): nat {
    if run == [] then 0 else (if run[0].WakeProducer? || run[0].WakeWorker? then 1 else 0) + Spurious(run[1..])
  }

  /** These are all the steps of a run. */
  lemma {:induction false} EveryStep(run: seq<Step>)
    ensures Awakes(run) + Submits(run) + Spurious(run) == |run|
  {
    if run != [] { EveryStep(run[1..]); }
  }

  /** What a step does, and what it brings. */
  function Done(step: Step): nat { if Awake(step) then 1 else 0 }

  function Brought(step: Step, a: nat): nat { if Awake(step) then 0 else if step.Submit? then a + 1 else 1 }

  lemma StepBalance(s: State, step: Step, m: nat, n: nat, a: nat, b: nat)
    requires Enabled(s, step) && |s.producers| <= m && |s.workers| <= n && Rates(m, n, a, b)
    ensures Done(step) + Work(Next(s, step), a, b) <= Work(s, a, b) + Brought(step, a)
  {
    if Awake(step) { WorkLess(s, step, m, n, a, b); } else { WorkMore(s, step, a, b); }
  }

  /** All that a run brings. */
  function Total(run: seq<Step>, a: nat): nat { if run == [] then 0 else Brought(run[0], a) + Total(run[1..], a) }

  lemma {:induction false} TotalIs(run: seq<Step>, a: nat)
    ensures Total(run, a) == Weigh(a + 1, Submits(run)) + Spurious(run)
  {
    if run != [] { TotalIs(run[1..], a); }
  }

  lemma {:induction false} RunBounded(s: State, run: seq<Step>, end: State, m: nat, n: nat, a: nat, b: nat)
    requires Runs(s, run, end) && |s.producers| + Submits(run) <= m && |s.workers| <= n && Rates(m, n, a, b)
    ensures Awakes(run) + Work(end, a, b) <= Work(s, a, b) + Total(run, a)
    ensures s.workers != map[] ==> end.workers != map[]
    decreases |run|
  {
    if run != [] {
      Threads(s, run[0]);
      StepBalance(s, run[0], m, n, a, b);
      RunBounded(Next(s, run[0]), run[1..], end, m, n, a, b);
    }
  }

  /** The steps that `m` submissions, `n` workers and `count` queued tasks can take. */
  function Budget(m: nat, n: nat, count: nat): nat { Weighed(m, n, count, m + n + 5, m + 4) }

  function Weighed(m: nat, n: nat, count: nat, a: nat, b: nat): nat { Weigh(a + 1, m) + Weigh(b, count) + 4 * n }

  lemma BudgetWeighed(m: nat, n: nat, count: nat, a: nat, b: nat)
    requires Rates(m, n, a, b)
    ensures Budget(m, n, count) == Weighed(m, n, count, a, b)
  {
  }

  lemma BudgetIs(m: nat, n: nat, count: nat)
    ensures Budget(m, n, count) == (m + n + 6) * m + (m + 4) * count + 4 * n
  {
    WeighIs(m + n + 6, m);
    WeighIs(m + 4, count);
  }

  lemma {:induction false} WeighTogether(each: nat, a: nat, b: nat, all: nat)
    requires all == a + b
    ensures Weigh(each, all) == Weigh(each, a) + Weigh(each, b)
    decreases b
  {
    if b > 0 { WeighTogether(each, a, b - 1, all - 1); }
  }

  /** All the work of a run: what is left at its start and what is submitted during it. */
  lemma WorkBounded(s: State, more: nat, m: nat, n: nat, a: nat, b: nat)
    requires |s.workers| == n && m == |s.producers| + more
    ensures Work(s, a, b) + Weigh(a + 1, more) <= Weighed(m, n, s.ring.count, a, b)
  {
    WeightsBounded(s, a);
    WeighTogether(a + 1, |s.producers|, more, m);
  }

  lemma WeightsBounded(s: State, a: nat)
    ensures Sum(ProducerWeights(s.producers, a)) <= Weigh(a + 1, |s.producers|)
    ensures Sum(WorkerWeights(s.workers)) <= 4 * |s.workers|
  {
    var p, w := ProducerWeights(s.producers, a), WorkerWeights(s.workers);
    assert p.Keys == s.producers.Keys && w.Keys == s.workers.Keys;
    SumBounded(p, a + 1);
    WeighIs(a + 1, |s.producers|);
    SumBounded(w, 4);
  }

  /** A task that was popped has been run, or a worker is running it. */
  ghost predicate Ran(s: State, k: nat) {
    k < s.popped ==> k in s.outcomes || exists w :: w in s.workers && s.workers[w].Running? && s.workers[w].ticket == k
  }

  lemma RanNext(s: State, step: Step, k: nat)
    requires Enabled(s, step) && Ran(s, k)
    ensures Ran(Next(s, step), k)
  {
    var s' := Next(s, step);
    if k == s.popped && k < s'.popped {
      assert s'.workers[step.w].Running? && s'.workers[step.w].ticket == k;
    } else if k < s.popped && k !in s.outcomes {
      var w :| w in s.workers && s.workers[w].Running? && s.workers[w].ticket == k;
      assert w in s'.workers && (s'.workers[w] == s.workers[w] || k in s'.outcomes);
    }
  }

  lemma {:induction false} RanRuns(s: State, run: seq<Step>, end: State, k: nat)
    requires Runs(s, run, end) && Ran(s, k)
    ensures Ran(end, k)
    decreases |run|
  {
    if run != [] {
      RanNext(s, run[0], k);
      RanRuns(Next(s, run[0]), run[1..], end, k);
    }
  }

  /** Nobody who is awake can step. */
  ghost predicate Ended(s: State) { forall step :: Awake(step) ==> !Enabled(s, step) }

  /**
   In every run at all, from any reachable state with at least one worker: the threads that
   are awake take at most a bounded number of steps for the submissions, those under way and
   those of the run, plus one for each wake-up without a signal; and whenever none can step,
   all submissions have returned, the queue is empty and every task ever pushed has been run.
   */
  lemma AllTasksRun(start: State, before: seq<Step>, s: State, run: seq<Step>, end: State)
    requires Initial(start) && Runs(start, before, s) && s.workers != map[] && Runs(s, run, end)
    ensures Awakes(run) <= Budget(|s.producers| + Submits(run), |s.workers|, s.ring.count) + Spurious(run)
    ensures Ended(end) ==> end.producers == map[] && end.ring.count == 0
    ensures Ended(end) ==> forall k :: 0 <= k < |end.pushed| ==> k in end.outcomes
  {
    AwakesBounded(s, run, end, |s.producers| + Submits(run), |s.workers|);
    if Ended(end) { EndReached(start, before, s, run, end); }
  }

  lemma AwakesBounded(s: State, run: seq<Step>, end: State, m: nat, n: nat)
    requires Runs(s, run, end) && m == |s.producers| + Submits(run) && n == |s.workers|
    ensures Awakes(run) <= Budget(m, n, s.ring.count) + Spurious(run)
    ensures s.workers != map[] ==> end.workers != map[]
  {
    TotalBounded(s, run, end, m, n, m + n + 5, m + 4);
  }

  lemma TotalBounded(s: State, run: seq<Step>, end: State, m: nat, n: nat, a: nat, b: nat)
    requires Runs(s, run, end) && m == |s.producers| + Submits(run) && n == |s.workers| && Rates(m, n, a, b)
    ensures Awakes(run) <= Budget(m, n, s.ring.count) + Spurious(run)
    ensures s.workers != map[] ==> end.workers != map[]
  {
    RunBounded(s, run, end, m, n, a, b);
    TotalIs(run, a);
    WorkBounded(s, Submits(run), m, n, a, b);
    BudgetWeighed(m, n, s.ring.count, a, b);
  }

  lemma EndReached(start: State, before: seq<Step>, s: State, run: seq<Step>, end: State)
    requires Initial(start) && Runs(start, before, s) && Runs(s, run, end) && end.workers != map[] && Ended(end)
    ensures end.producers == map[] && end.ring.count == 0 && forall k :: 0 <= k < |end.pushed| ==> k in end.outcomes
  {
    InitialInv(start);
    InvRuns(start, before, s);
    InvRuns(s, run, end);
    RanAlways(start, before, s, run, end);
    AllRan(end);
  }

  lemma RanAlways(start: State, before: seq<Step>, s: State, run: seq<Step>, end: State)
    requires start.popped == 0 && Runs(start, before, s) && Runs(s, run, end)
    ensures forall k: nat :: Ran(end, k)
  {
    forall k: nat ensures Ran(end, k) {
      RanRuns(start, before, s, k);
      RanRuns(s, run, end, k);
    }
  }

  lemma AllRan(s: State)
    requires Inv(s) && s.workers != map[] && Ended(s) && forall k: nat :: Ran(s, k)
    ensures s.producers == map[] && s.ring.count == 0 && forall k :: 0 <= k < |s.pushed| ==> k in s.outcomes
  {
    Finished(s);
    forall k | 0 <= k < |s.pushed| ensures k in s.outcomes {
      assert Ran(s, k);
      EndedRan(s, k);
    }
  }

  lemma Finished(s: State)
    requires Inv(s) && s.workers != map[] && Ended(s)
    ensures s.producers == map[] && s.ring.count == 0 && s.popped == |s.pushed|
  {
    if s.ring.count > 0 || s.producers != map[] {
      var step := SomebodyAwake(s);
      assert false;
    }
    assert |Contents(s.ring)| == s.ring.count;
  }

  lemma EndedRan(s: State, k: nat)
    requires Ended(s) && RingOk(s.ring) && Ran(s, k) && k < s.popped
    ensures k in s.outcomes
  {
    forall w ensures !(w in s.workers && s.workers[w].Running?) {
      assert Awake(Finish(w, 0)) ==> !Enabled(s, Finish(w, 0));
    }
  }
}
