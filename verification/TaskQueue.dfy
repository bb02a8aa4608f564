/**
 The bounded task queue of lib/infra/thread_pool.c: a ring buffer changed in place, and
 its meaning as a first-in, first-out sequence.
 */
module TaskQueue {

  /** The fields of a queue. */
  datatype Ring<T> = Ring(slots: seq<T>, head: nat, tail: nat, count: nat)

  /** A position at most one round ahead, brought back into the ring. */
  function Wrap(a: nat, n: nat): nat { if a < n then a else a - n }

  /** Which is what the remainder does. */
  lemma WrapIsRemainder(a: nat, n: nat)
    requires 0 < n && a < 2 * n
    ensures Wrap(a, n) == a % n
  {
    if a >= n { assert a % n == (a - n) % n; }
  }

  predicate RingOk<T>(r: Ring<T>) {
    && 0 < |r.slots| && r.head < |r.slots| && r.count <= |r.slots|
    && r.tail == Wrap(r.head + r.count, |r.slots|)
  }

  /** The tasks in the queue, oldest first. */
  function Contents<T>(r: Ring<T>): seq<T>
    requires RingOk(r)
  {
    seq(r.count, i requires 0 <= i < r.count => r.slots[Wrap(r.head + i, |r.slots|)])
  }

  function Pushed<T>(r: Ring<T>, x: T): Ring<T>
    requires RingOk(r)
  {
    Ring(r.slots[r.tail := x], r.head, Wrap(r.tail + 1, |r.slots|), r.count + 1)
  }

  function Popped<T>(r: Ring<T>): Ring<T>
    requires RingOk(r) && r.count > 0
  {
    Ring(r.slots, Wrap(r.head + 1, |r.slots|), r.tail, r.count - 1)
  }

  /** A push appends. */
  lemma PushAppends<T>(r: Ring<T>, x: T)
    requires RingOk(r) && r.count < |r.slots|
    ensures RingOk(Pushed(r, x)) && Contents(Pushed(r, x)) == Contents(r) + [x]
  {
    var after := Contents(Pushed(r, x));
    forall i | 0 <= i < |after| ensures after[i] == (Contents(r) + [x])[i] {
      assert after[i] == r.slots[r.tail := x][Wrap(r.head + i, |r.slots|)];
      if i < r.count { assert Contents(r)[i] == r.slots[Wrap(r.head + i, |r.slots|)]; }
    }
  }

  /** A pop takes the first. */
  lemma PopTakesFirst<T>(r: Ring<T>)
    requires RingOk(r) && r.count > 0
    ensures RingOk(Popped(r)) && Contents(r) == [r.slots[r.head]] + Contents(Popped(r))
  {
    var before := Contents(r);
    forall i | 0 <= i < |before| ensures before[i] == ([r.slots[r.head]] + Contents(Popped(r)))[i] {
      assert before[i] == r.slots[Wrap(r.head + i, |r.slots|)];
      if i > 0 { assert Contents(Popped(r))[i - 1] == r.slots[Wrap(Popped(r).head + (i - 1), |r.slots|)]; }
    }
  }

  /** In a valid queue the tail is `count` slots after the head, modulo the capacity. */
  lemma TailPosition<T>(r: Ring<T>)
    requires RingOk(r)
    ensures r.tail == (r.head + r.count) % |r.slots|
  {
    WrapIsRemainder(r.head + r.count, |r.slots|);
  }

  class TaskQueue<T> {
    const num: nat
    const queue: array<T>
    var head: nat
    var tail: nat
    var count: nat

    ghost function Fields(): Ring<T> reads this, queue { Ring(queue[..], head, tail, count) }

    ghost predicate Valid() reads this, queue { queue.Length == num && RingOk(Fields()) }

    /** task_queue_init; calloc fills the slots with `zero`. */
    constructor (num: nat, zero: T)
      requires 0 < num
      ensures Valid() && Contents(Fields()) == [] && this.num == num && fresh(queue)
    {
      this.num := num;
      queue := new T[num](_ => zero);
      head, tail, count := 0, 0, 0;
    }

    /** task_queue_push after its wait, when the queue is not full. */
    method Push(task: T)
      requires Valid() && count < num
      modifies this, queue
      ensures Valid() && Fields() == Pushed(old(Fields()), task)
      ensures Contents(Fields()) == old(Contents(Fields())) + [task]
    {
      PushAppends(Fields(), task);
      WrapIsRemainder(tail + 1, num);
      queue[tail] := task;
      tail := (tail + 1) % num;
      count := count + 1;
    }

    /** task_queue_pop after its wait, when the queue is not empty. */
    method Pop() returns (task: T)
      requires Valid() && count > 0
      modifies this
      ensures Valid() && Fields() == Popped(old(Fields()))
      ensures old(Contents(Fields())) == [task] + Contents(Fields())
    {
      PopTakesFirst(Fields());
      WrapIsRemainder(head + 1, num);
      task := queue[head];
      head := (head + 1) % num;
      count := count - 1;
    }
  }
}
