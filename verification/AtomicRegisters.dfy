/**
 What a client of propd may rely on: one atomic register per key.  An operation acts on
 the register of its key at one instant between its call and its answer.  When other
 storages come to serve some keys, the registers of these keys, and no others, take the
 contents of the new storages.
 */
module AtomicRegisters {
  import opened Names
  import opened Options
  import opened Io

  datatype Pending = Called(op: Op) | Acted(op: Op, result: Result)

  /** The registers of all keys, the keys that some storage serves, and the operations under way. */
  datatype State = State(values: imap<Key, Option<Value>>, routed: iset<Key>, pending: map<Tid, Pending>)

  /** Keys that come to be served by other storages, what these hold, and all keys served from then on. */
  datatype Mount = Mount(keys: iset<Key>, contents: imap<Key, Option<Value>>, routed: iset<Key>)

  datatype Step =
    | Call(t: Tid, op: Op)
    | Act(t: Tid, result: Result)
    | Answer(t: Tid, result: Result)
    | Remount(m: Mount)

  datatype Event = Called(t: Tid, op: Op) | Answered(t: Tid, result: Result) | Remounted(m: Mount)

  /** A read returns the register, a write is done or fails, and only keys without a storage have no route. */
  ghost predicate Allowed(s: State, op: Op, r: Result) {
    && (r.NoRoute? <==> op.key !in s.routed)
    && op.key in s.values
    && match r
       case Found(v) => op.Get? && s.values[op.key] == Some(v)
       case NotFound => op.Get? && s.values[op.key] == None
       case Done => !op.Get?
       case _ => true
  }

  /** Only a write that is done changes its register. */
  ghost function Effect(values: imap<Key, Option<Value>>, op: Op, r: Result): imap<Key, Option<Value>> {
    if !r.Done? || op.Get? then values
    else values[op.key := if op.Set? then Some(op.value) else None]
  }

  ghost predicate Enabled(s: State, step: Step) {
    match step
    case Call(t, _) => t !in s.pending
    case Act(t, r) => t in s.pending && s.pending[t].Called? && Allowed(s, s.pending[t].op, r)
    case Answer(t, r) => t in s.pending && s.pending[t].Acted? && s.pending[t].result == r
    case Remount(m) => m.contents.Keys == m.keys && forall k :: k !in m.keys ==> (k in m.routed <==> k in s.routed)
  }

  ghost function Next(s: State, step: Step): State
    requires Enabled(s, step)
  {
    match step
    case Call(t, op) => s.(pending := s.pending[t := Pending.Called(op)])
    case Act(t, r) =>
      var op := s.pending[t].op;
      s.(values := Effect(s.values, op, r), pending := s.pending[t := Acted(op, r)])
    case Answer(t, _) => s.(pending := s.pending - {t})
    case Remount(m) => s.(values := s.values + m.contents, routed := m.routed)
  }

  ghost predicate Runs(s: State, run: seq<Step>, end: State)
    decreases |run|
  {
    if run == [] then end == s
    else Enabled(s, run[0]) && Runs(Next(s, run[0]), run[1..], end)
  }

  /** What is seen of a step. */
  function Seen(step: Step): seq<Event> {
    match step
    case Call(t, op) => [Event.Called(t, op)]
    case Act(_, _) => []
    case Answer(t, r) => [Answered(t, r)]
    case Remount(m) => [Remounted(m)]
  }

  /** What is seen of a run. */
  function History(run: seq<Step>): seq<Event> {
    if run == [] then [] else Seen(run[0]) + History(run[1..])
  }

  /** Which operations are under way after a history, given which were before. */
  function Open(open: set<Tid>, h: seq<Event>): set<Tid>
    decreases |h|
  {
    if h == [] then open
    else
      Open(match h[0]
           case Called(t, _) => open + {t}
           case Answered(t, _) => open - {t}
           case Remounted(_) => open, h[1..])
  }

  /** A history tells which operations are under way. */
  lemma {:induction false} PendingOpen(s: State, run: seq<Step>, end: State)
    requires Runs(s, run, end)
    ensures end.pending.Keys == Open(s.pending.Keys, History(run))
    decreases |run|
  {
    if run != [] {
      var s', h := Next(s, run[0]), History(run[1..]);
      PendingOpen(s', run[1..], end);
      OpenStep(s.pending.Keys, Seen(run[0]), h);
      assert s'.pending.Keys == Open(s.pending.Keys, Seen(run[0]));
    }
  }

  /** What is seen of one step comes first. */
  lemma OpenStep(open: set<Tid>, seen: seq<Event>, h: seq<Event>)
    requires |seen| <= 1
    ensures Open(open, seen + h) == Open(Open(open, seen), h)
  {
    if seen == [] {
      assert seen + h == h;
    } else {
      assert (seen + h)[0] == seen[0] && (seen + h)[1..] == h;
    }
  }

  lemma {:induction false} RunsJoin(s: State, run: seq<Step>, mid: State, more: seq<Step>, end: State)
    requires Runs(s, run, mid) && Runs(mid, more, end)
    ensures Runs(s, run + more, end)
    decreases |run|
  {
    if run == [] {
      assert run + more == more;
    } else {
      RunsJoin(Next(s, run[0]), run[1..], mid, more, end);
      JoinRest(run, more);
    }
  }

  lemma {:induction false} HistoryJoin(run: seq<Step>, more: seq<Step>)
    ensures History(run + more) == History(run) + History(more)
  {
    if run == [] {
      assert run + more == more;
    } else {
      HistoryJoin(run[1..], more);
      JoinRest(run, more);
      Grouped(Seen(run[0]), History(run[1..]), History(more));
    }
  }

  lemma JoinRest<T>(a: seq<T>, b: seq<T>)
    requires a != []
    ensures (a + b)[0] == a[0] && (a + b)[1..] == a[1..] + b
  {
  }

  lemma Grouped<T>(a: seq<T>, b: seq<T>, c: seq<T>)
    ensures a + b + c == a + (b + c)
  {
  }

  /** What is seen of a step is nothing, or the first event. */
  lemma SeenFirst(step: Step, rest: seq<Event>, h: seq<Event>)
    requires Seen(step) + rest == h
    ensures Seen(step) == [] ==> rest == h
    ensures Seen(step) != [] ==> h != [] && Seen(step) == [h[0]] && rest == h[1..]
  {
    if Seen(step) == [] { assert Seen(step) + rest == rest; }
  }

  /** A run with a history in two parts can be cut between them. */
  lemma {:induction false} RunsCut(s: State, run: seq<Step>, end: State, h: seq<Event>, more: seq<Event>)
    returns (first: seq<Step>, mid: State, second: seq<Step>)
    requires Runs(s, run, end) && History(run) == h + more
    ensures Runs(s, first, mid) && History(first) == h && Runs(mid, second, end) && History(second) == more
    decreases |run|
  {
    if h == [] {
      first, mid, second := [], s, run;
      assert h + more == more;
    } else {
      SeenFirst(run[0], History(run[1..]), h + more);
      var rest := if Seen(run[0]) == [] then h else h[1..];
      var x, m, y := RunsCut(Next(s, run[0]), run[1..], end, rest, more);
      OneMore(s, run[0], x, m);
      first, mid, second := [run[0]] + x, m, y;
    }
  }

  /**
   An operation that is called when nothing is under way and answered before anything else is
   seen: a read has returned its register, a write that is done has set it, and no other
   register has changed.
   */
  lemma OperationAlone(s: State, run: seq<Step>, end: State, t: Tid, op: Op, r: Result)
    requires Runs(s, run, end) && s.pending == map[]
    requires History(run) == [Event.Called(t, op), Answered(t, r)]
    ensures op.key in s.values && (op.key !in s.routed <==> r == NoRoute) && end.routed == s.routed
    ensures op.Get? ==> !r.Done? && end.values == s.values
    ensures op.Get? && r.Found? ==> s.values[op.key] == Some(r.value)
    ensures op.Get? && r.NotFound? ==> s.values[op.key] == None
    ensures !op.Get? ==> !r.Found? && !r.NotFound?
    ensures op.Set? && r.Done? ==> end.values == s.values[op.key := Some(op.value)]
    ensures op.Del? && r.Done? ==> end.values == s.values[op.key := None]
    ensures !r.Done? ==> end.values == s.values
  {
    SeenFirst(run[0], History(run[1..]), [Event.Called(t, op), Answered(t, r)]);
    CalledAlone(Next(s, run[0]), run[1..], end, t, op, r);
  }

  lemma CalledAlone(s: State, run: seq<Step>, end: State, t: Tid, op: Op, r: Result)
    requires Runs(s, run, end) && s.pending == map[t := Pending.Called(op)]
    requires History(run) == [Answered(t, r)]
    ensures Allowed(s, op, r) && end.values == Effect(s.values, op, r) && end.routed == s.routed
  {
    SeenFirst(run[0], History(run[1..]), [Answered(t, r)]);
    ActedAlone(Next(s, run[0]), run[1..], end, t, op, run[0].result, r);
  }

  lemma ActedAlone(s: State, run: seq<Step>, end: State, t: Tid, op: Op, r: Result, answer: Result)
    requires Runs(s, run, end) && s.pending == map[t := Acted(op, r)] && History(run) == [Answered(t, answer)]
    ensures r == answer && end.values == s.values && end.routed == s.routed
  {
    SeenFirst(run[0], History(run[1..]), [Answered(t, answer)]);
    NothingSeen(Next(s, run[0]), run[1..], end);
  }

  /**
   A remount seen alone leaves nothing under way and its contents in the registers of its keys;
   all other registers, and whether their keys are served, stay.
   */
  lemma RemountAlone(s: State, run: seq<Step>, end: State, m: Mount)
    requires Runs(s, run, end) && s.pending == map[] && History(run) == [Remounted(m)]
    ensures end.pending == map[] && end.routed == m.routed && m.contents.Keys == m.keys
    ensures forall k :: k in m.contents ==> k in end.values && end.values[k] == m.contents[k]
    ensures forall k :: k !in m.contents ==>
              && (k in end.values <==> k in s.values) && (k in s.values ==> end.values[k] == s.values[k])
              && (k in end.routed <==> k in s.routed)
  {
    SeenFirst(run[0], History(run[1..]), [Remounted(m)]);
    NothingSeen(Next(s, run[0]), run[1..], end);
  }

  lemma NothingSeen(s: State, run: seq<Step>, end: State)
    requires Runs(s, run, end) && s.pending == map[] && History(run) == []
    ensures end == s
  {
    if run != [] { SeenFirst(run[0], History(run[1..]), []); }
  }

  lemma OneMore(s: State, step: Step, run: seq<Step>, end: State)
    requires Enabled(s, step) && Runs(Next(s, step), run, end)
    ensures Runs(s, [step] + run, end) && History([step] + run) == Seen(step) + History(run)
  {
    var all := [step] + run;
    assert all[0] == step && all[1..] == run;
  }

  /** A run, one more step, and a run after it. */
  lemma RunsAround(s: State, first: seq<Step>, mid: State, step: Step, second: seq<Step>, end: State)
    requires Runs(s, first, mid) && Enabled(mid, step) && Runs(Next(mid, step), second, end)
    ensures Runs(s, first + ([step] + second), end)
    ensures History(first + ([step] + second)) == History(first) + (Seen(step) + History(second))
  {
    OneMore(mid, step, second, end);
    RunsJoin(s, first, mid, [step] + second, end);
    HistoryJoin(first, [step] + second);
  }
}
