/**
 The route (lib/route.c): a list of storages with reference counts, as a transition
 system.  Readers scan the list in one step; a writer holds the lock from `Begin` to
 its last step, and reads a counter and acts on it in two steps, because route_deref
 takes no lock.
 */
module Route {
  import opened Names
  import opened Options
  import PM = PrefixMatch

  /** A registered storage: its name, its prefixes, and the operations in flight. */
  datatype Item = Item(name: Label, prefixes: seq<string>, nref: int)

  /** A thread in route_unregister.  Without a target it unregisters until the list is empty or an item is busy. */
  datatype Writer =
    | Looking(t: Tid, target: Option<Label>)
    | Loaded(t: Tid, target: Option<Label>, item: Address, nref: int)

  datatype State = State(list: seq<Address>, items: map<Address, Item>, writer: Option<Writer>, refs: map<Tid, Address>)

  datatype Step =
    | Register(item: Address, name: Label, prefixes: seq<string>)
    | Begin(t: Tid, target: Option<Label>)
    | Look
    | Finish
    | Match(t: Tid, key: Key)
    | Deref(t: Tid)

  /** The inner loop of route_match: some prefix of the item matches. */
  ghost predicate Serves(item: Item, key: Key) {
    exists i :: 0 <= i < |item.prefixes| && PM.Match(item.prefixes[i], key.text)
  }

  ghost function FirstMatch(list: seq<Address>, items: map<Address, Item>, key: Key): (r: Option<Address>)
    requires forall a :: a in list ==> a in items
    ensures r.Some? ==> r.value in list && Serves(items[r.value], key)
    ensures r.None? ==> forall a :: a in list ==> !Serves(items[a], key)
  {
    if list == [] then None
    else if Serves(items[list[0]], key) then Some(list[0])
    else FirstMatch(list[1..], items, key)
  }

  function Labelled(list: seq<Address>, items: map<Address, Item>, name: Label): (r: Option<Address>)
    requires forall a :: a in list ==> a in items
    ensures r.Some? ==> r.value in list && items[r.value].name == name
    ensures r.None? ==> forall a :: a in list ==> items[a].name != name
  {
    if list == [] then None
    else if items[list[0]].name == name then Some(list[0])
    else Labelled(list[1..], items, name)
  }

  function Without(list: seq<Address>, a: Address): seq<Address> {
    if list == [] then [] else if list[0] == a then list[1..] else [list[0]] + Without(list[1..], a)
  }

  predicate Listed(s: State) { forall a :: a in s.list ==> a in s.items }

  /** Whether the step can be taken; a step at a destroyed item has no meaning. */
  predicate Enabled(s: State, step: Step) {
    && Listed(s)
    && match step
       case Register(item, _, _) => s.writer.None? && item !in s.items
       case Begin(_, _) => s.writer.None?
       case Look => s.writer.Some? && s.writer.value.Looking?
       case Finish =>
         && s.writer.Some? && s.writer.value.Loaded?
         && (s.writer.value.nref == 0 ==> s.writer.value.item in s.items)
       case Match(t, _) => s.writer.None? && t !in s.refs
       case Deref(t) => t in s.refs && s.refs[t] in s.items
  }

  function Counted(items: map<Address, Item>, a: Address, more: int): map<Address, Item>
    requires a in items
  {
    items[a := items[a].(nref := items[a].nref + more)]
  }

  function Sought(s: State, target: Option<Label>): Option<Address>
    requires Listed(s)
  {
    if target.Some? then Labelled(s.list, s.items, target.value)
    else if s.list == [] then None
    else Labelled(s.list, s.items, s.items[s.list[0]].name)
  }

  ghost function Next(s: State, step: Step): State
    requires Enabled(s, step)
  {
    match step
    case Register(a, name, prefixes) =>
      if Labelled(s.list, s.items, name).Some? then s      // EEXIST
      else s.(list := [a] + s.list, items := s.items[a := Item(name, prefixes, 0)])
    case Begin(t, target) => s.(writer := Some(Looking(t, target)))
    case Look =>
      var w := s.writer.value;
      var found := Sought(s, w.target);
      if found.None? then s.(writer := None)                // ENOENT, or nothing left
      else s.(writer := Some(Loaded(w.t, w.target, found.value, s.items[found.value].nref)))
    case Finish =>
      var w := s.writer.value;
      if w.nref != 0 then s.(writer := None)                // EBUSY
      else
        State(Without(s.list, w.item), s.items - {w.item},
              if w.target.Some? then None else Some(Looking(w.t, None)), s.refs)
    case Match(t, key) =>
      var found := FirstMatch(s.list, s.items, key);
      if found.None? then s                                 // ENOENT
      else s.(items := Counted(s.items, found.value, 1), refs := s.refs[t := found.value])
    case Deref(t) => s.(items := Counted(s.items, s.refs[t], -1), refs := s.refs - {t})
  }

  /** A match, a registration or an unregistration of anything can start whenever the lock is free. */
  lemma LockFree(s: State, t: Tid, a: Address, name: Label, prefixes: seq<string>, target: Option<Label>, key: Key)
    requires Listed(s) && s.writer.None?
    ensures a !in s.items ==> Enabled(s, Register(a, name, prefixes))
    ensures Enabled(s, Begin(t, target))
    ensures t !in s.refs ==> Enabled(s, Match(t, key))
  {
  }

  function Users(refs: map<Tid, Address>, a: Address): set<Tid> { set t | t in refs && refs[t] == a }

  ghost predicate Distinct(list: seq<Address>) {
    forall i, j :: 0 <= i < j < |list| ==> list[i] != list[j]
  }

  ghost predicate ItemOk(s: State, a: Address)
    requires a in s.items
  {
    a in s.list && s.items[a].nref == |Users(s.refs, a)|
  }

  /** What the writer has read is still an upper bound: references only go away meanwhile. */
  ghost predicate WriterOk(s: State) {
    s.writer.Some? && s.writer.value.Loaded? ==>
      s.writer.value.item in s.items && s.items[s.writer.value.item].nref <= s.writer.value.nref
  }

  /** Names are unique. */
  ghost predicate NamesOk(s: State) {
    forall a, b :: a in s.items && b in s.items && s.items[a].name == s.items[b].name ==> a == b
  }

  ghost predicate Inv(s: State) {
    && NamesOk(s)
    && Listed(s) && Distinct(s.list) && WriterOk(s)
    && (forall a :: a in s.items ==> ItemOk(s, a))
    && (forall t :: t in s.refs ==> s.refs[t] in s.items)
  }

  lemma {:induction false} WithoutMembers(list: seq<Address>, a: Address)
    requires Distinct(list)
    ensures forall b :: b in Without(list, a) <==> b in list && b != a
    ensures Distinct(Without(list, a))
  {
    if list != [] {
      var rest := list[1..];
      assert forall i, j :: 0 <= i < j < |rest| ==> rest[i] == list[i + 1] && rest[j] == list[j + 1];
      WithoutMembers(rest, a);
      assert list[0] !in rest;
      assert list == [list[0]] + rest;
    }
  }

  lemma UsersAdded(refs: map<Tid, Address>, t: Tid, a: Address)
    requires t !in refs
    ensures |Users(refs[t := a], a)| == |Users(refs, a)| + 1
    ensures forall b :: b != a ==> Users(refs[t := a], b) == Users(refs, b)
  {
    assert Users(refs[t := a], a) == Users(refs, a) + {t};
  }

  lemma UsersRemoved(refs: map<Tid, Address>, t: Tid)
    requires t in refs
    ensures |Users(refs - {t}, refs[t])| == |Users(refs, refs[t])| - 1
    ensures forall b :: b != refs[t] ==> Users(refs - {t}, b) == Users(refs, b)
  {
    assert Users(refs, refs[t]) == Users(refs - {t}, refs[t]) + {t};
  }

  lemma InvNext(s: State, step: Step)
    requires Inv(s) && Enabled(s, step)
    ensures Inv(Next(s, step))
  {
    match step
    case Register(a, name, prefixes) => RegisterInv(s, step);
    case Begin(_, _) =>
    case Look => LookInv(s);
    case Finish => FinishInv(s);
    case Match(t, key) => MatchInv(s, t, key);
    case Deref(t) => DerefInv(s, t);
  }

  lemma RegisterInv(s: State, step: Step)
    requires Inv(s) && Enabled(s, step) && step.Register?
    ensures Inv(Next(s, step))
  {
    var s' := Next(s, step);
    if Labelled(s.list, s.items, step.name).None? {
      assert Users(s.refs, step.item) == {};
      forall b | b in s'.items ensures ItemOk(s', b) { if b != step.item { assert ItemOk(s, b); } }
      forall b | b in s.items ensures s.items[b].name != step.name { assert ItemOk(s, b); }
    }
  }

  lemma LookInv(s: State)
    requires Inv(s) && Enabled(s, Look)
    ensures Inv(Next(s, Look))
  {
    var s' := Next(s, Look);
    forall b | b in s'.items ensures ItemOk(s', b) { assert ItemOk(s, b); }
  }

  /** An item whose counter was read as zero is used by nobody and goes. */
  lemma FinishInv(s: State)
    requires Inv(s) && Enabled(s, Finish)
    ensures Inv(Next(s, Finish))
    ensures s.writer.value.nref == 0 ==> Users(s.refs, s.writer.value.item) == {}
  {
    var s', w := Next(s, Finish), s.writer.value;
    if w.nref == 0 {
      assert ItemOk(s, w.item);
      WithoutMembers(s.list, w.item);
      forall t | t in s.refs ensures s.refs[t] != w.item { assert t in s.refs && t !in Users(s.refs, w.item); }
    }
    forall b | b in s'.items ensures ItemOk(s', b) { assert ItemOk(s, b); }
  }

  lemma MatchInv(s: State, t: Tid, key: Key)
    requires Inv(s) && Enabled(s, Match(t, key))
    ensures Inv(Next(s, Match(t, key)))
  {
    var s', found := Next(s, Match(t, key)), FirstMatch(s.list, s.items, key);
    if found.Some? {
      UsersAdded(s.refs, t, found.value);
      forall b | b in s'.items ensures ItemOk(s', b) { assert ItemOk(s, b); }
    }
  }

  lemma DerefInv(s: State, t: Tid)
    requires Inv(s) && Enabled(s, Deref(t))
    ensures Inv(Next(s, Deref(t)))
  {
    var s' := Next(s, Deref(t));
    UsersRemoved(s.refs, t);
    forall b | b in s'.items ensures ItemOk(s', b) { assert ItemOk(s, b); }
  }

  function Init(): State { State([], map[], None, map[]) }

  ghost predicate Runs(s: State, run: seq<Step>, end: State)
    decreases |run|
  {
    if run == [] then end == s
    else Enabled(s, run[0]) && Runs(Next(s, run[0]), run[1..], end)
  }

  lemma {:induction false} InvRuns(s: State, run: seq<Step>, end: State)
    requires Inv(s) && Runs(s, run, end)
    ensures Inv(end)
    decreases |run|
  {
    if run != [] {
      InvNext(s, run[0]);
      InvRuns(Next(s, run[0]), run[1..], end);
    }
  }

  /**
   Over all interleavings of match, use, deref, register and unregister: the counter of
   an item is the number of operations in flight on it, every operation in flight finds
   its item alive, and an item that is destroyed is in use by nobody.
   */
  lemma ReferenceSafety(run: seq<Step>, s: State)
    requires Runs(Init(), run, s)
    ensures forall a :: a in s.items ==> s.items[a].nref == |Users(s.refs, a)|
    ensures forall t :: t in s.refs ==> s.refs[t] in s.items && Enabled(s, Deref(t))
    ensures forall step :: Enabled(s, step) ==> forall a :: a in s.items && a !in Next(s, step).items ==>
              Users(s.refs, a) == {}
  {
    InvRuns(Init(), run, s);
    forall a | a in s.items ensures s.items[a].nref == |Users(s.refs, a)| { assert ItemOk(s, a); }
    forall step | Enabled(s, step)
      ensures forall a :: a in s.items && a !in Next(s, step).items ==> Users(s.refs, a) == {} {
      if step.Finish? { FinishInv(s); }
    }
  }

  /** The item that a step has registered, if any. */
  function JustRegistered(s: State, step: Step): seq<Address>
    requires Enabled(s, step)
  {
    if step.Register? && Labelled(s.list, s.items, step.name).None? then [step.item] else []
  }

  /** All registrations of a run that were successful, in order of time. */
  ghost function Registrations(s: State, run: seq<Step>, end: State): seq<Address>
    requires Runs(s, run, end)
    decreases |run|
  {
    if run == [] then [] else JustRegistered(s, run[0]) + Registrations(Next(s, run[0]), run[1..], end)
  }

  /** When the address was last registered: its place in the order of time, or -1. */
  function Since(log: seq<Address>, a: Address): (n: int)
    ensures -1 <= n < |log| && (n >= 0 ==> log[n] == a) && forall i :: n < i < |log| ==> log[i] != a
  {
    if log == [] then -1 else if log[|log| - 1] == a then |log| - 1 else Since(log[..|log| - 1], a)
  }

  /** Of two listed items the one registered later comes first. */
  ghost predicate NewestFirst(list: seq<Address>, log: seq<Address>) {
    && (forall i :: 0 <= i < |list| ==> 0 <= Since(log, list[i]))
    && (forall i, j :: 0 <= i < j < |list| ==> Since(log, list[i]) > Since(log, list[j]))
  }

  lemma SinceMore(log: seq<Address>, more: Address, a: Address)
    ensures Since(log + [more], a) == if a == more then |log| else Since(log, a)
  {
    assert (log + [more])[..|log|] == log;
  }

  lemma NewestRest(list: seq<Address>, log: seq<Address>)
    requires NewestFirst(list, log) && list != []
    ensures NewestFirst(list[1..], log) && forall b :: b in list[1..] ==> Since(log, list[0]) > Since(log, b)
  {
    var rest := list[1..];
    assert forall i :: 0 <= i < |rest| ==> rest[i] == list[i + 1];
  }

  lemma NewestBefore(a: Address, rest: seq<Address>, log: seq<Address>)
    requires NewestFirst(rest, log) && 0 <= Since(log, a) && forall b :: b in rest ==> Since(log, a) > Since(log, b)
    ensures NewestFirst([a] + rest, log)
  {
    var all := [a] + rest;
    assert forall i :: 0 < i < |all| ==> all[i] == rest[i - 1] && all[i] in rest;
  }

  /** Taking an item out keeps the order of the others. */
  lemma {:induction false} WithoutNewestFirst(list: seq<Address>, a: Address, log: seq<Address>)
    requires NewestFirst(list, log)
    ensures NewestFirst(Without(list, a), log)
    ensures forall b :: b in Without(list, a) ==> b in list
  {
    if list != [] {
      NewestRest(list, log);
      WithoutNewestFirst(list[1..], a, log);
      NewestBefore(list[0], Without(list[1..], a), log);
    }
  }

  lemma RegisteredFirst(list: seq<Address>, a: Address, log: seq<Address>)
    requires NewestFirst(list, log) && a !in list
    ensures NewestFirst([a] + list, log + [a])
  {
    var all := [a] + list;
    SinceMore(log, a, a);
    forall i | 0 < i < |all| ensures Since(log + [a], all[i]) == Since(log, list[i - 1]) {
      SinceMore(log, a, list[i - 1]);
    }
  }

  lemma NewestFirstNext(s: State, step: Step, log: seq<Address>)
    requires Inv(s) && Enabled(s, step) && NewestFirst(s.list, log)
    ensures NewestFirst(Next(s, step).list, log + JustRegistered(s, step))
  {
    assert log + [] == log;
    if step.Register? && Labelled(s.list, s.items, step.name).None? {
      RegisteredFirst(s.list, step.item, log);
    } else if step.Finish? && s.writer.value.nref == 0 {
      WithoutNewestFirst(s.list, s.writer.value.item, log);
    }
  }

  lemma Grouped<T>(a: seq<T>, b: seq<T>, c: seq<T>)
    ensures a + b + c == a + (b + c)
  {
  }

  lemma {:induction false} NewestFirstRuns(s: State, run: seq<Step>, end: State, log: seq<Address>)
    requires Inv(s) && Runs(s, run, end) && NewestFirst(s.list, log)
    ensures NewestFirst(end.list, log + Registrations(s, run, end))
    decreases |run|
  {
    if run == [] {
      assert log + [] == log;
    } else {
      InvNext(s, run[0]);
      NewestFirstNext(s, run[0], log);
      NewestFirstRuns(Next(s, run[0]), run[1..], end, log + JustRegistered(s, run[0]));
      Grouped(log, JustRegistered(s, run[0]), Registrations(Next(s, run[0]), run[1..], end));
    }
  }

  /** Nothing before the item found serves the key. */
  lemma {:induction false} FoundFirst(list: seq<Address>, items: map<Address, Item>, key: Key) returns (i: nat)
    requires (forall a :: a in list ==> a in items) && FirstMatch(list, items, key).Some?
    ensures i < |list| && FirstMatch(list, items, key) == Some(list[i])
    ensures forall j :: 0 <= j < i ==> !Serves(items[list[j]], key)
  {
    if Serves(items[list[0]], key) {
      i := 0;
    } else {
      var k := FoundFirst(list[1..], items, key);
      i := k + 1;
    }
  }

  ghost predicate IsNewestMatch(list: seq<Address>, items: map<Address, Item>, key: Key, log: seq<Address>, a: Address)
    requires forall b :: b in list ==> b in items
  {
    && a in list && Serves(items[a], key)
    && forall b :: b in list && b != a && Serves(items[b], key) ==> Since(log, b) < Since(log, a)
  }

  lemma NewestMatch(list: seq<Address>, items: map<Address, Item>, key: Key, log: seq<Address>)
    requires (forall b :: b in list ==> b in items) && NewestFirst(list, log) && FirstMatch(list, items, key).Some?
    ensures IsNewestMatch(list, items, key, log, FirstMatch(list, items, key).value)
  {
    var i := FoundFirst(list, items, key);
    forall b | b in list && b != list[i] && Serves(items[b], key) ensures Since(log, b) < Since(log, list[i]) {
      var j :| 0 <= j < |list| && list[j] == b;
    }
  }

  /**
   After every run from an empty route: a match finds nothing exactly if no listed item has
   a prefix that matches the key, and otherwise finds, of all listed items that do, the one
   that was registered last.
   */
  lemma NewestWins(run: seq<Step>, s: State, key: Key)
    requires Runs(Init(), run, s)
    ensures Listed(s)
    ensures var log, r := Registrations(Init(), run, s), FirstMatch(s.list, s.items, key);
            && (r.None? <==> forall b :: b in s.list ==> !Serves(s.items[b], key))
            && (r.Some? ==> IsNewestMatch(s.list, s.items, key, log, r.value))
  {
    InvRuns(Init(), run, s);
    var log, r := Registrations(Init(), run, s), FirstMatch(s.list, s.items, key);
    NewestFirstRuns(Init(), run, s, []);
    assert [] + log == log;
    if r.Some? { NewestMatch(s.list, s.items, key, log); }
  }
}
