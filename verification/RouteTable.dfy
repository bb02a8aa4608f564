/**
 The list of the route changed in place (lib/route.c), as one thread sees it while it
 holds the lock.  The functions that say what each call does are those of the protocol.
 */
module RouteTable {
  import opened Names
  import opened Options
  import opened Route
  import opened CStrings
  import PM = PrefixMatch

  datatype Code = Ok | NotFound | Busy | Occupied

  /** The list without the idle items at its head: what unregistering everything leaves. */
  function DropIdle(list: seq<Address>, items: map<Address, Item>): seq<Address>
    requires forall a :: a in list ==> a in items
  {
    if list == [] || items[list[0]].nref != 0 then list else DropIdle(list[1..], items)
  }

  /** What is left is a tail of the list that is empty or starts with a busy item, and all that went was idle. */
  lemma {:induction false} DropIdleTail(list: seq<Address>, items: map<Address, Item>)
    requires forall a :: a in list ==> a in items
    ensures var rest := DropIdle(list, items);
            && |rest| <= |list| && rest == list[|list| - |rest|..]
            && (rest != [] ==> items[rest[0]].nref != 0)
            && (forall i :: 0 <= i < |list| - |rest| ==> items[list[i]].nref == 0)
  {
    if list != [] && items[list[0]].nref == 0 { DropIdleTail(list[1..], items); }
  }

  lemma {:induction false} DropIdleSame(list: seq<Address>, items: map<Address, Item>, items': map<Address, Item>)
    requires forall a :: a in list ==> a in items && a in items' && items[a] == items'[a]
    ensures DropIdle(list, items) == DropIdle(list, items')
  {
    if list != [] { DropIdleSame(list[1..], items, items'); }
  }

  ghost predicate CStringsOnly(s: seq<string>) { forall i :: 0 <= i < |s| ==> CString(s[i]) }

  /** The inner loop of route_match. */
  method AnyMatches(item: Item, key: Key) returns (r: bool)
    requires CStringsOnly(item.prefixes) && CString(key.text)
    ensures r == Serves(item, key)
  {
    var i := 0;
    while i < |item.prefixes|
      invariant i <= |item.prefixes| && forall j :: 0 <= j < i ==> !PM.Match(item.prefixes[j], key.text)
    {
      var m := PM.Matches(item.prefixes[i], key.text);
      if m { return true; }
      i := i + 1;
    }
    r := false;
  }

  /** What a registration does: a new item at the head, unless an item has the name. */
  ghost predicate Registered(list: seq<Address>, items: map<Address, Item>, list': seq<Address>,
                             items': map<Address, Item>, a: Address, name: Label, prefixes: seq<string>, r: Code)
  {
    && r in {Ok, Occupied}
    && (r == Occupied <==> exists b :: b in items && items[b].name == name)
    && (r == Ok ==> list' == [a] + list && items' == items[a := Item(name, prefixes, 0)])
    && (r == Occupied ==> list' == list && items' == items)
  }

  /** What unregistering a name does: the item with the name goes, unless it is in use. */
  ghost predicate Unregistered(list: seq<Address>, items: map<Address, Item>, list': seq<Address>,
                               items': map<Address, Item>, name: Label, r: Code)
  {
    && r in {Ok, NotFound, Busy}
    && (r == NotFound <==> forall a :: a in items ==> items[a].name != name)
    && (r == Busy <==> exists a :: a in items && items[a].name == name && items[a].nref != 0)
    && (r != Ok ==> list' == list && items' == items)
    && (r == Ok ==>
          exists a :: a in items && items[a].name == name && list' == Without(list, a) && items' == items - {a})
  }

  /** The counter of `a`, and nothing else, differs by `more`. */
  ghost predicate CountedBy(items: map<Address, Item>, items': map<Address, Item>, a: Address, more: int) {
    && items'.Keys == items.Keys && a in items
    && items'[a].nref == items[a].nref + more
    && items'[a].name == items[a].name && items'[a].prefixes == items[a].prefixes
    && forall b :: b in items && b != a ==> items'[b] == items[b]
  }

  /** What a match does: the first item that serves the key has one more reference. */
  ghost predicate Matched(list: seq<Address>, items: map<Address, Item>, items': map<Address, Item>, key: Key,
                          r: Option<Address>)
    requires forall a :: a in list ==> a in items
  {
    && r == FirstMatch(list, items, key)
    && if r.Some? then CountedBy(items, items', r.value, 1) else items' == items
  }

  class Table {
    var list: seq<Address>
    var items: map<Address, Item>

    ghost predicate Valid()
      reads this
    {
      && (forall a :: a in list ==> a in items) && (forall a :: a in items ==> a in list) && Distinct(list)
      && (forall a, b :: a in items && b in items && items[a].name == items[b].name ==> a == b)
      && (forall a :: a in items ==> CStringsOnly(items[a].prefixes))
    }

    constructor ()
      ensures Valid() && list == []
    {
      list, items := [], map[];
    }

    /** The scan for a name. */
    method Scan(name: Label) returns (r: Option<Address>)
      requires Valid()
      ensures r == Labelled(list, items, name)
    {
      var i := 0;
      while i < |list|
        invariant i <= |list| && Labelled(list, items, name) == Labelled(list[i..], items, name)
      {
        if items[list[i]].name == name { return Some(list[i]); }
        assert list[i..][1..] == list[i + 1..];
        i := i + 1;
      }
      r := None;
    }

    /** __route_register: a new item at the head, unless its name is taken. */
    method Register(item: Address, name: Label, prefixes: seq<string>) returns (r: Code)
      requires Valid() && item !in items && CStringsOnly(prefixes)
      modifies this
      ensures Valid() && Registered(old(list), old(items), list, items, item, name, prefixes, r)
    {
      var found := Scan(name);
      if found.Some? { return Occupied; }
      list, items := [item] + list, items[item := Item(name, prefixes, 0)];
      r := Ok;
    }

    /** __route_unregister: remove the item with the name, unless it is in use. */
    method Unregister(name: Label) returns (r: Code)
      requires Valid()
      modifies this
      ensures Valid() && Unregistered(old(list), old(items), list, items, name, r)
    {
      var found := Scan(name);
      if found.None? { return NotFound; }
      var a := found.value;
      if items[a].nref != 0 { return Busy; }
      WithoutMembers(list, a);
      list, items := Without(list, a), items - {a};
      r := Ok;
    }

    /** route_unregister without a name: from the head on, until the list is empty or an item is busy. */
    method UnregisterAll() returns (r: Code)
      requires Valid()
      modifies this
      ensures Valid() && list == DropIdle(old(list), old(items)) && (r == Ok <==> list == [])
      ensures forall a :: a in items ==> a in old(items) && items[a] == old(items)[a]
    {
      r := Ok;
      while list != [] && r == Ok
        invariant Valid() && (forall a :: a in items ==> a in old(items) && items[a] == old(items)[a])
        invariant r == Ok || r == Busy
        invariant DropIdle(list, items) == DropIdle(old(list), old(items))
        invariant r == Busy ==> list != [] && items[list[0]].nref != 0
        decreases |list|, r == Ok
      {
        r := UnregisterHead();
      }
    }

    method UnregisterHead() returns (r: Code)
      requires Valid() && list != []
      modifies this
      ensures Valid()
      ensures r == if old(items)[old(list)[0]].nref == 0 then Ok else Busy
      ensures r == Busy ==> list == old(list) && items == old(items)
      ensures r == Ok ==> list == old(list)[1..] && items == old(items) - {old(list)[0]}
      ensures DropIdle(list, items) == DropIdle(old(list), old(items))
    {
      ghost var before := items;
      r := Unregister(items[list[0]].name);
      if r == Ok { DropIdleSame(list, items, before); }
    }

    /** The loops of route_match. */
    method Seek(key: Key) returns (r: Option<Address>)
      requires Valid() && CString(key.text)
      ensures r == FirstMatch(list, items, key)
    {
      var i := 0;
      while i < |list|
        invariant i <= |list| && FirstMatch(list, items, key) == FirstMatch(list[i..], items, key)
      {
        var served := AnyMatches(items[list[i]], key);
        if served { return Some(list[i]); }
        assert list[i..][1..] == list[i + 1..];
        i := i + 1;
      }
      r := None;
    }

    /** route_match: count a reference on the newest item that serves the key. */
    method Match(key: Key) returns (r: Option<Address>)
      requires Valid() && CString(key.text)
      modifies this`items
      ensures Valid() && Matched(list, old(items), items, key, r)
    {
      r := Seek(key);
      if r.Some? {
        var a := r.value;
        items := Counted(items, a, 1);
      }
    }

    /** route_deref. */
    method Deref(a: Address)
      requires Valid() && a in items
      modifies this`items
      ensures Valid() && CountedBy(old(items), items, a, -1)
    {
      items := Counted(items, a, -1);
    }
  }

  /** A registration, a match and a deref of the protocol do to the list and the items what the calls do. */
  lemma ProtocolSteps(s: State, step: Step)
    requires Inv(s) && Enabled(s, step)
    ensures var s' := Next(s, step);
            match step
            case Register(a, name, prefixes) =>
              exists r :: Registered(s.list, s.items, s'.list, s'.items, a, name, prefixes, r)
            case Match(t, key) =>
              var r := FirstMatch(s.list, s.items, key);
              && s'.list == s.list && Matched(s.list, s.items, s'.items, key, r)
              && s'.refs == if r.Some? then s.refs[t := r.value] else s.refs
            case Deref(t) =>
              s'.list == s.list && s'.refs == s.refs - {t} && CountedBy(s.items, s'.items, s.refs[t], -1)
            case _ => true
  {
    forall a | a in s.items ensures a in s.list { assert ItemOk(s, a); }
    if step.Register? {
      var r := if Labelled(s.list, s.items, step.name).Some? then Occupied else Ok;
      var s' := Next(s, step);
      assert Registered(s.list, s.items, s'.list, s'.items, step.item, step.name, step.prefixes, r);
    }
  }

  lemma OnlyCounts(s: State, step: Step)
    requires s.writer.Some? && s.writer.value.Loaded? && Enabled(s, step) && !step.Finish?
    ensures var s' := Next(s, step);
            && s'.writer == s.writer && s'.list == s.list && s'.items.Keys == s.items.Keys
            && forall a :: a in s.items ==> s'.items[a].name == s.items[a].name
  {
  }

  /** While a writer is between its look and its last step, counters change and nothing else. */
  lemma {:induction false} WriterWaits(s: State, run: seq<Step>, mid: State)
    requires Inv(s) && s.writer.Some? && s.writer.value.Loaded? && Runs(s, run, mid)
    requires forall i :: 0 <= i < |run| ==> !run[i].Finish?
    ensures Inv(mid) && mid.writer == s.writer && mid.list == s.list && mid.items.Keys == s.items.Keys
    ensures forall a :: a in s.items ==> mid.items[a].name == s.items[a].name
    decreases |run|
  {
    if run != [] {
      InvNext(s, run[0]);
      OnlyCounts(s, run[0]);
      WriterWaits(Next(s, run[0]), run[1..], mid);
    }
  }

  /** With the lock free, a writer can begin, and moves nothing yet; then it can look. */
  lemma WriterBegins(s: State, t: Tid, target: Option<Label>)
    requires Inv(s) && s.writer.None?
    ensures Enabled(s, Begin(t, target))
    ensures var begun := Next(s, Begin(t, target));
            && begun == s.(writer := begun.writer) && begun.writer == Some(Looking(t, target))
            && Inv(begun) && Enabled(begun, Look)
  {
    InvNext(s, Begin(t, target));
  }

  /** The look of a writer for a name: nothing there, or an item that may be busy. */
  lemma LookForName(s: State, t: Tid, name: Label)
    requires Inv(s) && s.writer == Some(Looking(t, Some(name)))
    ensures var looked := Next(s, Look);
            && Inv(looked) && looked.list == s.list && looked.items == s.items
            && match looked.writer
               case None => Unregistered(s.list, s.items, s.list, s.items, name, NotFound)
               case Some(w) =>
                 && w.Loaded? && w.target == Some(name) && w.item in s.items && s.items[w.item].name == name
                 && (w.nref != 0 ==> Unregistered(s.list, s.items, s.list, s.items, name, Busy))
  {
    forall a | a in s.items ensures a in s.list { assert ItemOk(s, a); }
    LookInv(s);
  }

  /** Its last step. */
  lemma FinishWithName(s: State, name: Label)
    requires Inv(s) && s.writer.Some? && s.writer.value.Loaded? && s.writer.value.target == Some(name)
    requires s.writer.value.item in s.items && s.items[s.writer.value.item].name == name
    ensures Enabled(s, Finish)
    ensures var done := Next(s, Finish);
            && done.writer.None?
            && if s.writer.value.nref == 0 then Unregistered(s.list, s.items, done.list, done.items, name, Ok)
               else done.list == s.list && done.items == s.items
  {
    assert ItemOk(s, s.writer.value.item);
  }

  /**
   A writer of the protocol that looks for a name does what one call does: at the moment of
   the look if the name is unknown or busy, and at its last step if the item goes, whatever
   the threads that use the items do in between.
   */
  lemma ProtocolUnregisters(s: State, t: Tid, name: Label, run: seq<Step>, mid: State)
    requires Inv(s) && s.writer == Some(Looking(t, Some(name)))
    requires Next(s, Look).writer.Some? ==> Runs(Next(s, Look), run, mid)
    requires forall i :: 0 <= i < |run| ==> !run[i].Finish?
    ensures var looked := Next(s, Look);
            if looked.writer.None? then Unregistered(s.list, s.items, looked.list, looked.items, name, NotFound)
            else
              && Enabled(mid, Finish)
              && var done := Next(mid, Finish);
                 done.writer.None? &&
                 if looked.writer.value.nref == 0 then
                   Unregistered(mid.list, mid.items, done.list, done.items, name, Ok)
                 else
                   && done.list == mid.list && done.items == mid.items
                   && Unregistered(s.list, s.items, looked.list, looked.items, name, Busy)
  {
    LookForName(s, t, name);
    var looked := Next(s, Look);
    if looked.writer.Some? {
      WriterWaits(looked, run, mid);
      FinishWithName(mid, name);
    }
  }

  /** Without a name, and with nobody else moving, the writer leaves what the loop of calls leaves. */
  lemma {:induction false} ProtocolUnregistersAll(s: State, t: Tid, run: seq<Step>, end: State)
    requires Inv(s) && s.writer == Some(Looking(t, None)) && Runs(s, run, end) && end.writer.None?
    requires forall i :: 0 <= i < |run| ==> run[i].Look? || run[i].Finish?
    ensures end.list == DropIdle(s.list, s.items)
    decreases |run|
  {
    var looked := Next(s, run[0]);
    var rest := run[1..];
    assert run[0].Look?;
    if s.list != [] {
      assert rest[0].Finish? && looked.writer.value.item == s.list[0];
      var done := Next(looked, rest[0]);
      LookInv(s);
      FinishInv(looked);
      if done.writer.Some? {
        ProtocolUnregistersAll(done, t, rest[1..], end);
        DropIdleSame(done.list, done.items, s.items);
      } else {
        Stopped(done, rest[1..], end);
      }
    } else {
      Stopped(looked, rest, end);
    }
  }

  lemma Stopped(s: State, run: seq<Step>, end: State)
    requires s.writer.None? && Runs(s, run, end)
    requires forall i :: 0 <= i < |run| ==> run[i].Look? || run[i].Finish?
    ensures end == s
  {
  }
}
