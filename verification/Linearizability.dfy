/**
 Linearizability of the key operations over whole runs: although cache hits are read
 without the key lock, every interleaving looks like operations on atomic registers.
 */
module Linearizability {
  import opened Names
  import opened Options
  import opened Io
  import opened IoLinear
  import opened IoReroute
  import AR = AtomicRegisters
  import CM = CacheModel
  import RT = Route

  /** The step of the registers, if any, that a step of the program stands for. */
  ghost function StepImage(cfg: CM.Config, s: State, step: Step): Option<AR.Step>
    requires Inv(s) && Enabled(s, step)
  {
    if step.Admin? then
      InvNext(cfg, s, step);
      Some(AR.Remount(Remounts(s, Next(cfg, s, step))))
    else Image(cfg, s, step)
  }

  /** No change of the route during the run does harm. */
  ghost predicate Tame(cfg: CM.Config, s: State, run: seq<Step>, end: State)
    requires Inv(s) && Runs(cfg, s, run, end)
    decreases |run|
  {
    if run == [] then true
    else
      InvNext(cfg, s, run[0]);
      (run[0].Admin? ==> Harmless(s, Next(cfg, s, run[0]))) && Tame(cfg, Next(cfg, s, run[0]), run[1..], end)
  }

  /** In particular not when the route stays as it is. */
  lemma {:induction false} FixedIsTame(cfg: CM.Config, s: State, run: seq<Step>, end: State)
    requires Inv(s) && Runs(cfg, s, run, end) && forall i :: 0 <= i < |run| ==> !run[i].Admin?
    ensures Tame(cfg, s, run, end)
    decreases |run|
  {
    if run != [] {
      InvNext(cfg, s, run[0]);
      FixedIsTame(cfg, Next(cfg, s, run[0]), run[1..], end);
    }
  }

  /** The run of the registers that a run of the program stands for. */
  ghost function ImageRun(cfg: CM.Config, s: State, run: seq<Step>, end: State): seq<AR.Step>
    requires Inv(s) && Runs(cfg, s, run, end)
    decreases |run|
  {
    if run == [] then []
    else
      var image := StepImage(cfg, s, run[0]);
      InvNext(cfg, s, run[0]);
      (if image.Some? then [image.value] else []) + ImageRun(cfg, Next(cfg, s, run[0]), run[1..], end)
  }

  /** What is seen of a step of the program: a call, an answer with its result, or a change of the storages. */
  ghost function Seen(cfg: CM.Config, s: State, step: Step): seq<AR.Event>
    requires Inv(s) && Enabled(s, step)
  {
    match step
    case Invoke(t, op) => [AR.Event.Called(t, op)]
    case Return(t) => [AR.Answered(t, s.ops[t].result)]
    case Admin(_, _) =>
      InvNext(cfg, s, step);
      [AR.Remounted(Remounts(s, Next(cfg, s, step)))]
    case _ => []
  }

  ghost function History(cfg: CM.Config, s: State, run: seq<Step>, end: State): seq<AR.Event>
    requires Inv(s) && Runs(cfg, s, run, end)
    decreases |run|
  {
    if run == [] then []
    else
      InvNext(cfg, s, run[0]);
      Seen(cfg, s, run[0]) + History(cfg, Next(cfg, s, run[0]), run[1..], end)
  }

  /** Every step of the program is no step or one step of the registers. */
  lemma StepRel(cfg: CM.Config, s: State, a: AR.State, step: Step)
    requires Related(s, a) && Enabled(s, step)
    requires Inv(Next(cfg, s, step)) && (step.Admin? ==> Harmless(s, Next(cfg, s, step)))
    ensures StepImage(cfg, s, step).Some? ==> AR.Enabled(a, StepImage(cfg, s, step).value)
    ensures Related(Next(cfg, s, step), After(a, StepImage(cfg, s, step)))
  {
    if step.Admin? {
      AdminRel(cfg, s, a, step);
    } else {
      RelNext(cfg, s, a, HomeOf(s), step);
      HomeIs(Next(cfg, s, step), HomeOf(s));
    }
  }

  lemma {:induction false} RelRuns(cfg: CM.Config, s: State, a: AR.State, run: seq<Step>, end: State)
    returns (b: AR.State)
    requires Related(s, a) && Runs(cfg, s, run, end) && Tame(cfg, s, run, end)
    ensures AR.Runs(a, ImageRun(cfg, s, run, end), b) && Related(end, b)
    ensures AR.History(ImageRun(cfg, s, run, end)) == History(cfg, s, run, end)
    decreases |run|
  {
    if run == [] {
      b := a;
    } else {
      InvNext(cfg, s, run[0]);
      StepRel(cfg, s, a, run[0]);
      b := RelRuns(cfg, Next(cfg, s, run[0]), After(a, StepImage(cfg, s, run[0])), run[1..], end);
      SeenAlike(cfg, s, run[0]);
      OneMore(a, StepImage(cfg, s, run[0]), ImageRun(cfg, Next(cfg, s, run[0]), run[1..], end), b);
    }
  }

  lemma OneMore(a: AR.State, image: Option<AR.Step>, rest: seq<AR.Step>, b: AR.State)
    requires (image.Some? ==> AR.Enabled(a, image.value)) && AR.Runs(After(a, image), rest, b)
    ensures var all := (if image.Some? then [image.value] else []) + rest;
            && AR.Runs(a, all, b)
            && AR.History(all) == (if image.Some? then AR.Seen(image.value) else []) + AR.History(rest)
  {
    if image.Some? {
      AR.OneMore(a, image.value, rest, b);
    } else {
      assert [] + rest == rest;
    }
  }

  lemma SeenAlike(cfg: CM.Config, s: State, step: Step)
    requires Inv(s) && Enabled(s, step)
    ensures Seen(cfg, s, step) == if StepImage(cfg, s, step).Some? then AR.Seen(StepImage(cfg, s, step).value) else []
  {
  }

  /** The run shows its clients what some run of the registers shows. */
  ghost predicate Atomic(cfg: CM.Config, s: State, run: seq<Step>, end: State)
    requires Inv(s) && Runs(cfg, s, run, end)
  {
    exists atomic, b :: AR.Runs(Registers(s), atomic, b) && AR.History(atomic) == History(cfg, s, run, end)
  }

  ghost predicate NoChange(run: seq<Step>) { forall i :: 0 <= i < |run| ==> !run[i].Admin? }

  /**
   For every interleaving of gets, sets and deletions by any number of threads, with the
   cleaner running, time passing and storages registered and unregistered without harm, the
   calls and answers that clients see are those of a run of atomic registers that start with
   the contents of the storages.
   */
  lemma Linearizable(cfg: CM.Config, start: State, run: seq<Step>, end: State)
    requires Initial(start) && Runs(cfg, start, run, end)
    ensures Inv(start)
    ensures Tame(cfg, start, run, end) ==>
              Atomic(cfg, start, run, end)
  {
    InitialRel(start);
    if Tame(cfg, start, run, end) {
      var b := RelRuns(cfg, start, Registers(start), run, end);
      assert AR.Runs(Registers(start), ImageRun(cfg, start, run, end), b);
    }
  }

  /**
   After every such run a live cache entry is what its register holds, and when no
   operation is in flight the storages that serve the keys hold what the registers hold.
   */
  lemma CacheCoherent(cfg: CM.Config, start: State, run: seq<Step>, end: State, k: Key) returns (b: AR.State)
    requires Initial(start) && Inv(start) && Runs(cfg, start, run, end) && Tame(cfg, start, run, end)
    ensures Inv(end) && AR.Runs(Registers(start), ImageRun(cfg, start, run, end), b) && k in b.values
    ensures end.cache.Some? && k in end.cache.value && !CM.Outdated(end.cache.value[k], end.now) ==>
              b.values[k] == Some(end.cache.value[k].value)
    ensures end.ops == map[] ==> b.values[k] == Content(end, HomeOf(end), k)
  {
    InitialRel(start);
    b := RelRuns(cfg, start, Registers(start), run, end);
    Coherent(end, b, k);
  }

  /** Histories of joined runs. */
  lemma {:induction false} HistoryJoin(cfg: CM.Config, s: State, run: seq<Step>, mid: State, more: seq<Step>,
                                       end: State)
    requires Inv(s) && Inv(mid) && Runs(cfg, s, run, mid) && Runs(cfg, mid, more, end) && Runs(cfg, s, run + more, end)
    ensures History(cfg, s, run + more, end) == History(cfg, s, run, mid) + History(cfg, mid, more, end)
    decreases |run|
  {
    if run == [] {
      assert run + more == more;
      assert [] + History(cfg, mid, more, end) == History(cfg, mid, more, end);
    } else {
      InvNext(cfg, s, run[0]);
      AR.JoinRest(run, more);
      HistoryJoin(cfg, Next(cfg, s, run[0]), run[1..], mid, more, end);
      AR.Grouped(Seen(cfg, s, run[0]), History(cfg, Next(cfg, s, run[0]), run[1..], mid), History(cfg, mid, more, end));
    }
  }

  /** A history tells which operations are under way in the program, too. */
  lemma {:induction false} OpsOpen(cfg: CM.Config, s: State, run: seq<Step>, end: State)
    requires Inv(s) && Runs(cfg, s, run, end)
    ensures end.ops.Keys == AR.Open(s.ops.Keys, History(cfg, s, run, end))
    decreases |run|
  {
    if run != [] {
      var s' := Next(cfg, s, run[0]);
      InvNext(cfg, s, run[0]);
      OpsOpen(cfg, s', run[1..], end);
      AR.OpenStep(s.ops.Keys, Seen(cfg, s, run[0]), History(cfg, s', run[1..], end));
      SeenOpen(cfg, s, run[0]);
    }
  }

  lemma SeenOpen(cfg: CM.Config, s: State, step: Step)
    requires Inv(s) && Enabled(s, step)
    ensures |Seen(cfg, s, step)| <= 1 && Next(cfg, s, step).ops.Keys == AR.Open(s.ops.Keys, Seen(cfg, s, step))
  {
  }

  /** A run, one change of the route, and a run after it. */
  function Around(before: seq<Step>, change: Step, run: seq<Step>): seq<Step> { before + ([change] + run) }

  lemma AroundRuns(cfg: CM.Config, s: State, before: seq<Step>, mid: State, change: Step, run: seq<Step>, end: State)
    requires Inv(s) && Runs(cfg, s, before, mid) && change.Admin? && Enabled(mid, change)
    requires Inv(mid) && Inv(Next(cfg, mid, change)) && Runs(cfg, Next(cfg, mid, change), run, end)
    ensures Runs(cfg, s, Around(before, change, run), end)
    ensures var mid' := Next(cfg, mid, change);
            History(cfg, s, Around(before, change, run), end)
            == History(cfg, s, before, mid) + ([AR.Remounted(Remounts(mid, mid'))] + History(cfg, mid', run, end))
  {
    var all := [change] + run;
    assert all[0] == change && all[1..] == run;
    assert Runs(cfg, mid, all, end);
    RunsJoin(cfg, s, before, mid, all, end);
    HistoryJoin(cfg, s, before, mid, all, end);
  }

  /** What follows a change that does no harm is seen of the registers, too. */
  lemma AfterChange(cfg: CM.Config, mid: State, a: AR.State, change: Step, run: seq<Step>, end: State)
    returns (second: seq<AR.Step>, b: AR.State)
    requires Related(mid, a) && change.Admin? && Enabled(mid, change) && NoChange(run)
    requires Inv(Next(cfg, mid, change)) && Harmless(mid, Next(cfg, mid, change))
    requires Runs(cfg, Next(cfg, mid, change), run, end)
    ensures var r := AR.Remount(Remounts(mid, Next(cfg, mid, change)));
            && AR.Enabled(a, r) && AR.Runs(AR.Next(a, r), second, b)
            && AR.History(second) == History(cfg, Next(cfg, mid, change), run, end)
  {
    var mid' := Next(cfg, mid, change);
    AdminRel(cfg, mid, a, change);
    FixedIsTame(cfg, mid', run, end);
    b := RelRuns(cfg, mid', AR.Next(a, AR.Remount(Remounts(mid, mid'))), run, end);
    second := ImageRun(cfg, mid', run, end);
  }

  lemma HarmlessAtomic(cfg: CM.Config, start: State, before: seq<Step>, mid: State, change: Step, run: seq<Step>,
                       end: State)
    requires Initial(start) && Inv(start) && Runs(cfg, start, before, mid) && Tame(cfg, start, before, mid)
    requires Inv(mid) && change.Admin? && Enabled(mid, change) && NoChange(run)
    requires Inv(Next(cfg, mid, change)) && Harmless(mid, Next(cfg, mid, change))
    requires Runs(cfg, Next(cfg, mid, change), run, end)
    ensures Runs(cfg, start, Around(before, change, run), end) && Atomic(cfg, start, Around(before, change, run), end)
  {
    InitialRel(start);
    var a := RelRuns(cfg, start, Registers(start), before, mid);
    var second, b := AfterChange(cfg, mid, a, change, run, end);
    AroundRuns(cfg, start, before, mid, change, run, end);
    var first, r := ImageRun(cfg, start, before, mid), AR.Remount(Remounts(mid, Next(cfg, mid, change)));
    AR.RunsAround(Registers(start), first, a, r, second, b);
    IsAtomic(cfg, start, Around(before, change, run), end, first + ([r] + second), b);
  }

  lemma IsAtomic(cfg: CM.Config, s: State, run: seq<Step>, end: State, atomic: seq<AR.Step>, b: AR.State)
    requires Inv(s) && Runs(cfg, s, run, end) && AR.Runs(Registers(s), atomic, b)
    requires AR.History(atomic) == History(cfg, s, run, end)
    ensures Atomic(cfg, s, run, end)
  {
  }

  /** The key that is rerouted although the cache still answers for it with something else. */
  lemma HarmfulKey(s: State, s': State) returns (k: Key)
    requires RT.Listed(s.route) && RT.Listed(s'.route) && s.ops == map[] && !Harmless(s, s')
    ensures Rerouted(HomeOf(s), HomeOf(s'), k) && Live(s, k)
    ensures Content(s', HomeOf(s'), k) != Some(s.cache.value[k].value)
  {
    k :| && Rerouted(HomeOf(s), HomeOf(s'), k)
         && (Busy(s, k) || (Live(s, k) && Content(s', HomeOf(s'), k) != Some(s.cache.value[k].value)));
  }

  /** A read of that key. */
  function Reading(k: Key): seq<Step> { [Invoke(0, Get(k)), Start(0), Return(0)] }

  lemma ReadingRuns(cfg: CM.Config, s: State, k: Key) returns (end: State)
    requires Inv(s) && s.ops == map[] && Live(s, k)
    ensures Runs(cfg, s, Reading(k), end)
    ensures History(cfg, s, Reading(k), end) == [AR.Event.Called(0, Get(k)),
              AR.Answered(0, Found(s.cache.value[k].value))]
  {
    var s1 := Next(cfg, s, Invoke(0, Get(k)));
    InvNext(cfg, s, Invoke(0, Get(k)));
    var s2 := Next(cfg, s1, Start(0));
    InvNext(cfg, s1, Start(0));
    end := Next(cfg, s2, Return(0));
    InvNext(cfg, s2, Return(0));
    assert Reading(k)[1..] == [Start(0), Return(0)];
    assert [Start(0), Return(0)][1..] == [Return(0)] && [Return(0)][1..] == [];
    assert Runs(cfg, end, [], end) && Runs(cfg, s2, [Return(0)], end) && Runs(cfg, s1, [Start(0), Return(0)], end);
  }

  /** When everything is at rest and a change does harm, a read of the key is not atomic. */
  lemma HarmNotAtomic(cfg: CM.Config, start: State, before: seq<Step>, mid: State, change: Step, k: Key, end: State)
    requires Initial(start) && Inv(start) && Runs(cfg, start, before, mid) && Inv(mid) && mid.ops == map[]
    requires change.Admin? && Enabled(mid, change) && Inv(Next(cfg, mid, change))
    requires var mid' := Next(cfg, mid, change);
             && Rerouted(HomeOf(mid), HomeOf(mid'), k) && Live(mid, k)
             && Content(mid', HomeOf(mid'), k) != Some(mid.cache.value[k].value)
             && Runs(cfg, mid', Reading(k), end)
             && History(cfg, mid', Reading(k), end) == [AR.Event.Called(0, Get(k)),
                   AR.Answered(0, Found(mid.cache.value[k].value))]
    ensures Runs(cfg, start, Around(before, change, Reading(k)), end)
    ensures !Atomic(cfg, start, Around(before, change, Reading(k)), end)
  {
    var mid' := Next(cfg, mid, change);
    AroundRuns(cfg, start, before, mid, change, Reading(k), end);
    OpsOpen(cfg, start, before, mid);
    forall atomic, b | AR.Runs(Registers(start), atomic, b)
      ensures AR.History(atomic) != History(cfg, start, Around(before, change, Reading(k)), end) {
      if AR.History(atomic) == History(cfg, start, Around(before, change, Reading(k)), end) {
        ReadRemounted(Registers(start), atomic, b, History(cfg, start, before, mid), Remounts(mid, mid'), k,
            mid.cache.value[k].value);
      }
    }
  }

  /** After a remount of the key with nothing under way, a read returns what was mounted. */
  lemma ReadRemounted(a: AR.State, atomic: seq<AR.Step>, b: AR.State, h: seq<AR.Event>, m: AR.Mount, k: Key, v: Value)
    requires AR.Runs(a, atomic, b) && AR.Open(a.pending.Keys, h) == {}
    requires AR.History(atomic) == h + ([AR.Remounted(m)] + [AR.Event.Called(0, Get(k)), AR.Answered(0, Found(v))])
    requires k in m.contents
    ensures m.contents[k] == Some(v)
  {
    var first, c, rest := AR.RunsCut(a, atomic, b, h,
        [AR.Remounted(m)] + [AR.Event.Called(0, Get(k)), AR.Answered(0, Found(v))]);
    AR.PendingOpen(a, first, c);
    var second, d, third := AR.RunsCut(c, rest, b, [AR.Remounted(m)],
        [AR.Event.Called(0, Get(k)), AR.Answered(0, Found(v))]);
    AR.RemountAlone(c, second, d, m);
    AR.OperationAlone(d, third, b, 0, Get(k), Found(v));
  }

  /** Whatever follows the change, without further ones, is atomic. */
  ghost predicate AtomicAfter(cfg: CM.Config, start: State, before: seq<Step>, mid: State, change: Step)
    requires Inv(start) && Enabled(mid, change)
  {
    forall run, end :: Runs(cfg, Next(cfg, mid, change), run, end) && NoChange(run) ==>
      Runs(cfg, start, Around(before, change, run), end) && Atomic(cfg, start, Around(before, change, run), end)
  }

  lemma HarmlessAtomicAfter(cfg: CM.Config, start: State, before: seq<Step>, mid: State, change: Step)
    requires Initial(start) && Inv(start) && Runs(cfg, start, before, mid) && Tame(cfg, start, before, mid)
    requires Inv(mid) && change.Admin? && Enabled(mid, change)
    requires Inv(Next(cfg, mid, change)) && Harmless(mid, Next(cfg, mid, change))
    ensures AtomicAfter(cfg, start, before, mid, change)
  {
    forall run, end | Runs(cfg, Next(cfg, mid, change), run, end) && NoChange(run)
      ensures Runs(cfg, start, Around(before, change, run), end)
      ensures Atomic(cfg, start, Around(before, change, run), end) {
      HarmlessAtomic(cfg, start, before, mid, change, run, end);
    }
  }

  lemma HarmNotAtomicAfter(cfg: CM.Config, start: State, before: seq<Step>, mid: State, change: Step)
    requires Initial(start) && Inv(start) && Runs(cfg, start, before, mid) && Inv(mid) && mid.ops == map[]
    requires change.Admin? && Enabled(mid, change) && Inv(Next(cfg, mid, change))
    requires !Harmless(mid, Next(cfg, mid, change))
    ensures !AtomicAfter(cfg, start, before, mid, change)
  {
    var k, end := HarmfulRead(cfg, start, before, mid, change);
    ReadingNoChange(k);
    var run := Reading(k);
    NotAllAtomic(cfg, start, before, mid, change, run, end);
  }

  lemma NotAllAtomic(cfg: CM.Config, start: State, before: seq<Step>, mid: State, change: Step, run: seq<Step>,
                     end: State)
    requires Inv(start) && Enabled(mid, change) && Runs(cfg, Next(cfg, mid, change), run, end) && NoChange(run)
    requires Runs(cfg, start, Around(before, change, run), end) && !Atomic(cfg, start, Around(before, change, run), end)
    ensures !AtomicAfter(cfg, start, before, mid, change)
  {
  }

  /**
   At rest, exactly the harmless changes of the route keep linearizability: after any run in
   which no change did harm, every continuation without further changes shows its clients
   what some run of the registers shows, if and only if this one does no harm.
   */
  lemma ChangeExact(cfg: CM.Config, start: State, before: seq<Step>, mid: State, change: Step)
    requires Initial(start) && Inv(start) && Runs(cfg, start, before, mid) && Tame(cfg, start, before, mid)
    requires mid.ops == map[] && change.Admin? && Enabled(mid, change)
    ensures Inv(mid) && Inv(Next(cfg, mid, change))
    ensures AtomicAfter(cfg, start, before, mid, change) <==> Harmless(mid, Next(cfg, mid, change))
  {
    InvRuns(cfg, start, before, mid);
    InvNext(cfg, mid, change);
    if Harmless(mid, Next(cfg, mid, change)) {
      HarmlessAtomicAfter(cfg, start, before, mid, change);
    } else {
      HarmNotAtomicAfter(cfg, start, before, mid, change);
    }
  }

  /** After a change that does harm, some read is not atomic. */
  lemma HarmfulRead(cfg: CM.Config, start: State, before: seq<Step>, mid: State, change: Step)
    returns (k: Key, end: State)
    requires Initial(start) && Inv(start) && Runs(cfg, start, before, mid) && Inv(mid) && mid.ops == map[]
    requires change.Admin? && Enabled(mid, change) && Inv(Next(cfg, mid, change))
    requires !Harmless(mid, Next(cfg, mid, change))
    ensures Runs(cfg, Next(cfg, mid, change), Reading(k), end)
    ensures Runs(cfg, start, Around(before, change, Reading(k)), end)
    ensures !Atomic(cfg, start, Around(before, change, Reading(k)), end)
  {
    k := HarmfulKey(mid, Next(cfg, mid, change));
    AdminFrame(cfg, mid, change);
    end := ReadingRuns(cfg, Next(cfg, mid, change), k);
    HarmNotAtomic(cfg, start, before, mid, change, k, end);
  }

  lemma ReadingNoChange(k: Key)
    ensures NoChange(Reading(k))
  {
  }
}
