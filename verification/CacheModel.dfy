/**
 The time-limited cache as a map (lib/cache.c), and the proof that its cleaner is
 invisible to readers.  Times are unbounded integers in nanoseconds.
 */
module CacheModel {
  import opened Options

  /** DURATION_INF: never outdated. */
  const DURATION_INF: int := 0x7FFF_FFFF_FFFF_FFFF

  datatype Item<V> = Item(value: V, modified: int, duration: int)

  datatype Config = Config(defaultDuration: int, minDuration: int)

  type Items<K(==), V> = map<K, Item<V>>

  predicate Outdated<V>(i: Item<V>, now: int) {
    i.duration != DURATION_INF && i.modified + i.duration <= now
  }

  /** The duration stored for a requested one: 0 asks for the default, others are raised to the minimum. */
  function Stored(cfg: Config, duration: int): (r: int)
    ensures duration == 0 ==> r == cfg.defaultDuration
    ensures duration != 0 ==> duration <= r && cfg.minDuration <= r && (r == duration || r == cfg.minDuration)
  {
    if duration == 0 then cfg.defaultDuration
    else if duration < cfg.minDuration then cfg.minDuration
    else duration
  }

  /** The duration handed out with a value. */
  function Remaining<V>(cfg: Config, i: Item<V>, now: int): int {
    if i.duration == DURATION_INF then DURATION_INF
    else
      var left := i.duration - (now - i.modified);
      if left < cfg.minDuration then cfg.minDuration else left
  }

  datatype Answer<V> = Hit(value: V, duration: int) | Miss

  function Get<K(==), V>(cfg: Config, m: Items<K, V>, key: K, now: int): Answer<V> {
    if key in m && !Outdated(m[key], now) then Hit(m[key].value, Remaining(cfg, m[key], now)) else Miss
  }

  /** A new entry keeps the time it was created at; an existing one gets the time of its update. */
  function Set<K(==), V>(cfg: Config, m: Items<K, V>, key: K, value: V, duration: int, created: int, now: int): Items<K,
                         V> {
    m[key := Item(value, if key in m then now else created, Stored(cfg, duration))]
  }

  function Del<K(==), V>(m: Items<K, V>, key: K): Items<K, V> { m - {key} }

  /** What the cleaner leaves. */
  function Sweep<K(==), V>(m: Items<K, V>, now: int): Items<K, V> {
    map k | k in m && !Outdated(m[k], now) :: m[k]
  }

  datatype Action<K, V> =
    | GetKey(key: K)
    | SetKey(key: K, value: V, duration: int)
    | DelKey(key: K)
    | Clean

  /** An operation with the time at which it reads the clock. */
  datatype Event<K, V> = At(time: int, action: Action<K, V>)

  function After<K(==), V>(cfg: Config, m: Items<K, V>, e: Event<K, V>): Items<K, V> {
    match e.action
    case GetKey(_) => m
    case SetKey(k, v, d) => Set(cfg, m, k, v, d, e.time, e.time)
    case DelKey(k) => Del(m, k)
    case Clean => Sweep(m, e.time)
  }

  /** The answers to all reads of a run, in order. */
  function Answers<K(==), V>(cfg: Config, m: Items<K, V>, run: seq<Event<K, V>>): seq<Answer<V>>
    decreases |run|
  {
    if run == [] then []
    else
      var e := run[0];
      (if e.action.GetKey? then [Get(cfg, m, e.action.key, e.time)] else []) + Answers(cfg, After(cfg, m, e), run[1..])
  }

  /** The same run with the cleaner never waking up. */
  function Unswept<K(==), V>(run: seq<Event<K, V>>): seq<Event<K, V>> {
    if run == [] then []
    else (if run[0].action.Clean? then [] else [run[0]]) + Unswept(run[1..])
  }

  predicate Monotone<K(==), V>(run: seq<Event<K, V>>) {
    forall i, j :: 0 <= i < j < |run| ==> run[i].time <= run[j].time
  }

  /** It has every event of the run but the sweeps, as often. */
  lemma {:induction false} UnsweptIs<K, V>(run: seq<Event<K, V>>, e: Event<K, V>)
    ensures multiset(Unswept(run))[e] == if e.action.Clean? then 0 else multiset(run)[e]
    decreases |run|
  {
    if run != [] {
      UnsweptIs(run[1..], e);
      assert run == [run[0]] + run[1..];
    }
  }

  /** `m` is `u` without some entries that are outdated by `now`. */
  ghost predicate Swept<K, V>(m: Items<K, V>, u: Items<K, V>, now: int) {
    && (forall k :: k in m ==> k in u && u[k] == m[k])
    && (forall k :: k in u && k !in m ==> Outdated(u[k], now))
  }

  lemma {:induction false} SweptAnswers<K, V>(cfg: Config, m: Items<K, V>, u: Items<K, V>, now: int,
                                              run: seq<Event<K, V>>)
    requires Swept(m, u, now) && Monotone(run) && (run != [] ==> now <= run[0].time)
    ensures Answers(cfg, m, run) == Answers(cfg, u, Unswept(run))
    decreases |run|
  {
    if run != [] {
      var e, rest := run[0], run[1..];
      var m' := After(cfg, m, e);
      assert Swept(m, u, e.time);
      if e.action.Clean? {
        assert Swept(m', u, e.time);
        SweptAnswers(cfg, m', u, e.time, rest);
        assert Unswept(run) == Unswept(rest);
      } else {
        SweptAnswers(cfg, m', After(cfg, u, e), e.time, rest);
        assert Unswept(run) == [e] + Unswept(rest);
        assert Unswept(run)[1..] == Unswept(rest);
      }
    }
  }

  /** In every run with a monotone clock, readers see what they would see if nothing were ever swept. */
  lemma CleanerInvisible<K, V>(cfg: Config, run: seq<Event<K, V>>)
    requires Monotone(run)
    ensures Answers(cfg, map[], run) == Answers(cfg, map[], Unswept(run))
  {
    if run != [] { SweptAnswers(cfg, map[], map[], run[0].time, run); }
  }

  /** The contents after a run that starts with an empty cache. */
  function Final<K(==), V>(cfg: Config, run: seq<Event<K, V>>): Items<K, V> {
    if run == [] then map[] else After(cfg, Final(cfg, run[..|run| - 1]), run[|run| - 1])
  }

  /** What the last write to `key` in a run left there, read straight off the run. */
  function LastWrite<K(==), V>(cfg: Config, run: seq<Event<K, V>>, key: K): Option<Item<V>> {
    if run == [] then None
    else
      var e := run[|run| - 1];
      match e.action
      case SetKey(k, v, d) =>
        if k == key then Some(Item(v, e.time, Stored(cfg, d))) else LastWrite(cfg, run[..|run| - 1], key)
      case DelKey(k) => if k == key then None else LastWrite(cfg, run[..|run| - 1], key)
      case _ => LastWrite(cfg, run[..|run| - 1], key)
  }

  /**
   A read after any run returns the last value written to its key, if that write
   has been neither deleted nor outlived, and nothing otherwise.  A finite duration
   handed out lasts until the value expires, or is the configured minimum if that is longer.
   */
  lemma ReadsLastWrite<K, V>(cfg: Config, run: seq<Event<K, V>>, key: K, now: int)
    requires Monotone(run + [At(now, GetKey(key))])
    ensures var w, a := LastWrite(cfg, run, key), Get(cfg, Final(cfg, run), key, now);
            && (a.Hit? <==> w.Some? && (w.value.duration == DURATION_INF || now < w.value.modified + w.value.duration))
            && (a.Hit? ==> a.value == w.value.value)
            && (a.Hit? && w.value.duration == DURATION_INF ==> a.duration == DURATION_INF)
            && (a.Hit? && w.value.duration != DURATION_INF ==>
                  && a.duration >= cfg.minDuration && now + a.duration >= w.value.modified + w.value.duration
                  && (a.duration == cfg.minDuration || now + a.duration == w.value.modified + w.value.duration))
  {
    var all := run + [At(now, GetKey(key))];
    assert forall i :: 0 <= i < |run| ==> all[i] == run[i];
    assert all[|run|].time == now;
    FinalIsLastWrite(cfg, run, key, now);
  }

  lemma {:induction false} FinalIsLastWrite<K, V>(cfg: Config, run: seq<Event<K, V>>, key: K, now: int)
    requires Monotone(run) && forall i :: 0 <= i < |run| ==> run[i].time <= now
    ensures key in Final(cfg, run) ==> LastWrite(cfg, run, key) == Some(Final(cfg, run)[key])
    ensures key !in Final(cfg, run) && LastWrite(cfg, run, key).Some? ==> Outdated(LastWrite(cfg, run, key).value, now)
    decreases |run|
  {
    if run != [] {
      var e := run[|run| - 1];
      FinalIsLastWrite(cfg, run[..|run| - 1], key, e.time);
    }
  }

  /** Every read of a run is answered, from the contents that the run has left by then. */
  lemma {:induction false} ReadAnswered<K, V>(cfg: Config, run: seq<Event<K, V>>, key: K, now: int)
    ensures Answers(cfg, map[], run + [At(now, GetKey(key))])
         == Answers(cfg, map[], run) + [Get(cfg, Final(cfg, run), key, now)]
  {
    FinalSplit(cfg, [], run);
    assert [] + run == run;
    AnswersSplit(cfg, map[], run, key, now);
  }

  /** The contents after a run from `m`. */
  function Contents<K(==), V>(cfg: Config, m: Items<K, V>, run: seq<Event<K, V>>): Items<K, V>
    decreases |run|
  {
    if run == [] then m else Contents(cfg, After(cfg, m, run[0]), run[1..])
  }

  lemma {:induction false} FinalSplit<K, V>(cfg: Config, run: seq<Event<K, V>>, more: seq<Event<K, V>>)
    ensures Final(cfg, run + more) == Contents(cfg, Final(cfg, run), more)
    decreases |more|
  {
    if more == [] {
      assert run + more == run;
    } else {
      var first := run + [more[0]];
      FinalSplit(cfg, first, more[1..]);
      assert first[..|run|] == run && first + more[1..] == run + more;
    }
  }

  lemma {:induction false} AnswersSplit<K, V>(cfg: Config, m: Items<K, V>, run: seq<Event<K, V>>, key: K, now: int)
    ensures Answers(cfg, m, run + [At(now, GetKey(key))])
         == Answers(cfg, m, run) + [Get(cfg, Contents(cfg, m, run), key, now)]
    decreases |run|
  {
    if run == [] {
      assert run + [At(now, GetKey(key))] == [At(now, GetKey(key))];
    } else {
      AnswersSplit(cfg, After(cfg, m, run[0]), run[1..], key, now);
      var all := run + [At(now, GetKey(key))];
      assert all[0] == run[0] && all[1..] == run[1..] + [At(now, GetKey(key))];
    }
  }

  /** The event sets or deletes the key. */
  predicate Writes<K(==), V>(e: Event<K, V>, key: K) { (e.action.SetKey? || e.action.DelKey?) && e.action.key == key }

  /** The `i`-th event sets the key, and no later one writes it. */
  predicate LastSetAt<K(==), V>(run: seq<Event<K, V>>, i: nat, key: K) {
    && i < |run| && run[i].action.SetKey? && run[i].action.key == key
    && forall j :: i < j < |run| ==> !Writes(run[j], key)
  }

  lemma {:induction false} LastWriteIs<K, V>(cfg: Config, run: seq<Event<K, V>>, i: nat, key: K)
    requires LastSetAt(run, i, key)
    ensures LastWrite(cfg, run, key) ==
            Some(Item(run[i].action.value, run[i].time, Stored(cfg, run[i].action.duration)))
    decreases |run|
  {
    var n := |run| - 1;
    if i < n {
      assert !Writes(run[n], key);
      LastWriteIs(cfg, run[..n], i, key);
    }
  }

  /**
   A value that was set is answered for exactly as long as was asked for: the default for 0,
   but no less than the minimum otherwise.  Reads, sweeps and writes of other keys change nothing.
   */
  lemma AnsweredAsLong<K, V>(cfg: Config, run: seq<Event<K, V>>, i: nat, key: K, now: int)
    requires LastSetAt(run, i, key) && Monotone(run + [At(now, GetKey(key))])
    ensures var a, d := Get(cfg, Final(cfg, run), key, now), run[i].action.duration;
            var x := if d == 0 then cfg.defaultDuration else if d < cfg.minDuration then cfg.minDuration else d;
            var left := run[i].time + x - now;
            && (a.Hit? <==> x == DURATION_INF || 0 < left)
            && (a.Hit? ==> a.value == run[i].action.value)
            && (a.Hit? && x == DURATION_INF ==> a.duration == DURATION_INF)
            && (a.Hit? && x != DURATION_INF ==> a.duration == if left < cfg.minDuration then cfg.minDuration else left)
  {
    LastWriteIs(cfg, run, i, key);
    ReadsLastWrite(cfg, run, key, now);
  }

  /** A sweep in a run drops what is outdated by then, and keeps the rest as it is. */
  lemma SweptIn<K, V>(cfg: Config, m: Items<K, V>, now: int, key: K)
    ensures var swept := After(cfg, m, At(now, Clean));
            && (key in swept <==> key in m && !Outdated(m[key], now))
            && (key in swept ==> swept[key] == m[key])
  {
  }
}
