/** Sums over the values of a finite map, for measures of remaining work. */
module Sums {
  type Sizes = map<nat, nat>

  ghost function Sum(m: Sizes): nat {
    if m == map[] then 0
    else
      var t :| t in m;
      m[t] + Sum(m - {t})
  }

  lemma {:induction false} SumWithout(m: Sizes, t: nat)
    requires t in m
    ensures Sum(m) == m[t] + Sum(m - {t})
    decreases m
  {
    var u :| u in m && Sum(m) == m[u] + Sum(m - {u});
    if u != t {
      SumWithout(m - {u}, t);
      SumWithout(m - {t}, u);
      assert m - {u} - {t} == m - {t} - {u};
    }
  }

  lemma {:induction false} SumBounded(m: Sizes, each: nat)
    requires forall t :: t in m ==> m[t] <= each
    ensures Sum(m) <= each * |m|
    decreases m
  {
    if m != map[] {
      var t :| t in m && Sum(m) == m[t] + Sum(m - {t});
      SumBounded(m - {t}, each);
      SmallerByOne(m, t);
      Times(each, |m|);
    }
  }

  lemma SmallerByOne(m: Sizes, t: nat)
    requires t in m
    ensures |m - {t}| == |m| - 1
  {
    assert (m - {t}).Keys == m.Keys - {t};
  }

  lemma Times(a: nat, b: nat)
    requires b > 0
    ensures a * b == a * (b - 1) + a
  {
  }

  /** One value is replaced or dropped, all others stay. */
  lemma SumChanged(m: Sizes, m': Sizes, t: nat)
    requires t in m && (forall u :: u != t ==> (u in m <==> u in m'))
    requires (forall u :: u != t && u in m ==> m'[u] == m[u])
    ensures Sum(m') + m[t] == Sum(m) + if t in m' then m'[t] else 0
  {
    SumWithout(m, t);
    if t in m' {
      SumWithout(m', t);
      assert m - {t} == m' - {t};
    } else {
      assert m - {t} == m';
    }
  }

  lemma SumAdded(m: Sizes, t: nat, x: nat)
    requires t !in m
    ensures Sum(m[t := x]) == Sum(m) + x
  {
    SumWithout(m[t := x], t);
    assert m[t := x] - {t} == m;
  }

  lemma SumLess(m: Sizes, m': Sizes, t: nat)
    requires t in m && (t in m' ==> m'[t] < m[t]) && (t !in m' ==> m[t] > 0)
    requires (forall u :: u != t ==> (u in m <==> u in m')) && (forall u :: u != t && u in m ==> m'[u] == m[u])
    ensures Sum(m') < Sum(m)
  {
    SumChanged(m, m', t);
  }

  /** No value grows by more than one. */
  lemma {:induction false} SumRaised(m: Sizes, m': Sizes)
    requires m.Keys == m'.Keys && forall u :: u in m ==> m'[u] <= m[u] + 1
    ensures Sum(m') <= Sum(m) + |m|
    decreases m
  {
    if m != map[] {
      var t :| t in m && Sum(m) == m[t] + Sum(m - {t});
      SumWithout(m', t);
      SmallerByOne(m, t);
      assert (m - {t}).Keys == m.Keys - {t} && (m' - {t}).Keys == m'.Keys - {t};
      SumRaised(m - {t}, m' - {t});
    }
  }
}
