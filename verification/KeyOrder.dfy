/**
 The comparison functions that a tree may be generated for, and strcmp on strings
 without embedded terminators as the one this program uses.
 */
module KeyOrder {

  predicate Less<K>(cmp: (K, K) -> int, a: K, b: K) { cmp(a, b) < 0 }

  /** What RB_GENERATE expects of its comparison, on three keys. */
  ghost predicate Lawful<K>(cmp: (K, K) -> int, a: K, b: K, c: K) {
    && (cmp(a, b) == 0 <==> a == b)
    && (Less(cmp, b, a) <==> cmp(a, b) > 0)
    && (Less(cmp, a, b) && Less(cmp, b, c) ==> Less(cmp, a, c))
  }

  ghost predicate TotalOrder<K(!new)>(cmp: (K, K) -> int) {
    forall a, b, c :: Lawful(cmp, a, b, c)
  }

  lemma Trichotomy<K(!new)>(cmp: (K, K) -> int, a: K, b: K)
    requires TotalOrder(cmp)
    ensures cmp(a, b) == 0 <==> a == b
    ensures cmp(a, b) > 0 <==> Less(cmp, b, a)
    ensures !Less(cmp, a, a)
  {
    assert Lawful(cmp, a, b, a) && Lawful(cmp, a, a, a);
  }

  lemma LessTransitive<K(!new)>(cmp: (K, K) -> int, a: K, b: K, c: K)
    requires TotalOrder(cmp) && Less(cmp, a, b) && Less(cmp, b, c)
    ensures Less(cmp, a, c)
  {
    assert Lawful(cmp, a, b, c);
  }

  /** The sign of strcmp. */
  function Strcmp(a: string, b: string): int {
    if a == [] && b == [] then 0
    else if a == [] then -1
    else if b == [] then 1
    else if a[0] < b[0] then -1
    else if a[0] > b[0] then 1
    else Strcmp(a[1..], b[1..])
  }

  lemma {:induction false} StrcmpEqual(a: string, b: string)
    ensures Strcmp(a, b) == 0 <==> a == b
    decreases |a|
  {
    if a != [] && b != [] && a[0] == b[0] {
      StrcmpEqual(a[1..], b[1..]);
      assert a == [a[0]] + a[1..] && b == [b[0]] + b[1..];
    }
  }

  lemma {:induction false} StrcmpSwap(a: string, b: string)
    ensures Strcmp(a, b) < 0 <==> Strcmp(b, a) > 0
    decreases |a|
  {
    if a != [] && b != [] && a[0] == b[0] { StrcmpSwap(a[1..], b[1..]); }
  }

  lemma {:induction false} StrcmpTransitive(a: string, b: string, c: string)
    requires Strcmp(a, b) < 0 && Strcmp(b, c) < 0
    ensures Strcmp(a, c) < 0
    decreases |a|
  {
    if a != [] && b != [] && c != [] && a[0] == b[0] && b[0] == c[0] {
      StrcmpTransitive(a[1..], b[1..], c[1..]);
    }
  }

  /** The first difference decides, and a proper prefix comes first. */
  lemma {:induction false} StrcmpDecides(a: string, b: string, n: nat)
    requires n <= |a| && n < |b| && a[..n] == b[..n] && (n < |a| ==> a[n] < b[n])
    ensures Strcmp(a, b) < 0
  {
    if n > 0 {
      assert a[0] == a[..n][0] == b[..n][0] == b[0];
      assert a[1..][..n - 1] == a[..n][1..] == b[..n][1..] == b[1..][..n - 1];
      StrcmpDecides(a[1..], b[1..], n - 1);
    }
  }

  /** strcmp is such a function. */
  lemma StrcmpIsOrder()
    ensures TotalOrder(Strcmp)
  {
    forall a, b, c ensures Lawful(Strcmp, a, b, c) {
      StrcmpEqual(a, b);
      StrcmpSwap(b, a);
      if Strcmp(a, b) < 0 && Strcmp(b, c) < 0 { StrcmpTransitive(a, b, c); }
    }
  }
}
