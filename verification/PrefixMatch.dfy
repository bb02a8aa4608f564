/**
 How a route prefix is compared with a key (prefix_match of lib/misc.c).
 */
module PrefixMatch {
  import opened CStrings

  /** The strings agree up to position `n` and differ there. */
  ghost predicate DifferAt(a: string, b: string, n: nat) {
    && n <= |a| && n <= |b| && a[..n] == b[..n] && CharAt(a, n) != CharAt(b, n)
  }

  /** Equal strings match, and so do strings that first differ at a '*' of the prefix. */
  ghost predicate Match(prefix: string, str: string) {
    prefix == str || exists n: nat :: DifferAt(prefix, str, n) && CharAt(prefix, n) == '*'
  }

  /** prefix_match. */
  method Matches(prefix: string, str: string) returns (r: bool)
    requires CString(prefix) && CString(str)
    ensures r <==> Match(prefix, str)
  {
    var n := 0;
    while true
      invariant n <= |prefix| && n <= |str| && prefix[..n] == str[..n]
      decreases |prefix| - n
    {
      var c1, c2 := CharAt(prefix, n), CharAt(str, n);
      if c1 == c2 && c1 == '\0' {
        assert prefix == prefix[..n] && str == str[..n];
        return true;
      } else if c1 != c2 {
        assert DifferAt(prefix, str, n);
        OneDifference(prefix, str, n);
        return c1 == '*';
      }
      assert prefix[..n + 1] == prefix[..n] + [prefix[n]] && str[..n + 1] == str[..n] + [str[n]];
      n := n + 1;
    }
  }

  lemma OneDifference(a: string, b: string, n: nat)
    requires DifferAt(a, b, n)
    ensures a != b && forall k: nat :: DifferAt(a, b, k) ==> k == n
  {
    assert forall i :: 0 <= i < n ==> a[i] == a[..n][i] == b[..n][i] == b[i];
    forall k: nat | DifferAt(a, b, k) ensures k == n {
      assert forall i :: 0 <= i < k ==> a[i] == a[..k][i] == b[..k][i] == b[i];
    }
  }

  function Star(s: string): (n: nat)
    ensures n <= |s| && (forall i :: 0 <= i < n ==> s[i] != '*') && (n < |s| ==> s[n] == '*')
  {
    if s == "" || s[0] == '*' then 0 else 1 + Star(s[1..])
  }

  /** What a '*' is meant to say: keys that start with what comes before it; without one, the key itself. */
  predicate Wildcard(prefix: string, key: string) {
    if Star(prefix) < |prefix| then prefix[..Star(prefix)] <= key else prefix == key
  }

  /** The strings agree through the first '*' of the prefix, and where they first differ the prefix has none. */
  ghost predicate Misled(prefix: string, key: string) {
    exists n: nat :: Star(prefix) < n && DifferAt(prefix, key, n) && CharAt(prefix, n) != '*'
  }

  /** Different strings have a first difference. */
  lemma {:induction false} FirstDifference(a: string, b: string) returns (n: nat)
    requires CString(a) && CString(b) && a != b
    ensures DifferAt(a, b, n)
  {
    if a == "" || b == "" || a[0] != b[0] {
      n := 0;
    } else {
      assert a == [a[0]] + a[1..] && b == [b[0]] + b[1..];
      var m := FirstDifference(a[1..], b[1..]);
      n := m + 1;
      assert a[..n] == [a[0]] + a[1..][..m] && b[..n] == [b[0]] + b[1..][..m];
    }
  }

  /** prefix_match tells what the '*' is meant to say, except exactly when it is misled. */
  lemma Exact(prefix: string, key: string)
    requires CString(prefix) && CString(key)
    ensures (Match(prefix, key) <==> Wildcard(prefix, key)) <==> !Misled(prefix, key)
  {
    if prefix != key {
      var n := FirstDifference(prefix, key);
      OneDifference(prefix, key, n);
      StartsAlike(prefix, key, n, Star(prefix));
      assert Misled(prefix, key) <==> Star(prefix) < n && CharAt(prefix, n) != '*';
    } else {
      assert prefix[..Star(prefix)] <= key;
      forall n: nat ensures !DifferAt(prefix, key, n) { }
    }
  }

  lemma StartsAlike(a: string, b: string, n: nat, s: nat)
    requires DifferAt(a, b, n) && s <= |a|
    ensures s <= n <==> a[..s] <= b
  {
    if s <= n {
      assert a[..s] == a[..n][..s] == b[..n][..s] == b[..s];
    } else if n < |b| {
      assert a[..s][n] != b[n];
    }
  }

  /** A key without '*' misleads no prefix: there the code means what it is meant to say. */
  lemma Meaning(prefix: string, key: string)
    requires CString(prefix) && CString(key) && Star(key) == |key|
    ensures Match(prefix, key) <==> Wildcard(prefix, key)
  {
    Exact(prefix, key);
    forall n: nat | Star(prefix) < n && DifferAt(prefix, key, n) ensures CharAt(prefix, n) == '*' {
      assert prefix[Star(prefix)] == prefix[..n][Star(prefix)] == key[..n][Star(prefix)] == key[Star(prefix)];
    }
  }

  /** With a '*' in the key it can be: the prefix "a*" does not match the key "a*b". */
  lemma StarInKey()
    ensures Misled("a*", "a*b") && Wildcard("a*", "a*b") && !Match("a*", "a*b")
  {
    assert DifferAt("a*", "a*b", 2);
    assert Star("a*") == 1;
    Exact("a*", "a*b");
  }
}
