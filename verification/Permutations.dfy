/** Facts about sequences with the same elements, for claims that some order does not matter. */
module Permutations {

  lemma RemoveAt<T>(s: seq<T>, k: nat)
    requires k < |s|
    ensures multiset(s[..k] + s[k + 1..]) == multiset(s) - multiset{s[k]}
  {
    assert s == s[..k] + [s[k]] + s[k + 1..];
  }

  /** The element of `b` that equals the last of `a`, and `b` without it. */
  lemma MatchLast<T>(a: seq<T>, b: seq<T>) returns (k: nat)
    requires a != [] && multiset(a) == multiset(b)
    ensures k < |b| && b[k] == a[|a| - 1]
    ensures multiset(a[..|a| - 1]) == multiset(b[..k] + b[k + 1..])
    ensures a == a[..|a| - 1] + [b[k]]
  {
    var n := |a| - 1;
    assert a[n] in multiset(b);
    k :| 0 <= k < |b| && b[k] == a[n];
    RemoveAt(b, k);
    RemoveAt(a, n);
    assert a[..n] + a[n + 1..] == a[..n];
  }

  lemma InsertAt<T>(s: seq<T>, k: nat, x: T)
    requires k <= |s|
    ensures multiset(s[..k] + [x] + s[k..]) == multiset(s) + multiset{x}
  {
    assert s == s[..k] + s[k..];
  }

  /** Dropping an element before the last one commutes with dropping the last one. */
  lemma WithoutBoth<T>(s: seq<T>, k: nat)
    requires k < |s| - 1
    ensures var n, rest := |s| - 1, s[..k] + s[k + 1..];
            |rest| == n && rest[n - 1] == s[n] && rest[..n - 1] == s[..n][..k] + s[..n][k + 1..]
  {
  }

  lemma Associative<T>(a: seq<T>, b: seq<T>, c: seq<T>)
    ensures (a + b) + c == a + (b + c)
  {
  }
}
