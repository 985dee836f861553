/** LRU by recency, with no clock: a stack of pages, the last one used on top. */
module Recency {

  function Without<T(==)>(s: seq<T>, x: T): (r: seq<T>)
    ensures |r| <= |s|
    ensures forall y :: y in r ==> y in s
    ensures forall y :: y in s && y != x ==> y in r
  {
    if s == [] then [] else if s[0] == x then s[1..] else [s[0]] + Without(s[1..], x)
  }

  ghost predicate Distinct<T>(s: seq<T>) {
    forall i, j :: 0 <= i < j < |s| ==> s[i] != s[j]
  }

  function Take<T>(s: seq<T>, n: nat): seq<T> {
    if n <= |s| then s[..n] else s
  }

  /** The page used moves to the top. */
  function Used<T(==)>(s: seq<T>, x: T): seq<T> {
    [x] + Without(s, x)
  }

  /** The same in a memory of `n` frames: what falls off the end is evicted. */
  function UsedWithin<T(==)>(s: seq<T>, x: T, n: nat): seq<T> {
    Take(Used(s, x), n)
  }

  function UsedAll<T(==)>(s: seq<T>, xs: seq<T>): seq<T>
    decreases |xs|
  {
    if xs == [] then s else UsedAll(Used(s, xs[0]), xs[1..])
  }

  function UsedAllWithin<T(==)>(s: seq<T>, xs: seq<T>, n: nat): seq<T>
    decreases |xs|
  {
    if xs == [] then s else UsedAllWithin(UsedWithin(s, xs[0], n), xs[1..], n)
  }

  lemma {:induction false} WithoutDistinct<T>(s: seq<T>, x: T)
    requires Distinct(s)
    ensures Distinct(Without(s, x)) && x !in Without(s, x)
    ensures x in s ==> |Without(s, x)| == |s| - 1
    ensures x !in s ==> Without(s, x) == s
  {
    if s != [] && s[0] != x {
      WithoutDistinct(s[1..], x);
      assert s == [s[0]] + s[1..];
      assert forall i :: 0 <= i < |s| - 1 ==> s[1..][i] == s[i + 1];
      assert s[0] !in s[1..];
    }
  }

  /** Cutting the stack before taking a page out, or after. */
  lemma {:induction false} WithoutTake<T>(s: seq<T>, x: T, n: nat)
    ensures Take(Without(Take(s, n + 1), x), n) == Take(Without(s, x), n)
  {
    if n == 0 {
      TakeNone(Without(Take(s, 1), x));
      TakeNone(Without(s, x));
    } else if s != [] {
      TakeMore(s, n);
      if s[0] == x {
        TakeTwice(s[1..], n);
      } else {
        WithoutTake(s[1..], x, n - 1);
        TakeMore([s[0]] + Without(Take(s[1..], n), x), n - 1);
        TakeMore([s[0]] + Without(s[1..], x), n - 1);
      }
    }
  }

  lemma TakeNone<T>(s: seq<T>)
    ensures Take(s, 0) == []
  {
  }

  lemma TakeMore<T>(s: seq<T>, n: nat)
    requires s != []
    ensures Take(s, n + 1) != [] && Take(s, n + 1)[0] == s[0] && Take(s, n + 1)[1..] == Take(s[1..], n)
    ensures Take(s, n + 1) == [s[0]] + Take(s[1..], n)
  {
  }

  lemma TakeTwice<T>(s: seq<T>, n: nat)
    ensures Take(Take(s, n), n) == Take(s, n)
  {
  }

  /** A stack cut to `n` evolves as the whole stack, cut to `n`. */
  lemma UsedTake<T>(s: seq<T>, x: T, n: nat)
    requires 0 < n
    ensures UsedWithin(Take(s, n), x, n) == Take(Used(s, x), n)
  {
    WithoutTake(s, x, n - 1);
    var cut := Without(Take(s, n), x);
    assert Take([x] + cut, n) == [x] + Take(cut, n - 1);
    assert Take([x] + Without(s, x), n) == [x] + Take(Without(s, x), n - 1);
  }

  lemma {:induction false} UsedAllTake<T>(s: seq<T>, xs: seq<T>, n: nat)
    requires 0 < n
    ensures UsedAllWithin(Take(s, n), xs, n) == Take(UsedAll(s, xs), n)
    decreases |xs|
  {
    if xs != [] {
      UsedTake(s, xs[0], n);
      UsedAllTake(Used(s, xs[0]), xs[1..], n);
    }
  }

  /** Fewer frames hold a prefix of what more frames hold. */
  lemma StackInclusion<T>(s: seq<T>, xs: seq<T>, n: nat, k: nat)
    requires 0 < n <= k
    ensures UsedAllWithin(Take(s, n), xs, n) <= UsedAllWithin(Take(s, k), xs, k)
  {
    UsedAllTake(s, xs, n);
    UsedAllTake(s, xs, k);
  }
}
