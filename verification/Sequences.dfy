/** Facts about finite sequences that the scheduler's deques rely on. */
module Sequences {

  function Min(a: nat, b: nat): nat {
    if a < b then a else b
  }

  function Reverse<T>(s: seq<T>): (r: seq<T>)
    ensures |r| == |s|
    ensures forall i :: 0 <= i < |s| ==> r[i] == s[|s| - 1 - i]
  {
    seq(|s|, i requires 0 <= i < |s| => s[|s| - 1 - i])
  }

  function Quotient(n: nat, d: nat): nat
    requires d > 0
  {
    n / d
  }

  function Remainder(n: nat, d: nat): nat
    requires d > 0
  {
    n % d
  }

  lemma QuotientRemainder(n: nat, d: nat)
    requires d > 0
    ensures n == d * Quotient(n, d) + Remainder(n, d) && Remainder(n, d) < d
  {
  }

  /** `find` followed by `erase`: drops the first occurrence of `x`, if there is one. */
  function Erase<T(==)>(s: seq<T>, x: T): seq<T> {
    if s == [] then []
    else if s[0] == x then s[1..]
    else [s[0]] + Erase(s[1..], x)
  }

  ghost predicate Distinct<T>(s: seq<T>) {
    forall i, j :: 0 <= i < j < |s| ==> s[i] != s[j]
  }

  /** Dropping the last `k` elements of a deque drops the first `k` of its reverse. */
  lemma ReverseTake<T>(s: seq<T>, k: nat)
    requires k <= |s|
    ensures Reverse(s[..|s| - k]) == Reverse(s)[k..]
  {
  }

  lemma {:induction false} ReverseMultiset<T>(s: seq<T>)
    ensures multiset(Reverse(s)) == multiset(s)
  {
    if s != [] {
      var front, last := s[..|s| - 1], s[|s| - 1];
      ReverseMultiset(front);
      assert s == front + [last];
      assert Reverse(s) == [last] + Reverse(front);
    }
  }

  /** Erasing takes out the first occurrence and leaves everything else in its place. */
  lemma {:induction false} EraseSplits<T>(a: seq<T>, x: T, b: seq<T>)
    requires x !in a
    ensures Erase(a + [x] + b, x) == a + b
    ensures Erase(a, x) == a
  {
    if a == [] {
      assert a + [x] + b == [x] + b && a + b == b;
      assert ([x] + b)[1..] == b;
    } else {
      EraseSplits(a[1..], x, b);
      FirstStays(a, [x], b);
      FirstAndRest(a);
    }
  }

  lemma FirstStays<T>(a: seq<T>, x: seq<T>, b: seq<T>)
    requires a != []
    ensures (a + x + b)[0] == a[0] && (a + x + b)[1..] == a[1..] + x + b && a + b == [a[0]] + (a[1..] + b)
  {
  }

  lemma {:induction false} EraseMultiset<T>(s: seq<T>, x: T)
    ensures multiset(Erase(s, x)) == multiset(s) - multiset{x}
    ensures x in s ==> |Erase(s, x)| == |s| - 1
  {
    if s != [] {
      assert s == [s[0]] + s[1..];
      if s[0] != x {
        EraseMultiset(s[1..], x);
      }
    }
  }

  lemma MultisetCons<T>(s: seq<T>)
    requires s != []
    ensures multiset(s) == multiset{s[0]} + multiset(s[1..])
  {
    assert s == [s[0]] + s[1..];
  }

  /** Cancelling one element on both sides. */
  lemma MultisetCancel<T>(a: multiset<T>, b: multiset<T>, x: T)
    ensures a + multiset{x} <= b + multiset{x} <==> a <= b
    ensures (a + multiset{x}) - (b + multiset{x}) == a - b
  {
    if a + multiset{x} <= b + multiset{x} {
      forall y ensures a[y] <= b[y] {
        assert (a + multiset{x})[y] <= (b + multiset{x})[y];
      }
    }
  }

  lemma ConcatAssociative<T>(a: seq<T>, b: seq<T>, c: seq<T>)
    ensures a + (b + c) == (a + b) + c
  {
  }

  lemma SplitAt<T>(a: seq<T>, b: seq<T>)
    ensures (a + b)[..|a|] == a && (a + b)[|a|..] == b
  {
  }

  lemma FirstAndRest<T>(s: seq<T>)
    requires s != []
    ensures [s[0]] + s[1..] == s
  {
  }

  lemma RestOfConcat<T>(a: seq<T>, b: seq<T>)
    requires a != []
    ensures (a + b)[0] == a[0] && (a + b)[1..] == a[1..] + b
  {
  }

  /** A sequence without repetitions holds each element once. */
  lemma {:induction false} DistinctMultiset<T>(s: seq<T>)
    requires Distinct(s)
    ensures forall x :: multiset(s)[x] <= 1
  {
    if s != [] {
      var rest := s[1..];
      DistinctMultiset(rest);
      assert s == [s[0]] + rest;
      assert s[0] !in rest;
    }
  }

  /** A sequence that holds each element at most once has no repetitions. */
  lemma OnceIsDistinct<T>(s: seq<T>)
    requires forall x :: multiset(s)[x] <= 1
    ensures Distinct(s)
  {
    forall i, k | 0 <= i < k < |s| ensures s[i] != s[k] {
      if s[i] == s[k] {
        assert multiset(s)[s[i]] <= 1;
        TwiceInSequence(s, i, k);
      }
    }
  }

  /** A permutation of a sequence without repetitions has none either. */
  lemma DistinctPermutation<T>(a: seq<T>, b: seq<T>)
    requires Distinct(a) && multiset(a) == multiset(b)
    ensures Distinct(b)
  {
    DistinctMultiset(a);
    forall i, k | 0 <= i < k < |b| ensures b[i] != b[k] {
      if b[i] == b[k] {
        TwiceInSequence(b, i, k);
      }
    }
  }

  lemma TwiceInSequence<T>(b: seq<T>, i: nat, k: nat)
    requires i < k < |b| && b[i] == b[k]
    ensures multiset(b)[b[i]] >= 2
  {
    var x, y := b[..k], b[k..];
    assert b == x + y;
    assert x[i] in x && y[0] in y;
  }

  /** Two orders of the same elements have the same length and the same members. */
  lemma PermutationFacts<T>(a: seq<T>, b: seq<T>)
    requires multiset(a) == multiset(b)
    ensures |a| == |b|
    ensures forall x :: x in a <==> x in b
  {
    assert |multiset(a)| == |a| && |multiset(b)| == |b|;
    forall x ensures x in a <==> x in b {
      assert x in a <==> x in multiset(a);
      assert x in b <==> x in multiset(b);
    }
  }

  /** Division and remainder by repeated subtraction. */
  lemma DivStep(n: nat, d: nat)
    requires d > 0
    ensures n < d ==> n / d == 0 && n % d == n
    ensures n >= d ==> n / d == (n - d) / d + 1 && n % d == (n - d) % d
  {
    if n >= d {
      var q, r := (n - d) / d, (n - d) % d;
      assert n == (q + 1) * d + r;
      QuotientUnique(n, d, q + 1, r);
    } else {
      QuotientUnique(n, d, 0, n);
    }
  }

  lemma QuotientUnique(n: nat, d: nat, q: nat, r: nat)
    requires d > 0 && r < d && n == q * d + r
    ensures n / d == q && n % d == r
  {
    var q', r' := n / d, n % d;
    assert q' * d + r' == q * d + r;
    assert (q' - q) * d == r - r' && (q - q') * d == r' - r;
    if q' > q {
      AtLeastOne(q' - q, d);
    } else if q' < q {
      AtLeastOne(q - q', d);
    }
  }

  lemma AtLeastOne(k: nat, d: nat)
    requires k > 0
    ensures k * d >= d
  {
    assert k * d == (k - 1) * d + d;
  }
}
