/** Small pieces shared by the models: optional values, overwriting and counting in sequences, and laws of
    products and remainders for blocks in an arena and slots in a ring. */
module Common {

  datatype Option<+T> = None | Some(value: T)

  function Last<T>(s: seq<T>): T
    requires s != []
  {
    s[|s| - 1]
  }

  function Front<T>(s: seq<T>): seq<T>
    requires s != []
  {
    s[..|s| - 1]
  }

  /** s after memcpy of t to position at. */
  function Overwrite<T>(s: seq<T>, at: nat, t: seq<T>): (r: seq<T>)
    requires at + |t| <= |s|
    ensures |r| == |s|
  {
    s[..at] + t + s[at + |t|..]
  }

  /** How many positions of s satisfy p. */
  function Count<T>(s: seq<T>, p: T -> bool): nat
  {
    if s == [] then 0 else (if p(s[0]) then 1 else 0) + Count(s[1..], p)
  }

  lemma {:induction false} CountAtMostLength<T>(s: seq<T>, p: T -> bool)
    ensures Count(s, p) <= |s|
  {
    if s == [] {
    } else {
      CountAtMostLength(s[1..], p);
    }
  }

  lemma {:induction false} CountZero<T>(s: seq<T>, p: T -> bool)
    requires forall i :: 0 <= i < |s| ==> !p(s[i])
    ensures Count(s, p) == 0
  {
    if s == [] {
    } else {
      CountZero(s[1..], p);
    }
  }

  lemma {:induction false} CountAppend<T>(s: seq<T>, t: seq<T>, p: T -> bool)
    ensures Count(s + t, p) == Count(s, p) + Count(t, p)
  {
    if s == [] {
      assert s + t == t;
    } else {
      assert (s + t)[1..] == s[1..] + t;
      CountAppend(s[1..], t, p);
    }
  }

  /** Replacing one element changes the count by that element's contribution alone. */
  lemma {:induction false} CountUpdate<T>(s: seq<T>, i: nat, x: T, p: T -> bool)
    requires i < |s|
    ensures Count(s[i := x], p) == Count(s, p) - (if p(s[i]) then 1 else 0) + (if p(x) then 1 else 0)
  {
    if i == 0 {
      assert s[0 := x][1..] == s[1..];
    } else {
      assert s[i := x][1..] == s[1..][i - 1 := x];
      CountUpdate(s[1..], i - 1, x, p);
    }
  }

  /** The remainder, named so that proofs can work from the laws below alone. */
  function Rem(i: nat, n: nat): (r: nat)
    requires n > 0
    ensures r < n
  {
    i % n
  }

  lemma TimesAtLeast(n: nat, k: nat)
    requires k > 0
    ensures n * k >= n
  {
    assert n * k == n * (k - 1) + n;
    assert n * (k - 1) >= 0;
  }

  /** Multiples of n are at least n apart. */
  lemma MultiplesApart(n: nat, a: int, b: int)
    ensures a < b ==> n * a + n <= n * b
  {
    if a < b {
      TimesAtLeast(n, b - a);
      assert n * (b - a) == n * b - n * a;
    }
  }

  lemma EuclidUnique(n: nat, q: int, r: nat, q': int, r': nat)
    requires r < n && r' < n && n * q + r == n * q' + r'
    ensures q == q' && r == r'
  {
    MultiplesApart(n, q, q');
    MultiplesApart(n, q', q);
  }

  lemma QuotientRemainder(x: nat, q: int, r: nat, n: nat)
    requires r < n && x == n * q + r
    ensures x / n == q && x % n == r
  {
    assert x == n * (x / n) + x % n;
    EuclidUnique(n, q, r, x / n, x % n);
  }

  lemma SlotOffset(i: nat, k: nat, n: nat)
    requires n > 0
    ensures Rem(Rem(i, n) + k, n) == Rem(i + k, n)
  {
    var q, r := i / n, (i % n + k) / n;
    assert n * (q + r) == n * q + n * r;
    QuotientRemainder(i + k, q + r, (i % n + k) % n, n);
  }

  lemma SlotLap(i: nat, n: nat)
    requires n > 0
    ensures Rem(i + n, n) == Rem(i, n)
  {
    assert n * (i / n + 1) == n * (i / n) + n;
    QuotientRemainder(i + n, i / n + 1, i % n, n);
  }

  lemma SlotZero(n: nat)
    requires n > 0
    ensures Rem(0, n) == 0
  {
  }

  /** Two positions less than one lap apart fall into different slots. */
  lemma SlotsDiffer(i: nat, j: nat, n: nat)
    requires i < j < i + n
    ensures Rem(i, n) != Rem(j, n)
  {
    var q, d := i / n, i % n + (j - i);
    if d < n {
      QuotientRemainder(j, q, d, n);
    } else {
      assert n * (q + 1) == n * q + n;
      QuotientRemainder(j, q + 1, d - n, n);
    }
  }
}
