/**
 The in-place shuffle the password builder applies to its result
 (`secrets.SystemRandom().shuffle`, which is CPython's `Random.shuffle`):
 Fisher-Yates from the back, swapping position `i` with a position `j` drawn
 from `0..i`, for `i` from `n - 1` down to `1`.

 The random source is injected: `draws[k]` is the `j` drawn at step `k`, that is
 for `i == n - 1 - k`. Every sequence of draws in range yields a permutation
 (`FisherYatesPermutes`), and every permutation is yielded by some
 sequence of draws (`DrawsFor`), so this is "an arbitrary permutation".
 */
module Shuffle {

  /** The number of draws a shuffle of `n` elements makes: one per `i` in `1..n-1`. */
  function DrawCount(n: nat): nat
  {
    if n == 0 then 0 else n - 1
  }

  /** `draws` is what the random source can return when shuffling `n` elements. */
  predicate ValidDraws(n: nat, draws: seq<nat>)
  {
    && |draws| == DrawCount(n)
    && forall k :: 0 <= k < |draws| ==> draws[k] <= n - 1 - k
  }

  /** Exchanges the elements at positions `i` and `j`. */
  function Swap<T>(x: seq<T>, i: nat, j: nat): (r: seq<T>)
    requires i < |x| && j < |x|
    ensures |r| == |x|
    ensures r[i] == x[j] && r[j] == x[i]
  {
    x[i := x[j]][j := x[i]]
  }

  lemma SwapKeepsMultiset<T>(x: seq<T>, i: nat, j: nat)
    requires i < |x| && j < |x|
    ensures multiset(Swap(x, i, j)) == multiset(x)
  {
  }

  /**
   The shuffle as a function. After the swap at the last position that position
   is final and later steps only touch the prefix, so the recursion is on the prefix.
   */
  function FisherYates<T>(x: seq<T>, draws: seq<nat>): (r: seq<T>)
    requires ValidDraws(|x|, draws)
    ensures |r| == |x|
    decreases |x|
  {
    if |x| <= 1 then x
    else
      var n := |x| - 1;
      var y := Swap(x, n, draws[0]);
      FisherYates(y[..n], draws[1..]) + [y[n]]
  }

  /** The draws left after the first step are valid draws for the prefix it leaves. */
  lemma ValidDrawsTail(n: nat, draws: seq<nat>)
    requires n > 1 && ValidDraws(n, draws)
    ensures ValidDraws(n - 1, draws[1..])
  {
  }

  /** The first step of the shuffle, unfolded once. */
  lemma FisherYatesUnfold<T>(x: seq<T>, draws: seq<nat>)
    requires |x| > 1 && ValidDraws(|x|, draws)
    ensures ValidDraws(|x| - 1, draws[1..])
    ensures var y := Swap(x, |x| - 1, draws[0]);
      FisherYates(x, draws) == FisherYates(y[..|x| - 1], draws[1..]) + [y[|x| - 1]]
  {
    ValidDrawsTail(|x|, draws);
  }

  /** The shuffle only rearranges: the result has the multiset of the input. */
  lemma {:induction false} FisherYatesPermutes<T>(x: seq<T>, draws: seq<nat>)
    requires ValidDraws(|x|, draws)
    ensures multiset(FisherYates(x, draws)) == multiset(x)
    decreases |x|
  {
    if |x| > 1 {
      var n := |x| - 1;
      var y := Swap(x, n, draws[0]);
      FisherYatesUnfold(x, draws);
      FisherYatesPermutes(y[..n], draws[1..]);
      SwapKeepsMultiset(x, n, draws[0]);
      assert y == y[..n] + [y[n]];
    }
  }

  /** Swapping inside a prefix is swapping in the whole sequence, restricted to that prefix. */
  lemma SwapPrefix<T>(r: seq<T>, m: nat, j: nat)
    requires j < m <= |r|
    ensures Swap(r[..m], m - 1, j) == Swap(r, m - 1, j)[..m]
    ensures Swap(r, m - 1, j)[m..] == r[m..]
  {
  }

  /** One step of the in-place loop: swap at the last open position, then close it. */
  lemma FisherYatesStep<T>(r: seq<T>, m: nat, draws: seq<nat>)
    requires 1 < m <= |r| && ValidDraws(m, draws)
    ensures ValidDraws(m - 1, draws[1..])
    ensures var r' := Swap(r, m - 1, draws[0]);
      FisherYates(r[..m], draws) + r[m..] == FisherYates(r'[..m - 1], draws[1..]) + r'[m - 1..]
  {
    var r' := Swap(r, m - 1, draws[0]);
    var y := Swap(r[..m], m - 1, draws[0]);
    FisherYatesUnfold(r[..m], draws);
    SwapPrefix(r, m, draws[0]);
    assert y[..m - 1] == r'[..m - 1];
    assert r'[m - 1..] == [r'[m - 1]] + r[m..];
  }

  /**
   The shuffle as CPython runs it: one loop over a mutable list, here a
   sequence variable. It computes the same permutation as `FisherYates`.
   */
  method ShuffleInPlace<T>(x: seq<T>, draws: seq<nat>) returns (r: seq<T>)
    requires ValidDraws(|x|, draws)
    ensures r == FisherYates(x, draws)
  {
    r := x;
    var m: nat := |x|;
    var rest := draws;
    assert r[..m] == x && r[m..] == [];
    while m > 1
      invariant m <= |r| == |x|
      invariant |x| > 0 ==> m >= 1
      invariant ValidDraws(m, rest)
      invariant FisherYates(x, draws) == FisherYates(r[..m], rest) + r[m..]
    {
      FisherYatesStep(r, m, rest);
      r := Swap(r, m - 1, rest[0]);
      rest := rest[1..];
      m := m - 1;
    }
    assert r == r[..m] + r[m..];
  }

  /** The first position of `v` in `x`. */
  function IndexOf<T(==)>(x: seq<T>, v: T): (i: nat)
    requires v in x
    ensures i < |x| && x[i] == v
    ensures forall k :: 0 <= k < i ==> x[k] != v
  {
    if x[0] == v then 0 else 1 + IndexOf(x[1..], v)
  }

  /** Two arrangements of one multiset that end alike agree in multiset before the end. */
  lemma PrefixMultiset<T>(y: seq<T>, t: seq<T>)
    requires |y| == |t| > 0 && multiset(y) == multiset(t)
    requires y[|y| - 1] == t[|t| - 1]
    ensures multiset(y[..|y| - 1]) == multiset(t[..|t| - 1])
  {
    var n := |y| - 1;
    assert y == y[..n] + [y[n]];
    assert t == t[..n] + [t[n]];
    assert multiset(y) == multiset(y[..n]) + multiset{y[n]};
    assert multiset(t) == multiset(t[..n]) + multiset{t[n]};
    forall v
      ensures multiset(y[..n])[v] == multiset(t[..n])[v]
    {
      assert multiset(y)[v] == multiset(t)[v];
    }
  }

  /** Arrangements of one multiset have equal length, and with at most one element they are equal. */
  lemma ShortArrangement<T>(x: seq<T>, t: seq<T>)
    requires multiset(x) == multiset(t)
    ensures |x| == |t|
    ensures |x| <= 1 ==> x == t
  {
    assert |x| == |multiset(x)| == |multiset(t)| == |t|;
    if |x| == 1 {
      assert x[0] in multiset(t);
    }
  }

  /**
   Draws that make the shuffle of `x` come out as `t`: every rearrangement of
   `x` is a possible result, so the model leaves the order unconstrained.
   */
  function DrawsFor<T(==)>(x: seq<T>, t: seq<T>): (draws: seq<nat>)
    requires multiset(x) == multiset(t)
    ensures ValidDraws(|x|, draws)
    ensures FisherYates(x, draws) == t
    decreases |x|
  {
    ShortArrangement(x, t);
    if |x| <= 1 then []
    else
      var n := |x| - 1;
      assert t[n] in multiset(x);
      var j := IndexOf(x, t[n]);
      SwapKeepsMultiset(x, n, j);
      PrefixMultiset(Swap(x, n, j), t);
      var rest := DrawsFor(Swap(x, n, j)[..n], t[..n]);
      DrawsForStep(x, t, j, rest);
      [j] + rest
  }

  /** A first draw in range followed by valid draws for the prefix is a valid sequence of draws. */
  lemma ValidDrawsCons(n: nat, draws: seq<nat>)
    requires n > 1 && |draws| > 0 && draws[0] < n && ValidDraws(n - 1, draws[1..])
    ensures ValidDraws(n, draws)
  {
    forall k | 0 < k < |draws|
      ensures draws[k] <= n - 1 - k
    {
      assert draws[k] == draws[1..][k - 1];
    }
  }

  /** Putting the chosen last element in place first, then the draws for the prefix. */
  lemma DrawsForStep<T>(x: seq<T>, t: seq<T>, j: nat, rest: seq<nat>)
    requires |x| == |t| > 1 && j < |x| && x[j] == t[|t| - 1]
    requires ValidDraws(|x| - 1, rest)
    requires FisherYates(Swap(x, |x| - 1, j)[..|x| - 1], rest) == t[..|t| - 1]
    ensures ValidDraws(|x|, [j] + rest)
    ensures FisherYates(x, [j] + rest) == t
  {
    var draws := [j] + rest;
    assert draws[0] == j && draws[1..] == rest;
    ValidDrawsCons(|x|, draws);
    FisherYatesUnfold(x, draws);
    assert t == t[..|t| - 1] + [t[|t| - 1]];
  }
}
