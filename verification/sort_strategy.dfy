/**
 The ordering policy of the playlist engine (`MediaListSortStrategy` in player/media.go).

 A strategy reorders a sequence of media paths and does nothing else, so the engine only
 relies on one fact about it: its output is a permutation of its input. That fact is
 `IsPermutation` below. The one built-in strategy, `SortStratRandom`, is a Fisher-Yates
 shuffle as performed by Go's `rand.Shuffle`; here the random draws are a parameter.
 */
module SortStrategy {

  /** A media file path. */
  type Path = string

  /** `a` holds exactly the elements of `b`, each as many times, in some order. */
  predicate IsPermutation<T(==)>(a: seq<T>, b: seq<T>) {
    multiset(a) == multiset(b)
  }

  /** A sequence of random draws for a shuffle: `draws[i]` is the index `j` chosen when the
      shuffle loop is at index `i`, so it lies in `[0, i]` (what `int31n(i + 1)` returns). */
  predicate ValidDraws(draws: seq<nat>) {
    forall i :: 0 <= i < |draws| ==> draws[i] <= i
  }

  /** Exchanges the elements at indices `i` and `j`. */
  function Swap<T(==)>(s: seq<T>, i: nat, j: nat): (r: seq<T>)
    requires i < |s| && j < |s|
    ensures |r| == |s|
    ensures r[i] == s[j] && r[j] == s[i]
  {
    s[i := s[j]][j := s[i]]
  }

  /** Exchanging two elements keeps every element and its multiplicity. */
  lemma SwapIsPermutation<T>(s: seq<T>, i: nat, j: nat)
    requires i < |s| && j < |s|
    ensures IsPermutation(Swap(s, i, j), s)
  {
  }

  /** Reference definition of the Fisher-Yates shuffle of `rand.Shuffle`: the element at
      the last index is exchanged with the one at `draws[|s| - 1]`, after which that last
      index is never touched again and the same is done to the shorter prefix. */
  function Shuffle<T(==)>(s: seq<T>, draws: seq<nat>): (r: seq<T>)
    requires |draws| == |s| && ValidDraws(draws)
    ensures |r| == |s|
    decreases |s|
  {
    if |s| <= 1 then s
    else
      var i := |s| - 1;
      var t := Swap(s, i, draws[i]);
      Shuffle(t[..i], draws[..i]) + [t[i]]
  }

  /** The shuffle only reorders: its result is a permutation of its input, so the random
      strategy meets the contract the engine relies on. */
  lemma {:induction false} ShuffleIsPermutation<T>(s: seq<T>, draws: seq<nat>)
    requires |draws| == |s| && ValidDraws(draws)
    ensures IsPermutation(Shuffle(s, draws), s)
    decreases |s|
  {
    if |s| > 1 {
      var i := |s| - 1;
      var t := Swap(s, i, draws[i]);
      var rest := Shuffle(t[..i], draws[..i]);
      assert Shuffle(s, draws) == rest + [t[i]];
      SwapIsPermutation(s, i, draws[i]);
      ShuffleIsPermutation(t[..i], draws[..i]);
      SplitLast(t);
      assert multiset(t) == multiset(t[..i]) + multiset{t[i]};
      assert multiset(rest + [t[i]]) == multiset(rest) + multiset{t[i]};
    }
  }

  /** `SortStratRandom.Sort`: the in-place shuffle loop of `rand.Shuffle`, walking `i` from the
      last index down to 1 and exchanging `s[i]` with `s[draws[i]]`. It computes exactly the
      reference shuffle, so it returns a permutation of its input. */
  method SortRandom(s: seq<Path>, draws: seq<nat>) returns (r: seq<Path>)
    requires |draws| == |s| && ValidDraws(draws)
    ensures r == Shuffle(s, draws)
    ensures IsPermutation(r, s)
  {
    r := s;
    // `k` is the length of the prefix still to shuffle; Go's loop index is `k - 1`
    var k := |r|;
    assert r[..k] == r && draws[..k] == draws;
    while k > 1
      invariant k <= |r| == |s|
      invariant Shuffle(s, draws) == Shuffle(r[..k], draws[..k]) + r[k..]
    {
      var i := k - 1;
      ShuffleStep(r, draws, i);
      r, k := Swap(r, i, draws[i]), i;
    }
    assert r == r[..k] + r[k..];
    ShuffleIsPermutation(s, draws);
  }

  /** One iteration of the loop in `SortRandom`: shuffling the prefix `a[..i + 1]` is swapping
      at `i` in the whole sequence and then shuffling the shorter prefix. */
  lemma ShuffleStep<T>(a: seq<T>, draws: seq<nat>, i: nat)
    requires 0 < i < |a| == |draws| && ValidDraws(draws)
    ensures Shuffle(a[..i + 1], draws[..i + 1]) + a[i + 1..]
            == Shuffle(Swap(a, i, draws[i])[..i], draws[..i]) + Swap(a, i, draws[i])[i..]
  {
    var b := Swap(a, i, draws[i]);
    var t := Swap(a[..i + 1], i, draws[i]);
    assert t[..i] == b[..i];
    assert draws[..i + 1][..i] == draws[..i];
    assert Shuffle(a[..i + 1], draws[..i + 1]) == Shuffle(b[..i], draws[..i]) + [b[i]];
    assert b[i..] == [b[i]] + a[i + 1..];
  }

  /** The draws that make the shuffle of `s` produce the ordering `p`: every permutation of `s`
      is reachable, which is the precondition for the shuffle being uniform. The draw at the top
      index picks an occurrence of `p`'s last element; the rest are found for the prefix. */
  function DrawsFor<T(==)>(s: seq<T>, p: seq<T>): (draws: seq<nat>)
    requires IsPermutation(p, s)
    ensures |draws| == |s| && ValidDraws(draws)
    ensures Shuffle(s, draws) == p
    decreases |s|
  {
    PermutationSameLength(p, s);
    if |s| == 0 then []
    else if |s| == 1 then
      SingletonPermutation(s, p);
      [0]
    else
      var i := |s| - 1;
      assert p[i] in multiset(p);
      var j := IndexOf(s, p[i]);
      var t := Swap(s, i, j);
      SwapIsPermutation(s, i, j);
      PermutationDropLast(t, p);
      var d := DrawsFor(t[..i], p[..i]);
      ShuffleExtendsPrefix(s, p, d, j);
      d + [j]
  }

  /** Permutations of each other have the same length. */
  lemma PermutationSameLength<T>(a: seq<T>, b: seq<T>)
    requires IsPermutation(a, b)
    ensures |a| == |b|
  {
    assert |multiset(a)| == |multiset(b)|;
  }

  /** The only permutation of a one-element sequence is itself. */
  lemma SingletonPermutation<T>(s: seq<T>, p: seq<T>)
    requires IsPermutation(p, s) && |s| == 1 && |p| == 1
    ensures p == s
  {
    assert p[0] in multiset(s);
  }

  /** The inductive step of `DrawsFor`: draws reaching the prefix of `p`
      after the top element has been fixed, plus the draw that fixed it, reach `p`. */
  lemma ShuffleExtendsPrefix<T>(s: seq<T>, p: seq<T>, d: seq<nat>, j: nat)
    requires |s| == |p| > 1 && |d| == |s| - 1 && ValidDraws(d) && j < |s| && s[j] == p[|p| - 1]
    requires Shuffle(Swap(s, |s| - 1, j)[..|s| - 1], d) == p[..|p| - 1]
    ensures |d + [j]| == |s| && ValidDraws(d + [j]) && Shuffle(s, d + [j]) == p
  {
    ShuffleLastDraw(s, d, j);
    SplitLast(p);
  }

  /** A non-empty sequence is its prefix followed by its last element. */
  lemma SplitLast<T>(p: seq<T>)
    requires |p| > 0
    ensures p[..|p| - 1] + [p[|p| - 1]] == p
  {
  }

  /** An index at which `s` holds `x`, for any element `x` of `s`. */
  function IndexOf<T(==)>(s: seq<T>, x: T): (j: nat)
    requires x in multiset(s)
    ensures j < |s| && s[j] == x
  {
    if s[0] == x then 0
    else
      assert s == [s[0]] + s[1..];
      1 + IndexOf(s[1..], x)
  }

  /** Two permutations of each other that agree at the last index still are once it is dropped. */
  lemma PermutationDropLast<T>(t: seq<T>, p: seq<T>)
    requires IsPermutation(t, p) && |t| == |p| > 0 && t[|t| - 1] == p[|p| - 1]
    ensures IsPermutation(t[..|t| - 1], p[..|p| - 1])
  {
    var n := |t| - 1;
    assert t == t[..n] + [t[n]];
    assert p == p[..n] + [p[n]];
    assert multiset(t) == multiset(t[..n]) + multiset{t[n]};
    assert multiset(p) == multiset(p[..n]) + multiset{p[n]};
    assert multiset(t[..n]) == multiset(t) - multiset{t[n]};
    assert multiset(p[..n]) == multiset(p) - multiset{p[n]};
  }

  /** Shuffling with one more draw at the top index: the draw picks the last element, the
      earlier draws shuffle the prefix. */
  lemma ShuffleLastDraw<T>(s: seq<T>, d: seq<nat>, j: nat)
    requires |s| > 1 && |d| == |s| - 1 && ValidDraws(d) && j < |s|
    ensures ValidDraws(d + [j])
    ensures Shuffle(s, d + [j])
            == Shuffle(Swap(s, |s| - 1, j)[..|s| - 1], d) + [Swap(s, |s| - 1, j)[|s| - 1]]
  {
    var draws := d + [j];
    assert draws[..|s| - 1] == d;
    assert draws[|s| - 1] == j;
  }

  /** Drawing `j == i` at every index exchanges every element with itself: the shuffle then
      keeps the given order. */
  lemma {:induction false} ShuffleWithSelfDrawsIsIdentity<T>(s: seq<T>, draws: seq<nat>)
    requires |draws| == |s|
    requires forall i :: 0 <= i < |draws| ==> draws[i] == i
    ensures ValidDraws(draws)
    ensures Shuffle(s, draws) == s
    decreases |s|
  {
    if |s| > 1 {
      var i := |s| - 1;
      assert Swap(s, i, draws[i]) == s;
      ShuffleWithSelfDrawsIsIdentity(s[..i], draws[..i]);
      assert s == s[..i] + [s[i]];
    }
  }
}
