/**
 Playback over many steps: a sequence of `Advance` calls on one engine, as a controller
 loop makes them. Calls are serialised by the engine's lock, so a run of them from several
 callers is one sequence of atomic steps, which is what `Run` describes.
 */
module Playback {
  import opened SortStrategy
  import opened Media

  /** The engine after a run of advances, and the paths the advances returned, in order. */
  datatype Trace = Trace(state: MediaList, played: seq<Path>)

  /** The sort results a run may use: each is an ordering of the playlist `list`. */
  predicate Orderings(resorts: seq<seq<Path>>, list: seq<Path>) {
    forall k :: 0 <= k < |resorts| ==> IsPermutation(resorts[k], list)
  }

  /** `Advance` called once per entry of `resorts`, the entry being what the sort strategy
      returns should that call rotate: the engine afterwards and every path returned. */
  function Run(ml: MediaList, resorts: seq<seq<Path>>): (r: Trace)
    ensures |r.played| == |resorts|
    decreases |resorts|
  {
    if |resorts| == 0 then Trace(ml, [])
    else
      var step := Advance(ml, resorts[0]);
      var rest := Run(step.state, resorts[1..]);
      Trace(rest.state, [step.value] + rest.played)
  }

  /** However many advances are made, the engine keeps its invariant, its active cycle stays
      an ordering of the same paths, and every path returned is one of them. */
  lemma {:induction false} RunPreservesInv(ml: MediaList, resorts: seq<seq<Path>>)
    requires Inv(ml) && Orderings(resorts, ml.list)
    ensures Inv(Run(ml, resorts).state)
    ensures IsPermutation(Run(ml, resorts).state.list, ml.list)
    ensures forall k :: 0 <= k < |resorts| ==> Run(ml, resorts).played[k] in multiset(ml.list)
    decreases |resorts|
  {
    if |resorts| > 0 {
      var step := Advance(ml, resorts[0]);
      assert step.value in step.state.list;
      OrderingsTail(resorts, ml.list, step.state.list);
      RunPreservesInv(step.state, resorts[1..]);
    }
  }

  /** The sort results left after the first step are orderings of any reordering of the
      playlist. */
  lemma OrderingsTail(resorts: seq<seq<Path>>, list: seq<Path>, list': seq<Path>)
    requires |resorts| > 0 && Orderings(resorts, list) && IsPermutation(list', list)
    ensures Orderings(resorts[1..], list')
  {
    assert forall k :: 0 <= k < |resorts[1..]| ==> resorts[1..][k] == resorts[k + 1];
  }

  /** A run split in two is the second part run from where the first part stopped. */
  lemma {:induction false} RunAppend(ml: MediaList, a: seq<seq<Path>>, b: seq<seq<Path>>)
    ensures Run(ml, a + b).state == Run(Run(ml, a).state, b).state
    ensures Run(ml, a + b).played == Run(ml, a).played + Run(Run(ml, a).state, b).played
    decreases |a|
  {
    if |a| == 0 {
      assert a + b == b;
    } else {
      var step := Advance(ml, a[0]);
      assert (a + b)[0] == a[0];
      assert (a + b)[1..] == a[1..] + b;
      RunAppend(step.state, a[1..], b);
      var first := Run(step.state, a[1..]);
      var second := Run(first.state, b);
      assert Run(ml, a).played == [step.value] + first.played;
      assert Run(ml, a + b).played == [step.value] + (first.played + second.played);
      assert [step.value] + (first.played + second.played)
          == ([step.value] + first.played) + second.played;
    }
  }

  /** Within one cycle, `n` advances move the cursor `n` places and return the next `n` paths
      of the active cycle in its order, changing nothing else. No sort happens, whatever the
      strategy. */
  lemma {:induction false} TraverseCycle(ml: MediaList, resorts: seq<seq<Path>>)
    requires ml.current + |resorts| < |ml.list|
    ensures Run(ml, resorts).state == ml.(current := ml.current + |resorts|)
    ensures Run(ml, resorts).played == ml.list[ml.current + 1..ml.current + |resorts| + 1]
    decreases |resorts|
  {
    if |resorts| > 0 {
      var next := ml.(current := ml.current + 1);
      var step := Advance(ml, resorts[0]);
      assert step.state == next && step.value == ml.list[next.current];
      TraverseCycle(next, resorts[1..]);
      SliceCons(ml.list, next.current, ml.current + |resorts| + 1);
    }
  }

  /** A non-empty slice is its first element followed by the rest. */
  lemma SliceCons(s: seq<Path>, i: nat, j: nat)
    requires i < j <= |s|
    ensures s[i..j] == [s[i]] + s[i + 1..j]
  {
  }

  /** From the start of a cycle, the current path and the next `|list| - 1` advances play
      every path of the active cycle exactly once, in the order it was staged in; the advance
      after that rotates, returning the first path of the former staged cycle, which becomes
      the active cycle unchanged. */
  lemma CycleThenRotate(ml: MediaList, resorts: seq<seq<Path>>)
    requires Inv(ml) && ml.current == 0 && |resorts| == |ml.list|
    ensures [Current(ml)] + Run(ml, resorts).played[..|ml.list| - 1] == ml.list
    ensures Run(ml, resorts).played[|ml.list| - 1] == ml.nextList[0]
    ensures Run(ml, resorts).state.list == ml.nextList
    ensures Run(ml, resorts).state.nextList == resorts[|ml.list| - 1]
    ensures Run(ml, resorts).state.current == 0
  {
    var n := |ml.list| - 1;
    var a, b := resorts[..n], resorts[n..];
    assert a + b == resorts;
    RunAppend(ml, a, b);
    TraverseCycle(ml, a);
    PermutationSameLength(ml.nextList, ml.list);
    RotateAtEnd(ml.(current := n), b);
    var played := Run(ml, resorts).played;
    assert played == ml.list[1..n + 1] + [ml.nextList[0]];
    assert played[..n] == ml.list[1..n + 1];
    SliceCons(ml.list, 0, n + 1);
    assert ml.list[0..n + 1] == ml.list;
  }

  /** One advance from the last index of a cycle with a staged cycle rotates: it returns the
      staged cycle's first path, makes that cycle active and stages the sort result. */
  lemma RotateAtEnd(ml: MediaList, resorts: seq<seq<Path>>)
    requires |resorts| == 1 && ml.current + 1 == |ml.list| && |ml.nextList| > 0
    ensures Run(ml, resorts).played == [ml.nextList[0]]
    ensures Run(ml, resorts).state == MediaList(ml.nextList, resorts[0], 0)
  {
    RunOne(ml, resorts);
  }

  /** A run of one advance is that advance. */
  lemma RunOne(ml: MediaList, resorts: seq<seq<Path>>)
    requires |resorts| == 1
    ensures Run(ml, resorts).state == Advance(ml, resorts[0]).state
    ensures Run(ml, resorts).played == [Advance(ml, resorts[0]).value]
  {
    assert Run(Advance(ml, resorts[0]).state, resorts[1..]).played == [];
  }

  /** However many advances are made, the cursor moves one place per advance, wrapping to the
      start of the next cycle at the end of each: no step is skipped or repeated. The cursor
      after `n` advances is `(current + n) % |list|` (see `WrapIsMod`). */
  lemma {:induction false} RunCursor(ml: MediaList, resorts: seq<seq<Path>>)
    requires Inv(ml) && Orderings(resorts, ml.list)
    ensures Run(ml, resorts).state.current == Wrap(ml.current + |resorts|, |ml.list|)
    decreases |resorts|
  {
    if |resorts| > 0 {
      var step := Advance(ml, resorts[0]);
      PermutationSameLength(step.state.list, ml.list);
      OrderingsTail(resorts, ml.list, step.state.list);
      RunCursor(step.state, resorts[1..]);
      if ml.current + 1 == |ml.list| {
        assert Wrap(ml.current + |resorts|, |ml.list|) == Wrap(|resorts| - 1, |ml.list|);
      }
    }
  }

  /** The position `x` places from the start of a cycle of length `len`, counting round the
      cycle as often as needed. */
  function Wrap(x: nat, len: nat): (r: nat)
    requires len > 0
    ensures r < len
    decreases x
  {
    if x < len then x else Wrap(x - len, len)
  }

  /** Counting round the cycle is taking the remainder. */
  lemma {:induction false} WrapIsMod(x: nat, len: nat)
    requires len > 0
    ensures Wrap(x, len) == x % len
    decreases x
  {
    if x < len {
      ModUnique(x, len, 0, x);
    } else {
      WrapIsMod(x - len, len);
      ModShift(x - len, len);
    }
  }

  /** Adding the modulus does not change a remainder. */
  lemma ModShift(x: nat, len: nat)
    requires len > 0
    ensures (x + len) % len == x % len
  {
    var q, r := x / len, x % len;
    assert x + len == (q + 1) * len + r;
    ModUnique(x + len, len, q + 1, r);
  }

  /** A remainder is the only `r` in `[0, len)` with `x == q * len + r`. */
  lemma ModUnique(x: int, len: nat, q: int, r: int)
    requires len > 0 && 0 <= r < len && x == q * len + r
    ensures x % len == r
  {
    var q', r' := x / len, x % len;
    assert x == q' * len + r';
    if q > q' {
      MulGap(q, q', len);
      assert false;
    } else if q < q' {
      MulGap(q', q, len);
      assert false;
    }
  }

  /** Multiples of `len` with different factors lie at least `len` apart. */
  lemma MulGap(q: int, q': int, len: nat)
    requires q > q'
    ensures q * len - q' * len >= len
  {
    MulAtLeast(q - q', len);
    assert (q - q') * len == q * len - q' * len;
  }

  /** A positive multiple of `len` is at least `len`. */
  lemma MulAtLeast(d: int, len: nat)
    requires d >= 1
    ensures d * len >= len
  {
    if d > 1 {
      MulAtLeast(d - 1, len);
      assert d * len == (d - 1) * len + len;
    }
  }
}
