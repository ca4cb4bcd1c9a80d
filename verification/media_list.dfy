/**
 The playlist rotation engine (`MediaList` in player/media.go).

 The engine holds the cycle being played (`list`), the cycle staged to play next
 (`nextList`) and a cursor into the active cycle (`current`). Every operation is one
 atomic step over an immutable value. Each call the Go code makes to its sort strategy is
 represented by that call's result, passed in as a parameter and required to be a
 permutation of what was sorted.
 */
module Media {
  import opened SortStrategy

  datatype MediaList = MediaList(list: seq<Path>, nextList: seq<Path>, current: nat)

  /** The outcome of `NewMediaList`: an engine, or the error it reports. */
  datatype Result<T> = Ok(value: T) | Err(msg: string)

  /** The engine after `Advance`, together with the path `Advance` returned. */
  datatype Step = Step(state: MediaList, value: Path)

  /** The error message of a construction from an empty list. */
  const NeedMedia: string := "need media"

  /** The path returned when there is nothing to play. */
  const NoPath: Path := ""

  /** What every engine built by `NewMediaList` satisfies: a non-empty active cycle, a cursor
      inside it, and a staged cycle holding the same paths. */
  predicate Inv(ml: MediaList) {
    && |ml.list| > 0
    && ml.current < |ml.list|
    && IsPermutation(ml.nextList, ml.list)
  }

  /** `ml` satisfies the invariant and both of its cycles are orderings of `input`. */
  predicate Valid(ml: MediaList, input: seq<Path>) {
    Inv(ml) && IsPermutation(ml.list, input)
  }

  /** `NewMediaList`: fails exactly on an empty list; otherwise the two cycles are the results
      of two independent sort calls on copies of the input (`sortedList`, `sortedNext`) and the
      cursor is at the start. The engine is valid exactly when the strategy only reordered. */
  function NewMediaList(input: seq<Path>, sortedList: seq<Path>, sortedNext: seq<Path>)
    : (r: Result<MediaList>)
    ensures r.Err? <==> |input| == 0
    ensures r.Err? ==> r.msg == NeedMedia
    ensures r.Ok? ==> r.value.list == sortedList && r.value.nextList == sortedNext
    ensures r.Ok? ==> r.value.current == 0
    ensures r.Ok? ==>
              (Valid(r.value, input)
               <==> IsPermutation(sortedList, input) && IsPermutation(sortedNext, input))
  {
    if |input| == 0 then Err(NeedMedia)
    else
      assert IsPermutation(sortedList, input) ==> |sortedList| > 0 by {
        if IsPermutation(sortedList, input) {
          PermutationSameLength(sortedList, input);
        }
      }
      Ok(MediaList(sortedList, sortedNext, 0))
  }

  /** `All`: the active cycle. */
  function All(ml: MediaList): (r: seq<Path>) {
    ml.list
  }

  /** `Current`: the path under the cursor, which is always one of the active cycle's. The Go
      code indexes without a check, so the cursor must be in range. */
  function Current(ml: MediaList): (r: Path)
    requires ml.current < |ml.list|
    ensures r in ml.list
  {
    ml.list[ml.current]
  }

  /** `Next`: a peek at the path the next `Advance` returns. On a valid engine that path
      always belongs to the playlist. */
  function Next(ml: MediaList): (r: Path)
    ensures Inv(ml) ==> r in ml.list
  {
    if ml.current + 1 >= |ml.list| then
      if |ml.nextList| == 0 then NoPath
      else
        assert ml.nextList[0] in multiset(ml.nextList);
        ml.nextList[0]
    else ml.list[ml.current + 1]
  }

  /** `Advance`: moves the cursor forward within the active cycle; at the end of the cycle it
      promotes the staged cycle unchanged and stages `resorted`, the strategy's reordering of
      the cycle just finished; with nothing staged it rewinds the cursor. It returns the path
      that is current afterwards, and keeps the invariant as long as the strategy only
      reorders. */
  function Advance(ml: MediaList, resorted: seq<Path>): (r: Step)
    // mid-cycle: one step forward, nothing else changes
    ensures ml.current + 1 < |ml.list| ==>
              r.state == ml.(current := ml.current + 1) && r.value == ml.list[ml.current + 1]
    // end of cycle: rotation
    ensures ml.current + 1 >= |ml.list| && |ml.nextList| > 0 ==>
              && r.state.list == ml.nextList
              && r.state.nextList == resorted
              && r.state.current == 0
              && r.value == ml.nextList[0]
    // end of cycle with nothing staged: rewind in place
    ensures ml.current + 1 >= |ml.list| && |ml.nextList| == 0 ==>
              && r.state == ml.(current := 0)
              && r.value == (if |ml.list| == 0 then NoPath else ml.list[0])
    // the returned path is the new current one
    ensures |r.state.list| > 0 ==> r.state.current < |r.state.list| && r.value == Current(r.state)
    ensures |r.state.list| == 0 ==> r.value == NoPath
    // the invariant is kept, and the active cycle stays an ordering of the same paths
    ensures Inv(ml) && IsPermutation(resorted, ml.list) ==>
              Inv(r.state) && IsPermutation(r.state.list, ml.list)
  {
    if ml.current + 1 >= |ml.list| then
      if |ml.nextList| == 0 then
        var rewound := ml.(current := 0);
        if |rewound.list| == 0 then Step(rewound, NoPath)
        else Step(rewound, rewound.list[rewound.current])
      else
        // the two cycles trade places and the finished one is re-sorted
        Settle(MediaList(ml.nextList, resorted, 0))
    else
      Settle(ml.(current := ml.current + 1))
  }

  /** The tail of `Advance` once the cursor has moved: the bounds check, then the read. */
  function Settle(moved: MediaList): (r: Step) {
    if moved.current >= |moved.list| then Step(moved, NoPath)
    else Step(moved, moved.list[moved.current])
  }

  /** The bounds check after the cursor moves never fails: whatever the state, a step that
      does not rewind leaves the cursor inside a non-empty active cycle. */
  lemma AdvanceNeverOutOfBounds(ml: MediaList, resorted: seq<Path>)
    requires ml.current + 1 < |ml.list| || |ml.nextList| > 0
    ensures Advance(ml, resorted).state.current < |Advance(ml, resorted).state.list|
  {
  }

  /** `Advance` keeps an engine built from `input` an engine of `input`: both cycles stay
      non-empty orderings of it and the cursor stays in range. */
  lemma AdvancePreservesValid(ml: MediaList, input: seq<Path>, resorted: seq<Path>)
    requires Valid(ml, input) && IsPermutation(resorted, ml.list)
    ensures Valid(Advance(ml, resorted).state, input)
    ensures Advance(ml, resorted).value in input
  {
    var r := Advance(ml, resorted);
    assert r.value in r.state.list;
    assert r.value in multiset(r.state.list);
  }

  /** Peek and advance agree: unless the cycle is over with nothing staged, `Next` returns
      exactly what `Advance` will, whatever the strategy does. */
  lemma NextMatchesAdvance(ml: MediaList, resorted: seq<Path>)
    requires ml.current + 1 < |ml.list| || |ml.nextList| > 0
    ensures Next(ml) == Advance(ml, resorted).value
  {
  }

  /** On every engine satisfying the invariant peek and advance agree. */
  lemma ValidNextMatchesAdvance(ml: MediaList, resorted: seq<Path>)
    requires Inv(ml)
    ensures Next(ml) == Advance(ml, resorted).value
  {
    PermutationSameLength(ml.nextList, ml.list);
    NextMatchesAdvance(ml, resorted);
  }

  /** With the cycle over and nothing staged, peek and advance disagree: `Next` reports no
      path while `Advance` rewinds and returns the first path of the active cycle. No engine
      satisfying the invariant reaches this state. */
  lemma NextDivergesWithNothingStaged(ml: MediaList, resorted: seq<Path>)
    requires ml.current + 1 >= |ml.list| && |ml.nextList| == 0
    requires |ml.list| > 0 && ml.list[0] != NoPath
    ensures Next(ml) == NoPath
    ensures Advance(ml, resorted).value == ml.list[0] != Next(ml)
    ensures !Inv(ml)
  {
  }

  /** A freshly built engine's current path is one of the input paths. */
  lemma NewCurrentIsInput(input: seq<Path>, sortedList: seq<Path>, sortedNext: seq<Path>)
    requires IsPermutation(sortedList, input) && IsPermutation(sortedNext, input)
    requires |input| > 0
    ensures NewMediaList(input, sortedList, sortedNext).Ok?
    ensures Current(NewMediaList(input, sortedList, sortedNext).value) in input
  {
    var ml := NewMediaList(input, sortedList, sortedNext).value;
    assert Current(ml) in multiset(ml.list);
  }

  /** `All` on an engine built from `input` is an ordering of `input`. */
  lemma AllIsOrderingOfInput(ml: MediaList, input: seq<Path>)
    requires Valid(ml, input)
    ensures IsPermutation(All(ml), input)
    ensures |All(ml)| == |input|
  {
    PermutationSameLength(ml.list, input);
  }
}
