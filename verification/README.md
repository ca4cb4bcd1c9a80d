# Playlist rotation engine of goCable, in Dafny

This project models the playlist engine of goCable's player (`player/media.go`). The
engine is a `MediaList`. It holds three things:

- `list`: the cycle of media paths being played.
- `nextList`: the cycle staged to play next.
- `current`: a cursor into `list`.

It also holds a pluggable `MediaListSortStrategy`. The strategy reorders a cycle once at
construction and again each time a finished cycle is re-staged.

The model has three modules:

- `SortStrategy` (`sort_strategy.dfy`) covers the strategy contract. A strategy only
  reorders (`IsPermutation`, equal multisets). This module also models the built-in
  `SortStratRandom`. That strategy is the Fisher-Yates loop of Go's `rand.Shuffle`, and the
  random draws become a parameter. `Shuffle` is the reference definition. `SortRandom` is the
  in-place loop, and it is proved to compute `Shuffle`. `ShuffleIsPermutation` proves that
  the shuffle only reorders. `DrawsFor` computes, for any ordering, draws that produce it, so
  every ordering is reachable.
- `Media` (`media_list.dfy`) covers the engine state and its operations `NewMediaList`,
  `All`, `Current`, `Next` and `Advance`. Each is a pure function on an immutable
  `MediaList` value. Each time the Go code calls `Sort`, the model takes that call's result as
  a parameter (`sortedList` and `sortedNext` at construction, `resorted` in `Advance`). This
  keeps the model deterministic, and the two sorts at construction stay independent. The
  operations accept any sort result. Their contracts say the invariant holds exactly when, or
  as long as, the results are reorderings. `Inv` is the invariant: a non-empty active cycle,
  the cursor inside it, and a staged cycle holding the same paths. `Valid` adds that the
  active cycle is an ordering of the constructor's input.
- `Playback` (`playback.dfy`) covers runs of many `Advance` calls. The engine's mutex
  serialises callers, so any interleaving of calls is one sequence of atomic steps. `Run`
  describes that sequence. The lemmas here show that the invariant holds across a run and
  that a cycle plays every path once, in its staged order, before rotating. They also show
  that the cursor moves exactly one place per call, modulo the cycle length.

Three behaviours of `player/media.go` are easy to misread, and the model follows the code:

- `All` returns the engine's own `list` slice, not a copy (player/media.go:47-49).
- When the cycle is over and nothing is staged, `Advance` sets the cursor to 0
  (player/media.go:79) and returns `list[0]` (player/media.go:83), although its debug
  message on line 78 says it stays at the current index.
- In that same state `Next` returns `""` (player/media.go:61-64) while `Advance` returns
  `list[0]` (player/media.go:83). So peek and advance agree only when a path is staged or
  the cycle is not over. The lemma `NextDivergesWithNothingStaged` shows the disagreement. `ValidNextMatchesAdvance` shows
  that no engine satisfying the invariant is ever in that state. An engine built by
  `NewMediaList` always satisfies it if the strategy only reorders.

## Model

| member | source | states |
|---|---|---|
| SortStrategy.SortRandom | player/media.go:19-21 | The in-place shuffle loop walks from the last index down to 1, swapping each index with its draw. It computes exactly the reference Fisher-Yates shuffle, so its result is a permutation of its input. |
| SortStrategy.ShuffleIsPermutation | player/media.go:13-21 | The random strategy keeps every path and its multiplicity, so it meets the reorder-only contract the engine relies on. |
| SortStrategy.DrawsFor | player/media.go:19-21 | For every ordering of a sequence there are valid draws, each in [0, i], that make the shuffle produce that ordering. So every permutation is reachable. |
| SortStrategy.ShuffleWithSelfDrawsIsIdentity | player/media.go:19-21 | If every draw picks its own index, the shuffle keeps the given order. |
| Media.NewMediaList | player/media.go:32-44 | Construction fails with "need media" exactly when the input is empty. Otherwise both cycles are the two independent sort results and the cursor is 0. The engine is valid exactly when both sort results are orderings of the input. |
| Media.NewCurrentIsInput | player/media.go:32-55 | A freshly built engine's current path is one of the input paths. |
| Media.AllIsOrderingOfInput | player/media.go:47-49 | On a valid engine, `All` returns an ordering of the constructor's input, of the same length. |
| Media.Current | player/media.go:51-55 | The current path is a path of the active cycle. |
| Media.Next | player/media.go:57-69 | On an engine satisfying the invariant, the peeked path is a path of the playlist. |
| Media.Advance | player/media.go:72-99 | Mid-cycle, the cursor moves up by one and nothing else changes. At the end of a cycle with something staged, the staged cycle becomes active unchanged, the sort result is staged, the cursor is 0, and the old staged cycle's first path is returned. At the end with nothing staged, the cursor rewinds to 0 and the call returns `list[0]`, or `""` when the list is empty. The returned path is always the new current one. The invariant is kept whenever the sort result is a reordering. |
| Media.AdvanceNeverOutOfBounds | player/media.go:86-98 | After a step that does not rewind, the cursor is inside a non-empty active cycle, so the out-of-bounds branch is never taken. |
| Media.AdvancePreservesValid | player/media.go:72-99 | On an engine built from some input, `Advance` keeps both cycles non-empty orderings of that input and the cursor in range. The returned path is one of the input paths. |
| Media.NextMatchesAdvance | player/media.go:57-99 | When a path is staged or the cycle is not over, `Next` returns exactly what `Advance` will return, whatever the strategy does. |
| Media.ValidNextMatchesAdvance | player/media.go:57-99 | On every engine satisfying the invariant, `Next` and the following `Advance` return the same path. |
| Media.NextDivergesWithNothingStaged | player/media.go:61-84 | When the cycle is over and nothing is staged, `Next` returns `""` while `Advance` returns `list[0]`. Such a state violates the invariant. |
| Playback.RunPreservesInv | player/media.go:72-99 | Over any number of advances with reorder-only sorts, the invariant holds and the active cycle stays an ordering of the same paths. Every returned path belongs to the playlist. |
| Playback.TraverseCycle | player/media.go:89-98 | Within a cycle, `n` advances move the cursor `n` places and return the next `n` paths of the active cycle in order. No sort happens and nothing else changes. |
| Playback.CycleThenRotate | player/media.go:76-98 | From the start of a cycle, the current path and the next `len - 1` advances return the active cycle exactly, in order. The advance after that returns the first staged path, makes the staged cycle active unchanged, stages the sort result and resets the cursor to 0. |
| Playback.RunCursor | player/media.go:76-91 | After `n` advances the cursor is `n` places further round the cycle, `Wrap(current + n, len)`, which `WrapIsMod` proves equal to `(current + n) mod len`. No step is skipped or repeated. |

## Left out

- The `sync.Mutex` in `MediaList` and its use in `Current`, `Next` and `Advance` are left out. Each operation is modelled as one atomic step, and a run of calls from several goroutines is a `Run`.
- The uniformity of `rand.Shuffle` is left out because probability is out of scope. The draws are a parameter; `DrawsFor` shows that every ordering is reachable, but not that orderings are equally likely. The model assumes each draw lies in [0, i], which is what `int31n(i + 1)` returns, and does not model how the draw is computed.
- `SortStrategy` as a field of `MediaList` is left out. The strategy is represented by the result of each `Sort` call. Strategies other than `SortStratRandom` are covered only by the reorder-only contract.
- The `fmt.Println` debug output in `Next` and `Advance` is left out. It is console I/O and does not affect the state.
- `FromFolder` and the `VideoFiles` extension set are left out. They walk the file system through `filepath.Walk`, and the model has no file system.
- All: the model does not cover aliasing. `All` returns the internal slice, and after a rotation `Sort` reorders that same backing array in place. A caller holding an earlier `All` result would see it reordered. Immutable sequences cannot show this.
- Current: indexing out of range panics in Go. The model makes this a precondition (`current < |list|`) instead of an error result. The invariant guarantees it on every engine built by `NewMediaList`.
- The cursor is a `nat`, not Go's `int`. It starts at 0, is only incremented while below `len(list) - 1`, and is otherwise reset to 0, so it can neither go negative nor overflow.
