# Podcast player queue controller

This project models the playback queue controller of a podcast web player.
The controller is kept by the `PlayerContextProvider` React component.
It holds three pieces of state: the queue of episodes, the index of the
current episode and whether playback is on. Six commands change that state:
`play`, `playList`, `togglePlay`, `setPlayingState`, `playNext` and
`playPrevious`. Two guards are derived from it: `hasPrevious` and `hasNext`.

The project has two modules:

- `PlayerModel` (player_model.dfy) holds the state as a value,
  `PlayerState(episodes, currentEpisodeIndex, isPlaying)`. It gives each
  command as a function from the old state to the new one. The index
  invariant is `Valid`: an empty queue sits at index 0, and a non-empty queue
  has its index on one of its episodes. The lemmas cover single commands,
  pairs of commands, repeated navigation and whole runs of commands. The
  main one is `RunPreservesValid`: any run of commands keeps the invariant,
  provided each `playList` call passes a position on its list.
- `PlayerContext` (player_context.dfy) holds the class
  `PlayerContextProvider`. It has the three state cells as mutable fields,
  and one method per command, written the way the TypeScript provider in
  src/contexts/PlayerContext.tsx writes it. Each method's postcondition
  equates the new state with the `PlayerModel` function applied to the old
  state, and spells out the new fields. Three client methods replay concrete
  scenarios against the class.

The index is an `int`, not a `nat`. The TypeScript provider in
src/contexts/PlayerContext.tsx stores whatever number a caller passes to
`playList` and does not check it. So `PlayList` has no precondition: its
postcondition says the resulting state is valid exactly when the position is
valid for the list.

The player component looks up the current episode as
`episodes[currentEpisodeIndex]`, which is `undefined` when the index is off
the queue. `Current` models that lookup and returns `None` in that case.

## Model

| member | source | states |
|---|---|---|
| PlayerModel.Initial | src/contexts/PlayerContext.tsx:32-34 | the initial state (empty queue, index 0) satisfies the index invariant, is paused and has no current episode |
| PlayerModel.Current | src/components/Player/index.tsx:12 | the lookup finds an episode exactly when the index is on the queue, and then returns the episode at that index; on a valid state it finds one exactly when the queue is non-empty |
| PlayerModel.HasPrevious | src/contexts/PlayerContext.tsx:56 | the guard is `index > 0`; on a valid state it holds exactly when the queue is non-empty and there is an episode before the current one |
| PlayerModel.HasNext | src/contexts/PlayerContext.tsx:57 | the guard is `index + 1 < length`; on a valid state it holds exactly when the queue is non-empty and there is an episode after the current one |
| PlayerContext.PlayerContextProvider.HasPrevious | src/contexts/PlayerContext.tsx:56 | the class guard is `PlayerModel.HasPrevious` of the three cells; on a valid state it holds exactly when an episode precedes the current one |
| PlayerContext.PlayerContextProvider.HasNext | src/contexts/PlayerContext.tsx:57 | the class guard is `PlayerModel.HasNext` of the three cells; on a valid state it holds exactly when an episode follows the current one |
| PlayerContext.PlayerContextProvider.CurrentEpisode | src/components/Player/index.tsx:12 | the lookup is `PlayerModel.Current` of the three cells: an episode exactly when the index is on the queue, and then the episode at that index |
| PlayerModel.Play | src/contexts/PlayerContext.tsx:36-40 | whatever the prior state, the queue becomes `[episode]` at index 0 and playing; the result is valid, its current episode is `episode`, and it has neither a previous nor a next episode |
| PlayerModel.PlayList | src/contexts/PlayerContext.tsx:42-46 | the fields become the list, the unchecked index and playing; the result is valid if and only if the index is a valid position for the list; an in-range index makes `list[index]` current |
| PlayerModel.TogglePlay | src/contexts/PlayerContext.tsx:48-50 | negates the playing flag and leaves queue, index, validity and current episode unchanged |
| PlayerModel.SetPlayingState | src/contexts/PlayerContext.tsx:52-54 | sets the playing flag to the given value and leaves queue, index, validity and current episode unchanged |
| PlayerModel.PlayNext | src/contexts/PlayerContext.tsx:56-65 | moves the index up by one when `hasNext` holds and otherwise changes nothing; the index never decreases (no wrap-around), queue and playing flag are unchanged, the invariant is preserved, and after an advance the current episode is the next one in the queue |
| PlayerModel.PlayPrevious | src/contexts/PlayerContext.tsx:56-73 | moves the index down by one when `hasPrevious` holds and otherwise changes nothing; the index never increases and never becomes negative, queue and playing flag are unchanged, the invariant is preserved, and after a step back the current episode is the previous one in the queue |
| PlayerModel.GuardsMeanNeighbourExists | src/contexts/PlayerContext.tsx:56-57 | on a valid state, `hasPrevious` holds exactly when there is an episode before the current one, and `hasNext` exactly when there is one after it; on a non-empty queue `hasNext` is `index < length - 1` |
| PlayerModel.PlayForgetsPriorState | src/contexts/PlayerContext.tsx:36-40 | `play(e)` gives the same state from any two prior states |
| PlayerModel.PlayListInRange | src/contexts/PlayerContext.tsx:42-46 | when `0 <= index < length(list)`, `playList` yields a valid state whose current episode is `list[index]` |
| PlayerModel.TogglePlayTwice | src/contexts/PlayerContext.tsx:48-50 | toggling twice restores the original state |
| PlayerModel.SetPlayingStateIdempotent | src/contexts/PlayerContext.tsx:52-54 | setting the same playing state twice gives the same state as setting it once |
| PlayerModel.SetPlayingStateOverridesToggle | src/contexts/PlayerContext.tsx:48-54 | a reported playing state overrides an earlier toggle |
| PlayerModel.PreviousUndoesNext | src/contexts/PlayerContext.tsx:56-73 | on a valid state with a next episode, advancing and then going back returns the original state |
| PlayerModel.NextUndoesPrevious | src/contexts/PlayerContext.tsx:56-73 | on a valid state with a previous episode, going back and then advancing returns the original state |
| PlayerModel.NextTimesStopsAtLast | src/contexts/PlayerContext.tsx:56-65 | from a valid state, n successive advances put the index at `min(index + n, length - 1)` (0 for an empty queue); queue and playing flag are unchanged and the state stays valid |
| PlayerModel.PreviousTimesStopsAtFirst | src/contexts/PlayerContext.tsx:56-73 | from a valid state, n successive steps back put the index at `max(index - n, 0)`; queue and playing flag are unchanged and the state stays valid |
| PlayerModel.NextAtEndIsFixed | src/contexts/PlayerContext.tsx:56-65 | without a next episode, advancing any number of times changes nothing |
| PlayerModel.Apply | src/contexts/PlayerContext.tsx:36-73 | a command applied to a valid state keeps it valid when the caller keeps the `playList` contract; a `playList` with an invalid position always yields an invalid state |
| PlayerModel.RunPreservesValid | src/contexts/PlayerContext.tsx:32-73 | any sequence of commands whose `playList` calls pass valid positions keeps a valid state valid |
| PlayerModel.ReachableStatesAreValid | src/contexts/PlayerContext.tsx:32-73 | every state reached from the initial one through such a sequence satisfies the index invariant |
| PlayerContext.PlayerContextProvider.constructor | src/contexts/PlayerContext.tsx:32-34 | the cells start as an empty queue, index 0 and paused; the state is valid and no episode is current |
| PlayerContext.PlayerContextProvider.Play | src/contexts/PlayerContext.tsx:36-40 | the new state is `PlayerModel.Play` of the old one: queue `[episode]`, index 0, playing, current episode `episode` |
| PlayerContext.PlayerContextProvider.PlayList | src/contexts/PlayerContext.tsx:42-46 | the new state is `PlayerModel.PlayList` of the old one; it is valid exactly when the position is valid for the list |
| PlayerContext.PlayerContextProvider.TogglePlay | src/contexts/PlayerContext.tsx:48-50 | the playing flag is negated; queue and index are unchanged; validity is unchanged |
| PlayerContext.PlayerContextProvider.SetPlayingState | src/contexts/PlayerContext.tsx:52-54 | the playing flag takes the given value; queue and index are unchanged; validity is unchanged |
| PlayerContext.PlayerContextProvider.PlayNext | src/contexts/PlayerContext.tsx:56-65 | the index goes up by one exactly when `hasNext` held before; queue and playing flag are unchanged; a valid state stays valid |
| PlayerContext.PlayerContextProvider.PlayPrevious | src/contexts/PlayerContext.tsx:56-73 | the index goes down by one exactly when `hasPrevious` held before; queue and playing flag are unchanged; a valid state stays valid |
| PlayerContext.AdvanceThroughQueue | src/contexts/PlayerContext.tsx:59-65 | on the queue [A, B, C] from index 0, three `playNext` calls give indices 1, 2, 2 and current episodes B, C, C |
| PlayerContext.RetreatThroughQueue | src/contexts/PlayerContext.tsx:67-73 | on the queue [A, B, C] from index 2, three `playPrevious` calls give indices 1, 0, 0 and current episodes B, A, A |
| PlayerContext.ExternalPause | src/contexts/PlayerContext.tsx:52-54 | after `playList` the player is playing (`wasPlaying`); a `setPlayingState(false)` arriving then stops playback and leaves queue and index as they were |

## Left out

- PlayerModel.PlayList and PlayerContext.PlayerContextProvider.PlayList: the queue field is held as a value (`seq<Episode>`). In src/contexts/PlayerContext.tsx:43 `setEpisodes(list)` keeps the caller's array by reference, and episodes are mutable objects. A caller that later shrinks that array (say, `list.pop()` after `playList(list, 2)` on three episodes) leaves the index off the queue without any command. That aliasing is not modelled. So `RunPreservesValid` and `ReachableStatesAreValid` hold only for callers that do not change the array or its episodes after handing them over.
- React hook semantics are not modelled. This covers `useState`, the recomputation of `hasPrevious` and `hasNext` on each render, and batched or deferred state updates. Each command is one atomic transition on the latest state.
- The index in src/contexts/PlayerContext.tsx is a JavaScript number, which may be fractional. The model uses an integer index. A fractional index would make the lookup `undefined`; that case is not modelled.
- `Episode.duration` is a JavaScript number. It is modelled as a `real`, because the controller never reads it.
- Shuffle, loop, clearing the queue, seeking and syncing with the audio element are not modelled. None of them exist in src/contexts/PlayerContext.tsx. So `hasNext` does not depend on a shuffle flag: it is `index + 1 < length` as the code writes it.
- src/pages/_app.tsx:15-27 repeats `play`, `togglePlay` and `setPlayingState`. That logic is modelled once, from src/contexts/PlayerContext.tsx.
- The player component's markup is not modelled, and neither is its disabling of buttons when no episode is current (src/components/Player/index.tsx:21-76). Only its lookup of the current episode is modelled, as `PlayerModel.Current`.
- The episode fetches in src/pages/index.tsx and src/pages/episodes/[slug].tsx are I/O and are not modelled.
