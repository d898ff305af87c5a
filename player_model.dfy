/** The state of the podcast player's queue controller as a value, and the
    meaning of each of its commands as a function from the state before the
    command to the state after it.  The class in module PlayerContext keeps
    this state in mutable fields; the functions here are its specification. */
module PlayerModel {

  datatype Option<T> = None | Some(value: T)

  /** An episode as the controller receives it.  The controller never looks
      inside one: it stores, orders and returns episodes. */
  datatype Episode = Episode(
    title: string,
    members: string,
    thumbnail: string,
    duration: real,
    url: string)

  /** The three state cells of the player provider.  The index is an `int`
      because the TypeScript provider in src/contexts/PlayerContext.tsx takes
      it from its callers as a plain number that it never checks. */
  datatype PlayerState = PlayerState(
    episodes: seq<Episode>,
    currentEpisodeIndex: int,
    isPlaying: bool)

  /** The index invariant: an empty queue sits at index 0, a non-empty one
      has its index on one of its episodes. */
  predicate ValidPosition(episodes: seq<Episode>, index: int) {
    if |episodes| == 0 then index == 0 else 0 <= index < |episodes|
  }

  predicate Valid(s: PlayerState) {
    ValidPosition(s.episodes, s.currentEpisodeIndex)
  }

  /** The state the provider starts in: no queue, index 0, paused. */
  function Initial(): (r: PlayerState)
    ensures Valid(r) && !r.isPlaying
    ensures Current(r) == None
  {
    PlayerState([], 0, false)
  }

  /** The episode the player shows, `episodes[currentEpisodeIndex]`, which
      is absent when the index is off the queue. */
  function Current(s: PlayerState): (r: Option<Episode>)
    ensures Valid(s) ==> (r.Some? <==> s.episodes != [])
    ensures r.Some? ==> r.value in s.episodes
    ensures r.Some? ==> 0 <= s.currentEpisodeIndex < |s.episodes|
                        && r.value == s.episodes[s.currentEpisodeIndex]
  {
    if 0 <= s.currentEpisodeIndex < |s.episodes|
    then Some(s.episodes[s.currentEpisodeIndex])
    else None
  }

  /** There is an episode before the current one to go back to. */
  predicate HasPrevious(s: PlayerState)
    ensures Valid(s) ==>
              (HasPrevious(s) <==> s.episodes != [] && 0 <= s.currentEpisodeIndex - 1 < |s.episodes|)
  {
    s.currentEpisodeIndex > 0
  }

  /** There is an episode after the current one to advance to. */
  predicate HasNext(s: PlayerState)
    ensures Valid(s) ==>
              (HasNext(s) <==> s.episodes != [] && 0 <= s.currentEpisodeIndex + 1 < |s.episodes|)
  {
    s.currentEpisodeIndex + 1 < |s.episodes|
  }

  /** Play one episode: the queue becomes that episode alone. */
  function Play(s: PlayerState, episode: Episode): (r: PlayerState)
    ensures r.episodes == [episode] && r.currentEpisodeIndex == 0 && r.isPlaying
    ensures Valid(r) && Current(r) == Some(episode)
    ensures !HasPrevious(r) && !HasNext(r)
  {
    PlayerState([episode], 0, true)
  }

  /** Play a whole list from a caller-chosen position, which is stored as
      given: the result is valid exactly when the position is. */
  function PlayList(s: PlayerState, list: seq<Episode>, index: int): (r: PlayerState)
    ensures r.episodes == list && r.currentEpisodeIndex == index && r.isPlaying
    ensures Valid(r) <==> ValidPosition(list, index)
    ensures 0 <= index < |list| ==> Current(r) == Some(list[index])
  {
    PlayerState(list, index, true)
  }

  /** Flip between playing and paused; the queue is untouched. */
  function TogglePlay(s: PlayerState): (r: PlayerState)
    ensures r.isPlaying == !s.isPlaying
    ensures r.episodes == s.episodes && r.currentEpisodeIndex == s.currentEpisodeIndex
    ensures Valid(r) <==> Valid(s)
    ensures Current(r) == Current(s)
  {
    s.(isPlaying := !s.isPlaying)
  }

  /** Record the playing state the audio element reports; the queue is
      untouched. */
  function SetPlayingState(s: PlayerState, state: bool): (r: PlayerState)
    ensures r.isPlaying == state
    ensures r.episodes == s.episodes && r.currentEpisodeIndex == s.currentEpisodeIndex
    ensures Valid(r) <==> Valid(s)
    ensures Current(r) == Current(s)
  {
    s.(isPlaying := state)
  }

  /** Advance one episode when there is a next one, otherwise do nothing:
      the index never wraps round to the start. */
  function PlayNext(s: PlayerState): (r: PlayerState)
    ensures r.episodes == s.episodes && r.isPlaying == s.isPlaying
    ensures HasNext(s) ==> r.currentEpisodeIndex == s.currentEpisodeIndex + 1
    ensures !HasNext(s) ==> r == s
    ensures s.currentEpisodeIndex <= r.currentEpisodeIndex
    ensures Valid(s) ==> Valid(r)
    ensures Valid(s) && HasNext(s) ==>
              Current(r) == Some(s.episodes[s.currentEpisodeIndex + 1])
  {
    var nextEpisodeIndex := s.currentEpisodeIndex + 1;
    if HasNext(s) then s.(currentEpisodeIndex := nextEpisodeIndex) else s
  }

  /** Go back one episode when there is a previous one, otherwise do
      nothing: the index never goes below 0. */
  function PlayPrevious(s: PlayerState): (r: PlayerState)
    ensures r.episodes == s.episodes && r.isPlaying == s.isPlaying
    ensures HasPrevious(s) ==> r.currentEpisodeIndex == s.currentEpisodeIndex - 1
    ensures !HasPrevious(s) ==> r == s
    ensures r.currentEpisodeIndex <= s.currentEpisodeIndex
    ensures s.currentEpisodeIndex >= 0 ==> r.currentEpisodeIndex >= 0
    ensures Valid(s) ==> Valid(r)
    ensures Valid(s) && HasPrevious(s) ==>
              Current(r) == Some(s.episodes[s.currentEpisodeIndex - 1])
  {
    var previousEpisodeIndex := s.currentEpisodeIndex - 1;
    if HasPrevious(s) then s.(currentEpisodeIndex := previousEpisodeIndex) else s
  }

  // ---------------------------------------------------------------------
  // Properties of single commands and of pairs of commands

  /** On a valid state the two guards say exactly whether a neighbouring
      episode exists in the queue. */
  lemma GuardsMeanNeighbourExists(s: PlayerState)
    requires Valid(s)
    ensures HasPrevious(s) <==> 0 <= s.currentEpisodeIndex - 1 < |s.episodes|
    ensures HasNext(s) <==> 0 <= s.currentEpisodeIndex + 1 < |s.episodes|
    ensures s.episodes != [] ==>
              (HasNext(s) <==> s.currentEpisodeIndex < |s.episodes| - 1)
  {
  }

  /** Playing an episode forgets everything about the state before it. */
  lemma PlayForgetsPriorState(s: PlayerState, t: PlayerState, episode: Episode)
    ensures Play(s, episode) == Play(t, episode)
  {
  }

  /** Playing a list from an in-range position yields a valid state whose
      current episode is the one chosen. */
  lemma PlayListInRange(s: PlayerState, list: seq<Episode>, index: int)
    requires 0 <= index < |list|
    ensures Valid(PlayList(s, list, index))
    ensures Current(PlayList(s, list, index)) == Some(list[index])
  {
  }

  lemma TogglePlayTwice(s: PlayerState)
    ensures TogglePlay(TogglePlay(s)) == s
  {
  }

  lemma SetPlayingStateIdempotent(s: PlayerState, state: bool)
    ensures SetPlayingState(SetPlayingState(s, state), state) == SetPlayingState(s, state)
  {
  }

  /** A reported playing state overrides any earlier toggle. */
  lemma SetPlayingStateOverridesToggle(s: PlayerState, state: bool)
    ensures SetPlayingState(TogglePlay(s), state) == SetPlayingState(s, state)
  {
  }

  /** Going back undoes a successful advance. */
  lemma PreviousUndoesNext(s: PlayerState)
    requires Valid(s) && HasNext(s)
    ensures PlayPrevious(PlayNext(s)) == s
  {
  }

  /** Advancing undoes a successful step back. */
  lemma NextUndoesPrevious(s: PlayerState)
    requires Valid(s) && HasPrevious(s)
    ensures PlayNext(PlayPrevious(s)) == s
  {
  }

  // ---------------------------------------------------------------------
  // Repeated navigation

  function NextTimes(s: PlayerState, n: nat): PlayerState
    decreases n
  {
    if n == 0 then s else NextTimes(PlayNext(s), n - 1)
  }

  function PreviousTimes(s: PlayerState, n: nat): PlayerState
    decreases n
  {
    if n == 0 then s else PreviousTimes(PlayPrevious(s), n - 1)
  }

  function Min(a: int, b: int): int { if a <= b then a else b }

  function Max(a: int, b: int): int { if a <= b then b else a }

  /** Advancing n times from a valid state moves n episodes on but stops at
      the last one, and touches nothing but the index. */
  lemma {:induction false} NextTimesStopsAtLast(s: PlayerState, n: nat)
    requires Valid(s)
    ensures NextTimes(s, n).episodes == s.episodes
    ensures NextTimes(s, n).isPlaying == s.isPlaying
    ensures NextTimes(s, n).currentEpisodeIndex ==
              if s.episodes == [] then 0
              else Min(s.currentEpisodeIndex + n, |s.episodes| - 1)
    ensures Valid(NextTimes(s, n))
    decreases n
  {
    if n > 0 {
      NextTimesStopsAtLast(PlayNext(s), n - 1);
    }
  }

  /** Going back n times from a valid state moves n episodes back but stops
      at the first one, and touches nothing but the index. */
  lemma {:induction false} PreviousTimesStopsAtFirst(s: PlayerState, n: nat)
    requires Valid(s)
    ensures PreviousTimes(s, n).episodes == s.episodes
    ensures PreviousTimes(s, n).isPlaying == s.isPlaying
    ensures PreviousTimes(s, n).currentEpisodeIndex == Max(s.currentEpisodeIndex - n, 0)
    ensures Valid(PreviousTimes(s, n))
    decreases n
  {
    if n > 0 {
      PreviousTimesStopsAtFirst(PlayPrevious(s), n - 1);
    }
  }

  /** Once at the last episode, advancing any number of times changes
      nothing. */
  lemma {:induction false} NextAtEndIsFixed(s: PlayerState, n: nat)
    requires !HasNext(s)
    ensures NextTimes(s, n) == s
    decreases n
  {
    if n > 0 {
      NextAtEndIsFixed(PlayNext(s), n - 1);
    }
  }

  // ---------------------------------------------------------------------
  // Runs of commands

  /** One call into the controller. */
  datatype Command =
    | PlayCommand(episode: Episode)
    | PlayListCommand(list: seq<Episode>, index: int)
    | TogglePlayCommand
    | SetPlayingStateCommand(state: bool)
    | PlayNextCommand
    | PlayPreviousCommand

  /** The one obligation the controller leaves to its callers: a list is
      played from a position on that list. */
  predicate CallerKeepsContract(c: Command) {
    c.PlayListCommand? ==> ValidPosition(c.list, c.index)
  }

  function Apply(s: PlayerState, c: Command): (r: PlayerState)
    ensures Valid(s) && CallerKeepsContract(c) ==> Valid(r)
    ensures c.PlayListCommand? && !ValidPosition(c.list, c.index) ==> !Valid(r)
  {
    match c
    case PlayCommand(e) => Play(s, e)
    case PlayListCommand(list, index) => PlayList(s, list, index)
    case TogglePlayCommand => TogglePlay(s)
    case SetPlayingStateCommand(state) => SetPlayingState(s, state)
    case PlayNextCommand => PlayNext(s)
    case PlayPreviousCommand => PlayPrevious(s)
  }

  function Run(s: PlayerState, cs: seq<Command>): PlayerState
    decreases |cs|
  {
    if cs == [] then s else Run(Apply(s, cs[0]), cs[1..])
  }

  /** Every run of commands whose callers keep the play-list contract keeps
      the index invariant. */
  lemma {:induction false} RunPreservesValid(s: PlayerState, cs: seq<Command>)
    requires Valid(s)
    requires forall i :: 0 <= i < |cs| ==> CallerKeepsContract(cs[i])
    ensures Valid(Run(s, cs))
    decreases |cs|
  {
    if cs != [] {
      assert CallerKeepsContract(cs[0]);
      assert forall i :: 0 <= i < |cs[1..]| ==> CallerKeepsContract(cs[1..][i]) by {
        forall i | 0 <= i < |cs[1..]| ensures CallerKeepsContract(cs[1..][i]) {
          assert cs[1..][i] == cs[i + 1];
        }
      }
      RunPreservesValid(Apply(s, cs[0]), cs[1..]);
    }
  }

  /** Every state reachable from the initial one through such a run
      satisfies the index invariant. */
  lemma ReachableStatesAreValid(cs: seq<Command>)
    requires forall i :: 0 <= i < |cs| ==> CallerKeepsContract(cs[i])
    ensures Valid(Run(Initial(), cs))
  {
    RunPreservesValid(Initial(), cs);
  }
}
