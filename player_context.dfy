/** The TypeScript provider in src/contexts/PlayerContext.tsx as a class:
    three state cells that its commands overwrite in place.  Each command is
    one atomic transition on the latest state, specified by the matching
    function of PlayerModel. */
module PlayerContext {
  import opened PlayerModel

  class PlayerContextProvider {
    var episodes: seq<Episode>
    var currentEpisodeIndex: int
    var isPlaying: bool

    /** The value the three cells hold together. */
    function State(): PlayerState
      reads this
    {
      PlayerState(episodes, currentEpisodeIndex, isPlaying)
    }

    predicate Valid()
      reads this
    {
      PlayerModel.Valid(State())
    }

    function HasPrevious(): (r: bool)
      reads this
      ensures r == PlayerModel.HasPrevious(State())
      ensures Valid() ==> (r <==> 0 <= currentEpisodeIndex - 1 < |episodes|)
    {
      PlayerModel.HasPrevious(State())
    }

    function HasNext(): (r: bool)
      reads this
      ensures r == PlayerModel.HasNext(State())
      ensures Valid() ==> (r <==> 0 <= currentEpisodeIndex + 1 < |episodes|)
    {
      PlayerModel.HasNext(State())
    }

    function CurrentEpisode(): (r: Option<Episode>)
      reads this
      ensures r == Current(State())
      ensures r.Some? <==> 0 <= currentEpisodeIndex < |episodes|
      ensures r.Some? ==> r.value == episodes[currentEpisodeIndex]
    {
      Current(State())
    }

    constructor ()
      ensures State() == Initial()
      ensures episodes == [] && currentEpisodeIndex == 0 && !isPlaying
      ensures Valid() && CurrentEpisode() == None
    {
      episodes := [];
      currentEpisodeIndex := 0;
      isPlaying := false;
    }

    method Play(episode: Episode)
      modifies this
      ensures State() == PlayerModel.Play(old(State()), episode)
      ensures episodes == [episode] && currentEpisodeIndex == 0 && isPlaying
      ensures Valid() && CurrentEpisode() == Some(episode)
    {
      episodes := [episode];
      currentEpisodeIndex := 0;
      isPlaying := true;
    }

    /** The index is stored unchecked; the state is valid afterwards
        exactly when the caller chose a position on the list. */
    method PlayList(list: seq<Episode>, index: int)
      modifies this
      ensures State() == PlayerModel.PlayList(old(State()), list, index)
      ensures episodes == list && currentEpisodeIndex == index && isPlaying
      ensures Valid() <==> ValidPosition(list, index)
    {
      episodes := list;
      currentEpisodeIndex := index;
      isPlaying := true;
    }

    method TogglePlay()
      modifies this
      ensures State() == PlayerModel.TogglePlay(old(State()))
      ensures isPlaying == !old(isPlaying)
      ensures episodes == old(episodes) && currentEpisodeIndex == old(currentEpisodeIndex)
      ensures Valid() <==> old(Valid())
    {
      isPlaying := !isPlaying;
    }

    method SetPlayingState(state: bool)
      modifies this
      ensures State() == PlayerModel.SetPlayingState(old(State()), state)
      ensures isPlaying == state
      ensures episodes == old(episodes) && currentEpisodeIndex == old(currentEpisodeIndex)
      ensures Valid() <==> old(Valid())
    {
      isPlaying := state;
    }

    method PlayNext()
      modifies this
      ensures State() == PlayerModel.PlayNext(old(State()))
      ensures episodes == old(episodes) && isPlaying == old(isPlaying)
      ensures currentEpisodeIndex ==
                if old(HasNext()) then old(currentEpisodeIndex) + 1 else old(currentEpisodeIndex)
      ensures old(Valid()) ==> Valid()
    {
      var nextEpisodeIndex := currentEpisodeIndex + 1;
      if HasNext() {
        currentEpisodeIndex := nextEpisodeIndex;
      }
    }

    method PlayPrevious()
      modifies this
      ensures State() == PlayerModel.PlayPrevious(old(State()))
      ensures episodes == old(episodes) && isPlaying == old(isPlaying)
      ensures currentEpisodeIndex ==
                if old(HasPrevious()) then old(currentEpisodeIndex) - 1 else old(currentEpisodeIndex)
      ensures old(Valid()) ==> Valid()
    {
      var previousEpisodeIndex := currentEpisodeIndex - 1;
      if HasPrevious() {
        currentEpisodeIndex := previousEpisodeIndex;
      }
    }
  }

  /** A listener plays [a, b, c] from the start and presses "next" three
      times: the index goes 1, 2 and then stays at 2. */
  method AdvanceThroughQueue(a: Episode, b: Episode, c: Episode)
    returns (indices: seq<int>, shown: seq<Option<Episode>>)
    ensures indices == [1, 2, 2]
    ensures shown == [Some(b), Some(c), Some(c)]
  {
    var player := new PlayerContextProvider();
    player.PlayList([a, b, c], 0);
    indices, shown := [], [];
    player.PlayNext();
    indices, shown := indices + [player.currentEpisodeIndex], shown + [player.CurrentEpisode()];
    player.PlayNext();
    indices, shown := indices + [player.currentEpisodeIndex], shown + [player.CurrentEpisode()];
    player.PlayNext();
    indices, shown := indices + [player.currentEpisodeIndex], shown + [player.CurrentEpisode()];
  }

  /** The same queue played from its last episode, with "previous" pressed
      three times: the index goes 1, 0 and then stays at 0. */
  method RetreatThroughQueue(a: Episode, b: Episode, c: Episode)
    returns (indices: seq<int>, shown: seq<Option<Episode>>)
    ensures indices == [1, 0, 0]
    ensures shown == [Some(b), Some(a), Some(a)]
  {
    var player := new PlayerContextProvider();
    player.PlayList([a, b, c], 2);
    indices, shown := [], [];
    player.PlayPrevious();
    indices, shown := indices + [player.currentEpisodeIndex], shown + [player.CurrentEpisode()];
    player.PlayPrevious();
    indices, shown := indices + [player.currentEpisodeIndex], shown + [player.CurrentEpisode()];
    player.PlayPrevious();
    indices, shown := indices + [player.currentEpisodeIndex], shown + [player.CurrentEpisode()];
  }

  /** An external pause reported while playing stops playback and leaves
      the queue where it was. */
  method ExternalPause(list: seq<Episode>, index: int)
    returns (wasPlaying: bool, playing: bool, queue: seq<Episode>, position: int)
    ensures wasPlaying && !playing
    ensures queue == list && position == index
  {
    var player := new PlayerContextProvider();
    player.PlayList(list, index);
    wasPlaying := player.isPlaying;
    player.SetPlayingState(false);
    playing, queue, position := player.isPlaying, player.episodes, player.currentEpisodeIndex;
  }
}
