/**
 * The audio player coordinator as an object: its fields change in place, the
 * play list's isPlaying flags are written into `rows` in place, signals emitted at
 * once are appended to `log`, and outbound commands wait in `queue` until Drain.
 * Each method is proved to move the fields exactly as the matching function of
 * PlayerModel moves the state, and to emit exactly that function's signals.
 */
module PlayerObject {
  import opened Common
  import opened PlayerModel

  class ManageAudioPlayer {
    var rows: seq<Row>
    var bound: bool
    var urlRole: bool
    var isPlayingRole: bool
    var current: Option<nat>
    var loaded: Option<nat>
    var status: PlayerStatus
    var playback: PlaybackState
    var error: PlayerError
    var source: Option<Url>
    var playRequested: bool
    var pendingPosition: Option<int>
    var queue: seq<Signal>
    /** Every signal delivered so far, in order. */
    var log: seq<Signal>

    /** The fields as a value of the state machine. */
    function Model(): State
      reads this
    {
      State(rows, bound, urlRole, isPlayingRole, current, loaded, status, playback, error,
            source, playRequested, pendingPosition, queue)
    }

    predicate Valid()
      reads this
    {
      PlayerModel.Valid(Model())
    }

    constructor (urls: seq<Option<Url>>)
      ensures Valid() && Model() == Initial(urls) && log == []
    {
      rows := seq(|urls|, i requires 0 <= i < |urls| => Row(urls[i], false));
      bound := false;
      urlRole := false;
      isPlayingRole := false;
      current := None;
      loaded := None;
      status := NoMedia;
      playback := StoppedState;
      error := NoError;
      source := None;
      playRequested := false;
      pendingPosition := None;
      queue := [];
      log := [];
    }

    /** Brings the player source up to date. */
    method NotifySource()
      requires Consistent(Model())
      modifies this
      ensures Valid()
      ensures Model() == Notify(old(Model())).state
      ensures log == old(log) + Notify(old(Model())).signals
    {
      var url := None;
      if bound && urlRole && loaded.Some? {
        url := rows[loaded.value].url;
      }
      if source != url {
        source := url;
        log := log + [PlayerSourceChanged];
      }
    }

    /** Writes the isPlaying flag of the loaded row. */
    method WriteLoadedFlag(value: bool)
      requires InRange(loaded, |rows|)
      modifies this
      ensures Model() == WriteFlag(old(Model()), value) && log == old(log)
    {
      if isPlayingRole && bound && loaded.Some? {
        var l := loaded.value;
        rows := rows[l := rows[l].(isPlaying := value)];
      }
    }

    method SetPlayListModel()
      requires Valid()
      modifies this
      ensures Valid()
      ensures Model() == PlayerModel.SetPlayListModel(old(Model())).state
      ensures log == old(log) + PlayerModel.SetPlayListModel(old(Model())).signals
    {
      if !bound {
        bound := true;
        log := log + [PlayListModelChanged];
        NotifySource();
      }
    }

    /** While stopped, the loaded row follows a new current track at once. */
    method LoadTrack(track: Option<int>, k: Option<nat>)
      requires Valid() && playback == StoppedState
      requires k == TrackIndex(Model(), track) && k != current
      modifies this
      ensures Valid()
      ensures var r := PlayerModel.SetCurrentTrack(old(Model()), track);
                Model() == r.state && log == old(log) + r.signals
    {
      ghost var s := Model();
      StoppedMayLoad(s, k);
      ghost var n := Notify(s.(current := k, loaded := k));
      current := k;
      loaded := k;
      log := log + [CurrentTrackChanged];
      NotifySource();
      AppendAssoc(old(log), [CurrentTrackChanged], n.signals);
    }

    method SetCurrentTrack(track: Option<int>)
      requires Valid()
      modifies this
      ensures Valid()
      ensures var r := PlayerModel.SetCurrentTrack(old(Model()), track);
                Model() == r.state && log == old(log) + r.signals
    {
      var k := None;
      if track.Some? && 0 <= track.value < |rows| {
        k := Some(track.value as nat);
      }
      assert k == TrackIndex(Model(), track);
      if k != current {
        if playback == StoppedState {
          LoadTrack(track, k);
        } else {
          current := k;
          queue := queue + [PlayerStop];
          log := log + [CurrentTrackChanged];
        }
      }
    }

    method SetUrlRole()
      requires Valid()
      modifies this
      ensures Valid()
      ensures Model() == PlayerModel.SetUrlRole(old(Model())).state
      ensures log == old(log) + PlayerModel.SetUrlRole(old(Model())).signals
    {
      if !urlRole {
        urlRole := true;
        log := log + [UrlRoleChanged];
        NotifySource();
      }
    }

    method SetIsPlayingRole()
      requires Valid()
      modifies this
      ensures Valid()
      ensures Model() == PlayerModel.SetIsPlayingRole(old(Model())).state
      ensures log == old(log) + PlayerModel.SetIsPlayingRole(old(Model())).signals
    {
      if !isPlayingRole {
        isPlayingRole := true;
        log := log + [IsPlayingRoleChanged];
      }
    }

    method RowUrlChanged(row: int, url: Option<Url>)
      requires Valid()
      modifies this
      ensures Valid()
      ensures Model() == PlayerModel.RowUrlChanged(old(Model()), row, url).state
      ensures log == old(log) + PlayerModel.RowUrlChanged(old(Model()), row, url).signals
    {
      if 0 <= row < |rows| {
        rows := rows[row := rows[row].(url := url)];
        NotifySource();
      }
    }

    method SetPlayerStatus(newStatus: PlayerStatus)
      requires Valid()
      modifies this
      ensures Valid()
      ensures Model() == PlayerModel.SetPlayerStatus(old(Model()), newStatus).state
      ensures log == old(log) + PlayerModel.SetPlayerStatus(old(Model()), newStatus).signals
    {
      if newStatus != status {
        status := newStatus;
        log := log + [PlayerStatusChanged];
        if newStatus == Buffering && playRequested {
          queue := queue + [PlayerPlay];
        } else if newStatus == InvalidMedia {
          queue := queue + [SkipNextTrack];
        }
      }
    }

    method ConfirmStopped()
      requires Valid() && playback != StoppedState
      modifies this
      ensures Valid()
      ensures Model() == PlayerModel.ConfirmStopped(old(Model())).state
      ensures log == old(log) + PlayerModel.ConfirmStopped(old(Model())).signals
    {
      ghost var s := Model();
      StopKeepsConsistent(s);
      playback := StoppedState;
      log := log + [PlayerPlaybackStateChanged];
      WriteLoadedFlag(false);
      loaded := current;
      assert Model() == WriteFlag(s.(playback := StoppedState), false).(loaded := s.current);
      NotifySource();
    }

    method ConfirmPaused()
      requires Valid() && playback != PausedState
      modifies this
      ensures Valid()
      ensures Model() == PlayerModel.ConfirmPaused(old(Model())).state
      ensures log == old(log) + PlayerModel.ConfirmPaused(old(Model())).signals
    {
      playback := PausedState;
      log := log + [PlayerPlaybackStateChanged];
      WriteLoadedFlag(false);
    }

    method ConfirmPlaying()
      requires Valid() && playback != PlayingState
      modifies this
      ensures Valid()
      ensures Model() == PlayerModel.ConfirmPlaying(old(Model())).state
      ensures log == old(log) + PlayerModel.ConfirmPlaying(old(Model())).signals
    {
      ghost var s := Model();
      PlayKeepsValid(s);
      playback := PlayingState;
      log := log + [PlayerPlaybackStateChanged];
      WriteLoadedFlag(true);
      assert Model() == WriteFlag(s.(playback := PlayingState), true);
      if pendingPosition.Some? {
        log := log + [Seek(pendingPosition.value)];
        pendingPosition := None;
      }
      assert Model() == PlayerModel.ConfirmPlaying(s).state;
    }

    method SetPlaybackState(newState: PlaybackState)
      requires Valid()
      modifies this
      ensures Valid()
      ensures Model() == PlayerModel.SetPlaybackState(old(Model()), newState).state
      ensures log == old(log) + PlayerModel.SetPlaybackState(old(Model()), newState).signals
    {
      if newState != playback {
        match newState
        case StoppedState => ConfirmStopped();
        case PausedState => ConfirmPaused();
        case PlayingState => ConfirmPlaying();
      }
    }

    method SetPlayerError(newError: PlayerError)
      requires Valid()
      modifies this
      ensures Valid()
      ensures Model() == PlayerModel.SetPlayerError(old(Model()), newError).state
      ensures log == old(log) + PlayerModel.SetPlayerError(old(Model()), newError).signals
    {
      if newError != error {
        error := newError;
        log := log + [PlayerErrorChanged];
      }
    }

    method PlayPause()
      requires Valid()
      modifies this
      ensures Valid()
      ensures Model() == PlayerModel.PlayPause(old(Model())).state
      ensures log == old(log) + PlayerModel.PlayPause(old(Model())).signals
    {
      if playback == PlayingState {
        playRequested := false;
        queue := queue + [PlayerPause];
      } else {
        playRequested := true;
        queue := queue + [PlayerPlay];
      }
    }

    method PlayListFinished()
      requires Valid()
      modifies this
      ensures Valid()
      ensures Model() == PlayerModel.PlayListFinished(old(Model())).state
      ensures log == old(log) + PlayerModel.PlayListFinished(old(Model())).signals
    {
      playRequested := false;
    }

    method SetPersistentState(settings: PlayerSettings)
      requires Valid()
      modifies this
      ensures Valid()
      ensures Model() == PlayerModel.SetPersistentState(old(Model()), settings).state
      ensures log == old(log) + PlayerModel.SetPersistentState(old(Model()), settings).signals
    {
      if settings.isPlaying.Some? {
        playRequested := settings.isPlaying.value;
      }
      if settings.playerPosition.Some? {
        pendingPosition := settings.playerPosition;
      }
      log := log + [PersistentStateChanged];
    }

    /** One turn of the event loop: delivers the queued commands one by one. */
    method Drain()
      requires Valid()
      modifies this
      ensures Valid()
      ensures Model() == DrainQueue(old(Model())).state
      ensures log == old(log) + DrainQueue(old(Model())).signals
    {
      while queue != []
        invariant Valid()
        invariant Model() == old(Model()).(queue := queue)
        invariant log + queue == old(log) + old(queue)
        decreases |queue|
      {
        var command := queue[0];
        log := log + [command];
        queue := queue[1..];
        assert log + queue == old(log) + old(queue) by {
          assert (log[..|log| - 1] + [command]) + queue == log[..|log| - 1] + ([command] + queue);
        }
      }
    }
  }
}
