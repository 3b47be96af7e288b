/**
 * The audio player coordinator as a state machine on values.
 *
 * The coordinator sits between the current track of the play list and an abstract
 * media player: it derives the player source from the current row, turns user
 * intents (play/pause, a new current track, the end of the play list) and the
 * player's status reports into outbound commands, and writes an isPlaying flag onto
 * the row being played. Outbound commands go through a queue that the next turn of
 * the event loop delivers; every other signal is emitted at once. The class in
 * player_object.dfy is proved against these functions.
 */
module PlayerModel {
  import opened Common

  datatype PlayerStatus = NoMedia | Loading | Loaded | Buffering | EndOfMedia | InvalidMedia

  datatype PlaybackState = StoppedState | PlayingState | PausedState

  /** The media player's error report; only NoError is told apart. */
  datatype PlayerError = NoError | Failure(code: nat)

  /** One row of the play list as the coordinator sees it: the url role's data and
      the isPlaying role's data. */
  datatype Row = Row(url: Option<Url>, isPlaying: bool)

  datatype Signal =
    | CurrentTrackChanged
    | PlayListModelChanged
    | PlayerSourceChanged
    | UrlRoleChanged
    | IsPlayingRoleChanged
    | PlayerStatusChanged
    | PlayerPlaybackStateChanged
    | PlayerErrorChanged
    | PersistentStateChanged
    | PlayerPlay
    | PlayerPause
    | PlayerStop
    | SkipNextTrack
    | Seek(position: int)
  {
    /** The outbound commands delivered by the event loop rather than at once. */
    predicate IsQueued() {
      PlayerPlay? || PlayerPause? || PlayerStop? || SkipNextTrack?
    }
  }

  /** The persisted state of the coordinator; a key may be absent. */
  datatype PlayerSettings = PlayerSettings(isPlaying: Option<bool>, playerPosition: Option<int>)

  /**
   * rows            the play list's rows (the coordinator writes their isPlaying flag)
   * bound           a play list model has been set
   * urlRole         the url role has been configured
   * isPlayingRole   the isPlaying role has been configured
   * current         the current track (None: none, or an invalid index)
   * loaded          the row whose media the player holds: the current track, except
   *                 while a stop requested by a track change is not yet confirmed
   * source          the player source
   * playRequested   the user wants playback: play is issued once buffering
   * pendingPosition a restored position to seek to once playback starts
   * queue           outbound commands waiting for the next turn of the event loop
   */
  datatype State = State(
    rows: seq<Row>,
    bound: bool,
    urlRole: bool,
    isPlayingRole: bool,
    current: Option<nat>,
    loaded: Option<nat>,
    status: PlayerStatus,
    playback: PlaybackState,
    error: PlayerError,
    source: Option<Url>,
    playRequested: bool,
    pendingPosition: Option<int>,
    queue: seq<Signal>)

  /** The result of one operation: the new state and the signals emitted at once, in order. */
  datatype Step = Step(state: State, signals: seq<Signal>)

  predicate InRange(i: Option<nat>, n: nat) {
    i.None? || i.value < n
  }

  /** The url the player source should have: the loaded row's url data, once the
      model is set and the url role configured. */
  function LoadedUrl(s: State): Option<Url>
    requires InRange(s.loaded, |s.rows|)
  {
    if s.bound && s.urlRole && s.loaded.Some? then s.rows[s.loaded.value].url else None
  }

  /** Every part of the invariant except the source: indices name rows, the loaded
      row catches up with the current track whenever the player is stopped, only the
      loaded row can carry the isPlaying flag and only while playing, and the queue
      holds only outbound commands. */
  predicate Consistent(s: State) {
    && InRange(s.current, |s.rows|)
    && InRange(s.loaded, |s.rows|)
    && (s.playback == StoppedState ==> s.loaded == s.current)
    && (forall i :: 0 <= i < |s.rows| && s.rows[i].isPlaying ==>
          s.loaded.Some? && s.loaded.value == i && s.playback == PlayingState && s.isPlayingRole && s.bound)
    && (forall x :: x in s.queue ==> x.IsQueued())
  }

  /** The state invariant: consistent, and the source is the loaded row's url. */
  predicate Valid(s: State) {
    Consistent(s) && s.source == LoadedUrl(s)
  }

  /** A freshly constructed coordinator over a play list with these urls. */
  function Initial(urls: seq<Option<Url>>): (s: State)
    ensures Valid(s)
    ensures |s.rows| == |urls| && forall i :: 0 <= i < |urls| ==> s.rows[i] == Row(urls[i], false)
  {
    State(seq(|urls|, i requires 0 <= i < |urls| => Row(urls[i], false)),
          false, false, false, None, None, NoMedia, StoppedState, NoError, None, false, None, [])
  }

  /** Brings the player source up to date, signalling only a real change. */
  function Notify(s: State): (r: Step)
    requires Consistent(s)
    ensures Valid(r.state) && r.state == s.(source := LoadedUrl(s))
    ensures r.signals == if s.source == LoadedUrl(s) then [] else [PlayerSourceChanged]
  {
    var u := LoadedUrl(s);
    if s.source == u then Step(s, []) else Step(s.(source := u), [PlayerSourceChanged])
  }

  /** Writes the isPlaying flag of the loaded row, when the role is configured. */
  function WriteFlag(s: State, value: bool): (t: State)
    requires InRange(s.loaded, |s.rows|)
    ensures t == s.(rows := t.rows) && |t.rows| == |s.rows|
    ensures forall i :: 0 <= i < |s.rows| && !(s.loaded.Some? && s.loaded.value == i) ==> t.rows[i] == s.rows[i]
    ensures s.isPlayingRole && s.bound && s.loaded.Some? ==>
              t.rows[s.loaded.value] == s.rows[s.loaded.value].(isPlaying := value)
    ensures !(s.isPlayingRole && s.bound && s.loaded.Some?) ==> t == s
  {
    if s.isPlayingRole && s.bound && s.loaded.Some? then
      var l := s.loaded.value;
      s.(rows := s.rows[l := s.rows[l].(isPlaying := value)])
    else
      s
  }

  /** playerSourceChanged, when the source differs between two states. */
  function SourceSignal(s: State, t: State): seq<Signal> {
    if s.source == t.source then [] else [PlayerSourceChanged]
  }

  /** No row carries the isPlaying flag. */
  predicate NoFlag(rows: seq<Row>) {
    forall i :: 0 <= i < |rows| ==> !rows[i].isPlaying
  }

  /** While stopped no row is flagged, so the loaded row may move to any row. */
  lemma StoppedMayLoad(s: State, k: Option<nat>)
    requires Valid(s) && s.playback == StoppedState && InRange(k, |s.rows|)
    ensures Consistent(s.(current := k, loaded := k))
  {
  }

  /** Stopping clears the flag, after which the loaded row may catch up. */
  lemma StopKeepsConsistent(s: State)
    requires Valid(s) && s.playback != StoppedState
    ensures Consistent(WriteFlag(s.(playback := StoppedState), false).(loaded := s.current))
  {
  }

  /** Playing may flag the loaded row. */
  lemma PlayKeepsValid(s: State)
    requires Valid(s) && s.playback != PlayingState
    ensures Valid(WriteFlag(s.(playback := PlayingState), true))
  {
  }

  // ---------------------------------------------------------------------------
  // Setters of the model, the roles and the current track

  function SetPlayListModel(s: State): (r: Step)
    requires Valid(s)
    ensures Valid(r.state) && r.state.bound
    ensures s.bound ==> r == Step(s, [])
    ensures !s.bound ==> r.state == s.(bound := true, source := r.state.source)
    ensures !s.bound ==> r.signals == [PlayListModelChanged] + SourceSignal(s, r.state)
  {
    if s.bound then Step(s, [])
    else
      var n := Notify(s.(bound := true));
      Step(n.state, [PlayListModelChanged] + n.signals)
  }

  /** The row a model index designates: an index outside the play list is no track. */
  function TrackIndex(s: State, track: Option<int>): (k: Option<nat>)
    ensures InRange(k, |s.rows|)
    ensures k.Some? <==> track.Some? && 0 <= track.value < |s.rows|
    ensures k.Some? ==> k.value == track.value
  {
    if track.Some? && 0 <= track.value < |s.rows| then Some(track.value as nat) else None
  }

  /** Changes the current track. While the player is stopped the source follows at
      once; otherwise the old media stays loaded and a stop is requested, and the
      source follows when the stop is confirmed. */
  function SetCurrentTrack(s: State, track: Option<int>): (r: Step)
    requires Valid(s)
    ensures Valid(r.state)
    ensures r.state.current == TrackIndex(s, track) && r.state.rows == s.rows
    ensures TrackIndex(s, track) == s.current ==> r == Step(s, [])
    ensures TrackIndex(s, track) != s.current && s.playback == StoppedState ==>
              && r.state == s.(current := r.state.current, loaded := r.state.current, source := r.state.source)
              && r.signals == [CurrentTrackChanged] + SourceSignal(s, r.state)
    ensures TrackIndex(s, track) != s.current && s.playback != StoppedState ==>
              && r.state == s.(current := r.state.current, queue := s.queue + [PlayerStop])
              && r.signals == [CurrentTrackChanged]
    ensures PlayerSourceChanged in r.signals <==> r.state.source != s.source
    ensures !s.urlRole ==> PlayerSourceChanged !in r.signals
  {
    var k := TrackIndex(s, track);
    if k == s.current then Step(s, [])
    else if s.playback == StoppedState then
      StoppedMayLoad(s, k);
      var n := Notify(s.(current := k, loaded := k));
      Step(n.state, [CurrentTrackChanged] + n.signals)
    else
      Step(s.(current := k, queue := s.queue + [PlayerStop]), [CurrentTrackChanged])
  }

  function SetUrlRole(s: State): (r: Step)
    requires Valid(s)
    ensures Valid(r.state) && r.state.urlRole
    ensures s.urlRole ==> r == Step(s, [])
    ensures s.bound && s.loaded.Some? ==> r.state.source == s.rows[s.loaded.value].url
    ensures !s.urlRole ==> r.state == s.(urlRole := true, source := r.state.source)
    ensures !s.urlRole ==> r.signals == [UrlRoleChanged] + SourceSignal(s, r.state)
    ensures PlayerSourceChanged in r.signals <==> r.state.source != s.source
  {
    if s.urlRole then Step(s, [])
    else
      var n := Notify(s.(urlRole := true));
      Step(n.state, [UrlRoleChanged] + n.signals)
  }

  function SetIsPlayingRole(s: State): (r: Step)
    requires Valid(s)
    ensures Valid(r.state) && r.state == s.(isPlayingRole := true)
    ensures r.signals == if s.isPlayingRole then [] else [IsPlayingRoleChanged]
  {
    if s.isPlayingRole then Step(s, []) else Step(s.(isPlayingRole := true), [IsPlayingRoleChanged])
  }

  /** The url data of a row changed in the play list; only the loaded row's url can
      move the source. */
  function RowUrlChanged(s: State, row: int, url: Option<Url>): (r: Step)
    requires Valid(s)
    ensures Valid(r.state)
    ensures !(0 <= row < |s.rows|) ==> r == Step(s, [])
    ensures 0 <= row < |s.rows| ==> r.state.rows == s.rows[row := s.rows[row].(url := url)]
    ensures 0 <= row < |s.rows| && s.bound && s.urlRole && s.loaded == Some(row as nat) ==> r.state.source == url
    ensures !(s.loaded.Some? && s.loaded.value == row) ==> r.state.source == s.source && r.signals == []
    ensures PlayerSourceChanged in r.signals <==> r.state.source != s.source
    ensures r.state == s.(rows := r.state.rows, source := r.state.source)
  {
    if 0 <= row < |s.rows| then
      Notify(s.(rows := s.rows[row := s.rows[row].(url := url)]))
    else
      Step(s, [])
  }

  // ---------------------------------------------------------------------------
  // Reports of the media player

  /** The player's media status changed. Reaching Buffering issues play when the
      user wants playback; reaching InvalidMedia asks the play list to skip the
      track, without issuing play. Any other status issues nothing. */
  function SetPlayerStatus(s: State, status: PlayerStatus): (r: Step)
    requires Valid(s)
    ensures Valid(r.state)
    ensures status == s.status ==> r == Step(s, [])
    ensures status != s.status ==> r.signals == [PlayerStatusChanged]
    ensures r.state == s.(status := status, queue := r.state.queue)
    ensures status != s.status && status == Buffering && s.playRequested ==> r.state.queue == s.queue + [PlayerPlay]
    ensures status != s.status && status == InvalidMedia ==> r.state.queue == s.queue + [SkipNextTrack]
    ensures !(status == Buffering && s.playRequested) && status != InvalidMedia ==> r.state.queue == s.queue
  {
    if status == s.status then Step(s, [])
    else
      var q := if status == Buffering && s.playRequested then [PlayerPlay]
               else if status == InvalidMedia then [SkipNextTrack]
               else [];
      Step(s.(status := status, queue := s.queue + q), [PlayerStatusChanged])
  }

  /** The player confirmed Stopped: the loaded row's flag is cleared and the loaded
      row catches up with the current track, which may move the source. */
  function ConfirmStopped(s: State): (r: Step)
    requires Valid(s) && s.playback != StoppedState
    ensures Valid(r.state) && NoFlag(r.state.rows) && |r.state.rows| == |s.rows|
    ensures r.state == s.(rows := r.state.rows, playback := StoppedState, loaded := s.current, source := r.state.source)
    ensures r.signals == [PlayerPlaybackStateChanged] + SourceSignal(s, r.state)
    ensures forall i :: 0 <= i < |s.rows| ==> r.state.rows[i].url == s.rows[i].url
  {
    var t := WriteFlag(s.(playback := StoppedState), false);
    StopKeepsConsistent(s);
    var n := Notify(t.(loaded := t.current));
    Step(n.state, [PlayerPlaybackStateChanged] + n.signals)
  }

  /** The player confirmed Paused: the loaded row's flag is cleared. */
  function ConfirmPaused(s: State): (r: Step)
    requires Valid(s) && s.playback != PausedState
    ensures Valid(r.state) && NoFlag(r.state.rows) && |r.state.rows| == |s.rows|
    ensures r.state == s.(rows := r.state.rows, playback := PausedState)
    ensures r.signals == [PlayerPlaybackStateChanged]
    ensures forall i :: 0 <= i < |s.rows| ==> r.state.rows[i].url == s.rows[i].url
  {
    Step(WriteFlag(s.(playback := PausedState), false), [PlayerPlaybackStateChanged])
  }

  /** The player confirmed Playing: the loaded row is flagged, and a restored
      position, if any, is sought once. */
  function ConfirmPlaying(s: State): (r: Step)
    requires Valid(s) && s.playback != PlayingState
    ensures Valid(r.state) && |r.state.rows| == |s.rows|
    ensures r.state == s.(rows := r.state.rows, playback := PlayingState, pendingPosition := None)
    ensures s.isPlayingRole && s.bound && s.loaded.Some? ==> r.state.rows[s.loaded.value].isPlaying
    ensures forall i :: 0 <= i < |s.rows| && r.state.rows[i].isPlaying ==> s.loaded == Some(i as nat)
    ensures r.signals == [PlayerPlaybackStateChanged] + (if s.pendingPosition.Some? then [Seek(s.pendingPosition.value)] else [])
    ensures forall i :: 0 <= i < |s.rows| ==> r.state.rows[i].url == s.rows[i].url
  {
    var t := WriteFlag(s.(playback := PlayingState), true);
    PlayKeepsValid(s);
    if t.pendingPosition.Some? then
      Step(t.(pendingPosition := None), [PlayerPlaybackStateChanged, Seek(t.pendingPosition.value)])
    else
      Step(t, [PlayerPlaybackStateChanged])
  }

  /** The player reported a playback state; only a change has an effect. */
  function SetPlaybackState(s: State, playback: PlaybackState): (r: Step)
    requires Valid(s)
    ensures Valid(r.state) && r.state.playback == playback && |r.state.rows| == |s.rows|
    ensures playback == s.playback ==> r == Step(s, [])
    ensures r.state.queue == s.queue && r.state.playRequested == s.playRequested
    ensures playback != PlayingState ==> r.state.pendingPosition == s.pendingPosition
    ensures forall x :: x in r.signals ==> !x.IsQueued()
    ensures PlayerSourceChanged in r.signals <==> r.state.source != s.source
  {
    if playback == s.playback then Step(s, [])
    else
      match playback
      case StoppedState => ConfirmStopped(s)
      case PausedState => ConfirmPaused(s)
      case PlayingState => ConfirmPlaying(s)
  }

  function SetPlayerError(s: State, error: PlayerError): (r: Step)
    requires Valid(s)
    ensures Valid(r.state) && r.state == s.(error := error)
    ensures r.signals == if error == s.error then [] else [PlayerErrorChanged]
  {
    if error == s.error then Step(s, []) else Step(s.(error := error), [PlayerErrorChanged])
  }

  // ---------------------------------------------------------------------------
  // User intents and persistence

  /** Toggles playback: pause when playing, play otherwise. The command is queued. */
  function PlayPause(s: State): (r: Step)
    requires Valid(s)
    ensures Valid(r.state) && r.signals == []
    ensures r.state == s.(playRequested := r.state.playRequested, queue := r.state.queue)
    ensures s.playback == PlayingState ==> !r.state.playRequested && r.state.queue == s.queue + [PlayerPause]
    ensures s.playback != PlayingState ==> r.state.playRequested && r.state.queue == s.queue + [PlayerPlay]
  {
    if s.playback == PlayingState then
      Step(s.(playRequested := false, queue := s.queue + [PlayerPause]), [])
    else
      Step(s.(playRequested := true, queue := s.queue + [PlayerPlay]), [])
  }

  /** The play list is finished: the next track is not to be played by itself. */
  function PlayListFinished(s: State): (r: Step)
    requires Valid(s)
    ensures Valid(r.state) && r == Step(s.(playRequested := false), [])
  {
    Step(s.(playRequested := false), [])
  }

  /** Restores the play intent and a position to seek to once playback starts. It
      issues no command. */
  function SetPersistentState(s: State, settings: PlayerSettings): (r: Step)
    requires Valid(s)
    ensures Valid(r.state) && r.signals == [PersistentStateChanged]
    ensures r.state == s.(playRequested := settings.isPlaying.GetOr(s.playRequested),
                          pendingPosition := if settings.playerPosition.Some? then settings.playerPosition else s.pendingPosition)
  {
    Step(s.(playRequested := settings.isPlaying.GetOr(s.playRequested),
            pendingPosition := if settings.playerPosition.Some? then settings.playerPosition else s.pendingPosition),
         [PersistentStateChanged])
  }

  /** One turn of the event loop: every queued command is delivered, in order. */
  function DrainQueue(s: State): (r: Step)
    requires Valid(s)
    ensures Valid(r.state) && r.state == s.(queue := []) && r.signals == s.queue
    ensures forall x :: x in r.signals ==> x.IsQueued()
  {
    Step(s.(queue := []), s.queue)
  }
}
