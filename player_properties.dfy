/**
 * Properties of the audio player coordinator over whole runs: what its caller and
 * the media player tell it arrives as a sequence of events, each applied by the
 * matching function of PlayerModel, and a turn of the event loop delivers the
 * queued commands.
 */
module PlayerProperties {
  import opened Common
  import opened PlayerModel

  /** Everything that can happen to the coordinator. */
  datatype Event =
    | PlayListModelSet
    | CurrentTrackSet(track: Option<int>)
    | UrlRoleSet
    | IsPlayingRoleSet
    | RowUrlSet(row: int, url: Option<Url>)
    | StatusReported(status: PlayerStatus)
    | PlaybackReported(playback: PlaybackState)
    | ErrorReported(error: PlayerError)
    | PlayPauseRequested
    | PlayListEnded
    | StateRestored(settings: PlayerSettings)
    | EventLoopTurn

  /** The events that come from the media player rather than from the coordinator's
      caller. */
  predicate FromPlayer(e: Event) {
    e.StatusReported? || e.PlaybackReported? || e.ErrorReported?
  }

  /** A report of the media player. */
  function ApplyReport(s: State, e: Event): (r: Step)
    requires Valid(s) && FromPlayer(e)
    ensures Valid(r.state) && |r.state.rows| == |s.rows|
    ensures (forall x :: x in r.signals ==> !x.IsQueued()) && s.queue <= r.state.queue
    ensures PlayerSourceChanged in r.signals <==> r.state.source != s.source
  {
    match e
    case StatusReported(status) => SetPlayerStatus(s, status)
    case PlaybackReported(playback) => SetPlaybackState(s, playback)
    case ErrorReported(error) => SetPlayerError(s, error)
  }

  /** A request of the coordinator's caller. */
  function ApplyRequest(s: State, e: Event): (r: Step)
    requires Valid(s) && !FromPlayer(e) && !e.EventLoopTurn?
    ensures Valid(r.state) && |r.state.rows| == |s.rows|
    ensures (forall x :: x in r.signals ==> !x.IsQueued()) && s.queue <= r.state.queue
    ensures PlayerSourceChanged in r.signals <==> r.state.source != s.source
  {
    match e
    case PlayListModelSet => SetPlayListModel(s)
    case CurrentTrackSet(track) => SetCurrentTrack(s, track)
    case UrlRoleSet => SetUrlRole(s)
    case IsPlayingRoleSet => SetIsPlayingRole(s)
    case RowUrlSet(row, url) => RowUrlChanged(s, row, url)
    case PlayPauseRequested => PlayPause(s)
    case PlayListEnded => PlayListFinished(s)
    case StateRestored(settings) => SetPersistentState(s, settings)
  }

  /** One event. Outbound commands reach the signals only through a turn of the
      event loop, every other event only appends to the queue, and the player
      source is signalled exactly when it changes. */
  function Apply(s: State, e: Event): (r: Step)
    requires Valid(s)
    ensures Valid(r.state) && |r.state.rows| == |s.rows|
    ensures e.EventLoopTurn? ==> r.signals == s.queue && r.state.queue == []
    ensures !e.EventLoopTurn? ==> (forall x :: x in r.signals ==> !x.IsQueued()) && s.queue <= r.state.queue
    ensures PlayerSourceChanged in r.signals <==> r.state.source != s.source
  {
    if e.EventLoopTurn? then DrainQueue(s)
    else if FromPlayer(e) then ApplyReport(s, e)
    else ApplyRequest(s, e)
  }

  /** A run of events from s: the final state and every signal, in order. */
  function Run(s: State, events: seq<Event>): (r: Step)
    requires Valid(s)
    ensures Valid(r.state) && |r.state.rows| == |s.rows|
    decreases |events|
  {
    if events == [] then Step(s, [])
    else
      var a := Apply(s, events[0]);
      var b := Run(a.state, events[1..]);
      Step(b.state, a.signals + b.signals)
  }

  // ---------------------------------------------------------------------------
  // Play is issued only when the user asked for it

  /** An event that expresses no wish to play. */
  predicate NoPlayIntent(e: Event) {
    !e.PlayPauseRequested? && !(e.StateRestored? && e.settings.isPlaying == Some(true))
  }

  lemma ApplyIssuesNoPlay(s: State, e: Event)
    requires Valid(s) && !s.playRequested && PlayerPlay !in s.queue && NoPlayIntent(e)
    ensures var r := Apply(s, e);
              !r.state.playRequested && PlayerPlay !in r.state.queue && PlayerPlay !in r.signals
  {
  }

  /** Without a play/pause request or a restored wish to play, and with none pending,
      no run ever issues play, whatever the media player reports. */
  lemma {:induction false} NoSpuriousPlay(s: State, events: seq<Event>)
    requires Valid(s) && !s.playRequested && PlayerPlay !in s.queue
    requires forall i :: 0 <= i < |events| ==> NoPlayIntent(events[i])
    ensures var r := Run(s, events);
              PlayerPlay !in r.signals && PlayerPlay !in r.state.queue && !r.state.playRequested
    decreases |events|
  {
    if events != [] {
      ApplyIssuesNoPlay(s, events[0]);
      var a := Apply(s, events[0]);
      NoSpuriousPlay(a.state, events[1..]);
    }
  }

  /** Once the play list is finished, nothing issues play until the user asks again. */
  lemma FinishedPlayListStaysSilent(s: State, events: seq<Event>)
    requires Valid(s) && PlayerPlay !in s.queue
    requires forall i :: 0 <= i < |events| ==> NoPlayIntent(events[i])
    ensures PlayerPlay !in Run(s, [PlayListEnded] + events).signals
  {
    var a := Apply(s, PlayListEnded);
    assert ([PlayListEnded] + events)[1..] == events;
    NoSpuriousPlay(a.state, events);
  }

  // ---------------------------------------------------------------------------
  // A restored position is sought at most once

  /** The positions of the seeks among the signals, in order. */
  function SeekPositions(signals: seq<Signal>): (p: seq<int>)
    ensures |p| <= |signals|
    ensures (forall x :: x in signals ==> !x.Seek?) ==> p == []
    ensures forall i :: 0 <= i < |p| ==> Seek(p[i]) in signals
  {
    if signals == [] then []
    else if signals[0].Seek? then [signals[0].position] + SeekPositions(signals[1..])
    else SeekPositions(signals[1..])
  }

  lemma {:induction false} SeekPositionsAppend(a: seq<Signal>, b: seq<Signal>)
    ensures SeekPositions(a + b) == SeekPositions(a) + SeekPositions(b)
    decreases |a|
  {
    if a != [] {
      assert (a + b)[1..] == a[1..] + b;
      SeekPositionsAppend(a[1..], b);
    } else {
      assert a + b == b;
    }
  }

  /** The position still to be sought, as a sequence of at most one element. */
  function PendingSeek(s: State): (p: seq<int>)
    ensures |p| <= 1
    ensures p == [] <==> s.pendingPosition.None?
  {
    if s.pendingPosition.Some? then [s.pendingPosition.value] else []
  }

  /** An event that restores no position. */
  predicate KeepsPosition(e: Event) {
    !(e.StateRestored? && e.settings.playerPosition.Some?)
  }

  /** Confirmed playback seeks the pending position and no other. */
  lemma PlayingSeeksPending(s: State)
    requires Valid(s) && s.playback != PlayingState
    ensures var r := ConfirmPlaying(s); SeekPositions(r.signals) + PendingSeek(r.state) == PendingSeek(s)
  {
    var r := ConfirmPlaying(s);
    if s.pendingPosition.Some? {
      assert r.signals == [PlayerPlaybackStateChanged, Seek(s.pendingPosition.value)];
      assert r.signals[1..][1..] == [];
    } else {
      assert r.signals == [PlayerPlaybackStateChanged];
    }
  }

  /** A report of the player hands over the pending position only when it
      confirms playback. */
  lemma ReportSeeksPending(s: State, e: Event)
    requires Valid(s) && FromPlayer(e)
    ensures var r := ApplyReport(s, e); SeekPositions(r.signals) + PendingSeek(r.state) == PendingSeek(s)
  {
    match e
    case PlaybackReported(playback) =>
      if playback != s.playback {
        match playback
        case PlayingState => PlayingSeeksPending(s);
        case StoppedState =>
          var r := ConfirmStopped(s);
          assert r.signals == [PlayerPlaybackStateChanged] + SourceSignal(s, r.state);
        case PausedState =>
          var r := ConfirmPaused(s);
          assert r.signals == [PlayerPlaybackStateChanged];
      }
    case StatusReported(status) =>
    case ErrorReported(error) =>
  }

  /** A request of the caller that restores no position leaves it pending and seeks
      nothing. */
  lemma RequestSeeksNothing(s: State, e: Event)
    requires Valid(s) && !FromPlayer(e) && !e.EventLoopTurn? && KeepsPosition(e)
    ensures var r := ApplyRequest(s, e);
              SeekPositions(r.signals) == [] && r.state.pendingPosition == s.pendingPosition
  {
    var r := ApplyRequest(s, e);
    match e
    case PlayListModelSet =>
    case CurrentTrackSet(track) =>
    case UrlRoleSet =>
    case IsPlayingRoleSet =>
    case RowUrlSet(row, url) =>
      assert r == RowUrlChanged(s, row, url);
    case PlayPauseRequested =>
    case PlayListEnded =>
    case StateRestored(settings) =>
  }

  lemma ApplySeeksPending(s: State, e: Event)
    requires Valid(s) && KeepsPosition(e)
    ensures var r := Apply(s, e); SeekPositions(r.signals) + PendingSeek(r.state) == PendingSeek(s)
  {
    var r := Apply(s, e);
    if e.EventLoopTurn? {
      assert forall x :: x in r.signals ==> x.IsQueued();
    } else if FromPlayer(e) {
      ReportSeeksPending(s, e);
    } else {
      RequestSeeksNothing(s, e);
    }
  }

  /** Along a run that restores no position, every seek issued uses up the pending
      position: the seeks issued followed by what is still pending are exactly what
      was pending at the start. */
  lemma {:induction false} SeekConservation(s: State, events: seq<Event>)
    requires Valid(s)
    requires forall i :: 0 <= i < |events| ==> KeepsPosition(events[i])
    ensures var r := Run(s, events); SeekPositions(r.signals) + PendingSeek(r.state) == PendingSeek(s)
    decreases |events|
  {
    if events != [] {
      var a := Apply(s, events[0]);
      ApplySeeksPending(s, events[0]);
      SeekConservation(a.state, events[1..]);
      var b := Run(a.state, events[1..]);
      SeekPositionsAppend(a.signals, b.signals);
    }
  }

  /** Hence at most one seek, to the restored position, and none without one. */
  lemma SeekAtMostOnce(s: State, events: seq<Event>)
    requires Valid(s)
    requires forall i :: 0 <= i < |events| ==> KeepsPosition(events[i])
    ensures var p := SeekPositions(Run(s, events).signals);
              |p| <= 1 && (s.pendingPosition.None? ==> p == []) &&
              (p != [] ==> p == [s.pendingPosition.value])
  {
    var r := Run(s, events);
    SeekConservation(s, events);
    assert SeekPositions(r.signals) + PendingSeek(r.state) == PendingSeek(s);
    assert |SeekPositions(r.signals)| <= |PendingSeek(s)|;
  }

  // ---------------------------------------------------------------------------
  // The session of the tests, step by step

  /** Play/pause followed by a turn of the event loop issues exactly one command:
      pause while playing, play otherwise. */
  lemma PlayPauseIssuesOneCommand(s: State)
    requires Valid(s) && s.queue == []
    ensures var a := PlayPause(s); var b := DrainQueue(a.state);
              a.signals + b.signals == (if s.playback == PlayingState then [PlayerPause] else [PlayerPlay]) &&
              b.state.queue == [] && b.state.playRequested == (s.playback != PlayingState)
  {
  }

  /** Confirmed playing flags the loaded row and only it; confirmed stopped clears it. */
  lemma PlayingFlagsLoadedRow(s: State)
    requires Valid(s) && s.playback == StoppedState && s.bound && s.isPlayingRole && s.loaded.Some?
    ensures var a := ConfirmPlaying(s); var b := ConfirmStopped(a.state);
              && (forall i :: 0 <= i < |s.rows| ==> (a.state.rows[i].isPlaying <==> i == s.loaded.value))
              && NoFlag(b.state.rows) && b.state.source == s.source
  {
    var a := ConfirmPlaying(s);
    assert forall i :: 0 <= i < |s.rows| && a.state.rows[i].isPlaying ==> s.loaded == Some(i as nat);
  }

  /** Changing the track while playing keeps the old media loaded and asks for a
      stop; once the stop is confirmed the source moves to the new row and no row
      is flagged. */
  lemma TrackChangeWhilePlaying(s: State, k: nat)
    requires Valid(s) && s.playback == PlayingState && s.queue == []
    requires s.bound && s.urlRole && k < |s.rows| && s.current != Some(k)
    ensures var a := SetCurrentTrack(s, Some(k)); var b := DrainQueue(a.state);
            var c := ConfirmStopped(b.state);
              && a.signals == [CurrentTrackChanged] && a.state.source == s.source
              && b.signals == [PlayerStop]
              && c.state.loaded == Some(k) && c.state.source == s.rows[k].url && NoFlag(c.state.rows)
              && c.signals == [PlayerPlaybackStateChanged] + SourceSignal(b.state, c.state)
  {
  }

  /** Changing the track while stopped moves the source at once and issues nothing. */
  lemma TrackChangeWhileStopped(s: State, k: nat)
    requires Valid(s) && s.playback == StoppedState && s.queue == []
    requires s.bound && s.urlRole && k < |s.rows| && s.current != Some(k)
    ensures var a := SetCurrentTrack(s, Some(k));
              && a.state.source == s.rows[k].url && a.state.loaded == Some(k) && a.state.queue == []
              && a.signals == [CurrentTrackChanged] + SourceSignal(s, a.state)
  {
  }

  /** Invalid media asks the play list, once, to skip the track, without play. */
  lemma InvalidMediaSkipsOnce(s: State)
    requires Valid(s) && s.status != InvalidMedia && s.queue == []
    ensures var a := SetPlayerStatus(s, InvalidMedia); var b := DrainQueue(a.state);
              a.signals == [PlayerStatusChanged] && b.signals == [SkipNextTrack]
  {
  }

  /** A restored wish to play with a position: buffering issues play, and the
      confirmation of playback seeks to the position, once. */
  lemma RestoredPlaybackSeeksOnce(s: State, p: int)
    requires Valid(s) && s.queue == [] && s.status != Buffering && s.playback == StoppedState
    ensures var a := SetPersistentState(s, PlayerSettings(Some(true), Some(p)));
            var b := SetPlayerStatus(a.state, Buffering);
            var c := DrainQueue(b.state);
            var d := ConfirmPlaying(c.state);
              && a.signals == [PersistentStateChanged]
              && b.signals == [PlayerStatusChanged]
              && c.signals == [PlayerPlay]
              && d.signals == [PlayerPlaybackStateChanged, Seek(p)]
              && d.state.pendingPosition.None?
  {
  }
}
