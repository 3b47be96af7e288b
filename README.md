# Play list controler and audio player coordinator

A model of the two small state machines at the heart of the Elisa music player's
playback path, as far as their unit tests pin them down. Where the tests leave a
case open, the model makes a choice, and "Left out" names each one.

* **PlayListControler** keeps a cursor, the current track, into the media play
  list. It moves the cursor on `skipNextTrack`, `skipPreviousTrack` and `switchTo`,
  under the linear, repeat and random play policies, and it follows the current
  track when rows are removed. It emits `currentTrackChanged`, `playListFinished`
  and the value-changed and control-changed signals of random and repeat play. It
  restores the cursor and the policies from persisted settings.
* **ManageAudioPlayer** bridges the current track of the play list to an abstract
  media player. It derives the player source from the loaded row's url and writes
  an `isPlaying` flag onto the row being played. It turns `playPause`,
  `setCurrentTrack`, `playListFinished` and the player's status and playback
  reports into the outbound commands `playerPlay`, `playerPause`, `playerStop`,
  `seek` and `skipNextTrack`. It restores a wish to play and a playback position
  from persisted settings.

Each state machine is modelled twice.

* As values: `ControlerModel` and `PlayerModel` have one function per operation.
  Each function maps a `State` to a `Step`, which is the new state plus the signals
  the operation emits, in order. The contracts of these functions are the behaviour
  the tests check.
* As objects: `ControlerObject.PlayListControler` and
  `PlayerObject.ManageAudioPlayer` are classes whose fields change in place.
  Emitted signals are appended to a `log` field, which plays the part of the
  tests' signal spies. Each method is proved to move the fields exactly as its
  function moves the state, and to append exactly that function's signals.

Queued connections are explicit.

* Resolver answers for tracks enqueued by name wait in the controler's `pending`
  queue.
* The coordinator's outbound commands (play, pause, stop, skip next) wait in its
  `queue`.
* `Drain` is one turn of the event loop: it delivers everything queued, in order.
  A `spy.wait()` in the tests corresponds to a `Drain`.

`ControlerProperties` and `PlayerProperties` prove properties of whole runs.

* Controler runs: bring-up, walking the list under each policy, undoing a skip,
  and applying a restored position.
* Coordinator runs, each a sequence of events: play is never issued without a
  wish to play, and a restored position is sought at most once.

Several lemmas also replay a session of the tests step by step.

The behaviour modelled is the one the two test files check, call by call. The
files `playlistcontroler.cpp` and `manageaudioplayer.cpp` are not part of this
model.

## Model

| member | source | states |
|---|---|---|
| ControlerModel.Initial | autotests/playlistcontrolertest.cpp:47-91 | a new controler has no model, no roles, no rows, no queued answers, no current track, no restored position and both policies off, and satisfies the invariant |
| ControlerModel.FindRow | autotests/playlistcontrolertest.cpp:960-984 | finds the row holding the track a persistent index follows: either the row it names has that identity, or no row has |
| ControlerModel.SetPlayListModel | autotests/playlistcontrolertest.cpp:92-103 | the model is set and nothing else changes; playListModelChanged is emitted only on the first set |
| ControlerModel.SetIsValidRole | autotests/playlistcontrolertest.cpp:105-116 | the isValid role is set and nothing else changes; isValidRoleChanged is emitted only on the first set |
| ControlerModel.AfterInsert | autotests/playlistcontrolertest.cpp:2120-2202 | an insertion applies a restored position, with one currentTrackChanged, exactly when the model is set, there is no current track and the row exists; the restored position is then consumed and nothing else changes; otherwise nothing changes at all |
| ControlerModel.AfterValidated | autotests/playlistcontrolertest.cpp:168-190 | a row that becomes valid becomes current, with one currentTrackChanged, exactly when the model and role are set and there is no current track; any restored position is then dropped and nothing else changes; otherwise nothing changes at all |
| ControlerModel.Append | autotests/playlistcontrolertest.cpp:168 | an enqueue appends one row with a fresh identity and keeps the cursor and the invariant |
| ControlerModel.EnqueueById | autotests/playlistcontrolertest.cpp:314-326 | enqueue by id appends the already resolved row and changes nothing but the rows, the next identity, the cursor and the restored position; with a current track nothing else moves and nothing is emitted; without one, a restored position naming an existing row is applied, else the new row becomes current when it resolved and the model and role are set, each with exactly one currentTrackChanged, and otherwise nothing is emitted |
| ControlerModel.EnqueueByName | autotests/playlistcontrolertest.cpp:168-177 | enqueue by name appends an unresolved row and queues the resolver's answer, changing nothing else but the cursor and the restored position; it emits one currentTrackChanged exactly when there is no current track and a restored position names an existing row, which then becomes current, and otherwise keeps the cursor and restored position |
| ControlerModel.Deliver | autotests/playlistcontrolertest.cpp:177-190 | an answer for a removed row is dropped without effect; otherwise that row alone takes the answer's url and becomes valid, and it becomes current, with one currentTrackChanged and the restored position dropped, exactly when the model and role are set and there is no current track; nothing else changes |
| ControlerModel.DeliverNext | autotests/playlistcontrolertest.cpp:177-190 | delivers the head of the resolver queue and pops it: the answered row takes its url, becomes current exactly when the model and role are set and there is no current track, and an answer for a removed row only leaves the queue |
| ControlerModel.DrainAll | autotests/playlistcontrolertest.cpp:177-190 | a turn of the event loop empties the resolver queue and keeps the row identities; every row an answer names is valid afterwards and valid rows stay valid; with no current track it makes current the row of the first answer whose row is still present (when the model and role are set), with exactly one currentTrackChanged, and emits nothing otherwise; an existing cursor is kept silently (also lines 1100-1123) |
| ControlerModel.RemoveRow | autotests/playlistcontrolertest.cpp:474-485 | removing a row before or after the current one keeps the current track silently; removing the current row with a follower makes the follower current with one currentTrackChanged; removing the last current row clears the cursor with currentTrackChanged and playListFinished; an out-of-range index changes nothing; only the rows and the cursor ever change (also lines 787-798, 960-984, 2381-2390) |
| ControlerModel.SkipNextTrack | autotests/playlistcontrolertest.cpp:1125-1136 | linear i to i+1; past the last row back to row 0, with playListFinished only without repeat; random play lands on the draw modulo the row count; one currentTrackChanged per skip; nothing changes without a current track (also lines 1594-1618, 1772-1836, 1990-2054) |
| ControlerModel.SkipPreviousTrack | autotests/playlistcontrolertest.cpp:1429-1453 | linear i to i-1 with one currentTrackChanged; at row 0 it wraps to the last row with repeat and does nothing without; never playListFinished |
| ControlerModel.SwitchTo | autotests/playlistcontrolertest.cpp:2534-2545 | an in-range row becomes current with exactly one currentTrackChanged; anything else changes nothing |
| ControlerModel.SetRandomPlay | autotests/playlistcontrolertest.cpp:1772-1784 | sets random play; a change emits randomPlayChanged and randomPlayControlChanged, no change emits nothing |
| ControlerModel.SetRepeatPlay | autotests/playlistcontrolertest.cpp:1990-2002 | sets repeat play; a change emits repeatPlayChanged and repeatPlayControlChanged, no change emits nothing |
| ControlerModel.SetPersistentState | autotests/playlistcontrolertest.cpp:2120-2134 | restores each present key; emits one control-changed signal per present policy key and nothing else (no value-changed, no currentTrackChanged); the position is only recorded |
| ControlerObject.PlayListControler.constructor | autotests/playlistcontrolertest.cpp:47-91 | the fields are the initial state and the log is empty |
| ControlerObject.PlayListControler.SetPlayListModel | autotests/playlistcontrolertest.cpp:92-103 | fields and log move as ControlerModel.SetPlayListModel |
| ControlerObject.PlayListControler.SetIsValidRole | autotests/playlistcontrolertest.cpp:105-116 | fields and log move as ControlerModel.SetIsValidRole |
| ControlerObject.PlayListControler.ApplyRestored | autotests/playlistcontrolertest.cpp:2120-2202 | fields and log move as ControlerModel.AfterInsert |
| ControlerObject.PlayListControler.RowValidated | autotests/playlistcontrolertest.cpp:168-190 | fields and log move as ControlerModel.AfterValidated |
| ControlerObject.PlayListControler.AppendRow | autotests/playlistcontrolertest.cpp:168 | the fields become ControlerModel.Append of the old ones; nothing is emitted |
| ControlerObject.PlayListControler.EnqueueById | autotests/playlistcontrolertest.cpp:314-326 | fields and log move as ControlerModel.EnqueueById |
| ControlerObject.PlayListControler.EnqueueByName | autotests/playlistcontrolertest.cpp:168-177 | fields and log move as ControlerModel.EnqueueByName |
| ControlerObject.PlayListControler.IndexOf | autotests/playlistcontrolertest.cpp:960-984 | the linear search returns ControlerModel.FindRow |
| ControlerObject.PlayListControler.Deliver | autotests/playlistcontrolertest.cpp:177-190 | fields and log move as ControlerModel.Deliver |
| ControlerObject.PlayListControler.DeliverNext | autotests/playlistcontrolertest.cpp:177-190 | fields and log move as ControlerModel.DeliverNext |
| ControlerObject.PlayListControler.Drain | autotests/playlistcontrolertest.cpp:177-190 | the delivery loop moves fields and log as ControlerModel.DrainAll |
| ControlerObject.PlayListControler.DrainStep | autotests/playlistcontrolertest.cpp:177-190 | one delivery of the loop leaves a turn that, with what it emitted, is the turn it started from |
| ControlerObject.PlayListControler.RemoveRow | autotests/playlistcontrolertest.cpp:474-485 | fields and log move as ControlerModel.RemoveRow (also lines 787-798, 960-984, 2381-2390) |
| ControlerObject.PlayListControler.SkipNextTrack | autotests/playlistcontrolertest.cpp:1125-1136 | fields and log move as ControlerModel.SkipNextTrack (also lines 1594-1618) |
| ControlerObject.PlayListControler.SkipPreviousTrack | autotests/playlistcontrolertest.cpp:1429-1453 | fields and log move as ControlerModel.SkipPreviousTrack |
| ControlerObject.PlayListControler.SwitchTo | autotests/playlistcontrolertest.cpp:2534-2545 | fields and log move as ControlerModel.SwitchTo |
| ControlerObject.PlayListControler.SetRandomPlay | autotests/playlistcontrolertest.cpp:1772-1784 | fields and log move as ControlerModel.SetRandomPlay |
| ControlerObject.PlayListControler.SetRepeatPlay | autotests/playlistcontrolertest.cpp:1990-2002 | fields and log move as ControlerModel.SetRepeatPlay |
| ControlerObject.PlayListControler.SetPersistentState | autotests/playlistcontrolertest.cpp:2120-2134 | fields and log move as ControlerModel.SetPersistentState |
| ControlerProperties.SkipNextRun | autotests/playlistcontrolertest.cpp:1990-2054 | a run of skips keeps the invariant, changes only the cursor, and has a current track exactly when it started with one |
| ControlerProperties.EnqueueByNameRun | autotests/playlistcontrolertest.cpp:2188-2202 | a run of enqueues adds one row each and never moves an existing cursor or signals |
| ControlerProperties.SkipNextRunAppend | autotests/playlistcontrolertest.cpp:1990-2054 | a run of skips splits at any point into two consecutive runs |
| ControlerProperties.BringUpById | autotests/playlistcontrolertest.cpp:314-326 | with no current track, enqueue by id makes the new row current at once with exactly one currentTrackChanged |
| ControlerProperties.QuietRun | autotests/playlistcontrolertest.cpp:1100-1116 | with no current track and no restored position, a run of enqueues by name is silent and keeps the rows and queued answers it started with |
| ControlerProperties.BringUpByName | autotests/playlistcontrolertest.cpp:168-190 | with no current track, enqueueing several tracks by name emits nothing until a turn of the event loop, which makes the first enqueued row current with exactly one currentTrackChanged, however many answers it delivers (also lines 1100-1123) |
| ControlerProperties.LateAnswerDropped | autotests/playlistcontrolertest.cpp:474-485 | a resolver answer for a removed row is dropped without effect |
| ControlerProperties.WalkForwardState | autotests/playlistcontrolertest.cpp:1125-1136 | without random play, k skips from row c inside the list land on row c+k and change nothing else |
| ControlerProperties.WalkForwardSignals | autotests/playlistcontrolertest.cpp:1125-1136 | ... emitting exactly k currentTrackChanged and no playListFinished |
| ControlerProperties.WalkForward | autotests/playlistcontrolertest.cpp:1125-1136 | both halves of a walk forward |
| ControlerProperties.RunThenSkip | autotests/playlistcontrolertest.cpp:1594-1618 | a run of skips followed by one more skip is the longer run |
| ControlerProperties.PassUpToLast | autotests/playlistcontrolertest.cpp:1594-1618 | from row 0 the first n-1 skips reach the last row with n-1 currentTrackChanged and no end of the play list |
| ControlerProperties.FullPass | autotests/playlistcontrolertest.cpp:1594-1618 | n skips from row 0 return to exactly the starting state with n currentTrackChanged, and playListFinished once without repeat and never with it (also lines 1990-2054) |
| ControlerProperties.RepeatNeverFinishes | autotests/playlistcontrolertest.cpp:1990-2054 | with repeat, any number of skips from row 0 lands on that number modulo the row count and never emits playListFinished |
| ControlerProperties.RandomWalk | autotests/playlistcontrolertest.cpp:1772-1836 | with random play every skip lands on its draw modulo the row count (inside the list), emits one currentTrackChanged even when the row is unchanged, and never ends the play list |
| ControlerProperties.RandomReachesEveryRow | autotests/playlistcontrolertest.cpp:1772-1836 | every row can be drawn by a random skip |
| ControlerProperties.PreviousUndoesNext | autotests/playlistcontrolertest.cpp:1429-1453 | without random play, skip previous undoes skip next, except after the skip that ended the play list |
| ControlerProperties.NextUndoesPrevious | autotests/playlistcontrolertest.cpp:1429-1453 | without random play, skip next undoes skip previous, except at row 0 without repeat |
| ControlerProperties.RestoreAppliedOnArrival | autotests/playlistcontrolertest.cpp:2188-2202 | a restored position is applied when its row is enqueued: that row becomes current with a single currentTrackChanged over the whole run |
| ControlerProperties.RestoreThenEnqueueFour | autotests/playlistcontrolertest.cpp:2120-2202 | the test's session: restoring position 2 with random and repeat emits only the two control signals, and four enqueues then make row 2 current with one currentTrackChanged |
| PlayerModel.Initial | autotests/manageaudioplayertest.cpp:37-82 | a new coordinator over a play list: nothing configured, stopped, no source, no row flagged |
| PlayerModel.Notify | autotests/manageaudioplayertest.cpp:103-146 | the source becomes the loaded row's url (once model and url role are set), with playerSourceChanged exactly when it changes |
| PlayerModel.WriteFlag | autotests/manageaudioplayertest.cpp:316-336 | only the loaded row's isPlaying flag is written, and only when the model and the isPlaying role are set |
| PlayerModel.SetPlayListModel | autotests/manageaudioplayertest.cpp:83-102 | the model is set; the first set emits playListModelChanged and updates the source |
| PlayerModel.TrackIndex | autotests/manageaudioplayertest.cpp:103-123 | an index names a track exactly when it is inside the play list |
| PlayerModel.SetCurrentTrack | autotests/manageaudioplayertest.cpp:103-123 | a new track emits currentTrackChanged; while stopped it is loaded and the source follows at once; otherwise the old media stays loaded and a stop is queued; the same track changes nothing; the source is signalled exactly when it changes (also lines 990-1012, 1852-1870) |
| PlayerModel.SetUrlRole | autotests/manageaudioplayertest.cpp:125-146 | the first set emits urlRoleChanged and makes the source the loaded row's url |
| PlayerModel.SetIsPlayingRole | autotests/manageaudioplayertest.cpp:148-168 | the first set emits isPlayingRoleChanged and changes nothing else |
| PlayerModel.RowUrlChanged | autotests/manageaudioplayertest.cpp:4381-4425 | a url change of a row inside the list writes that row's url; the source follows it when it is the loaded row, with playerSourceChanged exactly on a change; only the rows and the source ever change |
| PlayerModel.SetPlayerStatus | autotests/manageaudioplayertest.cpp:170-190 | a changed status emits playerStatusChanged; Buffering queues play exactly when play was asked for; InvalidMedia queues skipNextTrack; every other status, EndOfMedia included, queues nothing (also lines 254-274, 338-358, 382-419, 630-665, 1891-1910) |
| PlayerModel.ConfirmStopped | autotests/manageaudioplayertest.cpp:360-380 | a confirmed stop clears every flag, lets the loaded row catch up with the current track and signals the source if it moves (also lines 1012-1080) |
| PlayerModel.ConfirmPaused | autotests/manageaudioplayertest.cpp:5956-5973 | a confirmed pause emits one playback-state change and leaves no row flagged |
| PlayerModel.ConfirmPlaying | autotests/manageaudioplayertest.cpp:316-336 | confirmed playback flags the loaded row and only it, and seeks the pending position once, clearing it (also lines 5531-5552) |
| PlayerModel.SetPlaybackState | autotests/manageaudioplayertest.cpp:192-211 | an unchanged playback state does nothing; a change never touches the queue or the play wish and emits no queued command (also lines 316-380) |
| PlayerModel.SetPlayerError | autotests/manageaudioplayertest.cpp:212-222 | sets the error; playerErrorChanged only on a change |
| PlayerModel.PlayPause | autotests/manageaudioplayertest.cpp:276-311 | while playing, queues pause and drops the wish to play; otherwise queues play and records the wish; nothing is emitted at once (also lines 5922-5951) |
| PlayerModel.PlayListFinished | autotests/manageaudioplayertest.cpp:4190-4254 | the wish to play is dropped and nothing else changes |
| PlayerModel.SetPersistentState | autotests/manageaudioplayertest.cpp:4630-4653 | restores the present keys, emits persistentStateChanged once and queues no command (also lines 5300-5318) |
| PlayerModel.DrainQueue | autotests/manageaudioplayertest.cpp:296-311 | a turn of the event loop delivers exactly the queued commands, in order, and empties the queue (also lines 404-419) |
| PlayerObject.ManageAudioPlayer.constructor | autotests/manageaudioplayertest.cpp:37-82 | the fields are the initial state and the log is empty |
| PlayerObject.ManageAudioPlayer.NotifySource | autotests/manageaudioplayertest.cpp:103-146 | fields and log move as PlayerModel.Notify |
| PlayerObject.ManageAudioPlayer.WriteLoadedFlag | autotests/manageaudioplayertest.cpp:316-336 | the rows are written in place as PlayerModel.WriteFlag; nothing is emitted |
| PlayerObject.ManageAudioPlayer.SetPlayListModel | autotests/manageaudioplayertest.cpp:83-102 | fields and log move as PlayerModel.SetPlayListModel |
| PlayerObject.ManageAudioPlayer.LoadTrack | autotests/manageaudioplayertest.cpp:1852-1870 | a new track while stopped: fields and log move as PlayerModel.SetCurrentTrack |
| PlayerObject.ManageAudioPlayer.SetCurrentTrack | autotests/manageaudioplayertest.cpp:103-123 | fields and log move as PlayerModel.SetCurrentTrack (also lines 990-1012, 1852-1870) |
| PlayerObject.ManageAudioPlayer.SetUrlRole | autotests/manageaudioplayertest.cpp:125-146 | fields and log move as PlayerModel.SetUrlRole |
| PlayerObject.ManageAudioPlayer.SetIsPlayingRole | autotests/manageaudioplayertest.cpp:148-168 | fields and log move as PlayerModel.SetIsPlayingRole |
| PlayerObject.ManageAudioPlayer.RowUrlChanged | autotests/manageaudioplayertest.cpp:4381-4425 | fields and log move as PlayerModel.RowUrlChanged |
| PlayerObject.ManageAudioPlayer.SetPlayerStatus | autotests/manageaudioplayertest.cpp:170-190 | fields and log move as PlayerModel.SetPlayerStatus (also lines 382-419, 1891-1910) |
| PlayerObject.ManageAudioPlayer.ConfirmStopped | autotests/manageaudioplayertest.cpp:360-380 | fields, row flags and log move as PlayerModel.ConfirmStopped |
| PlayerObject.ManageAudioPlayer.ConfirmPaused | autotests/manageaudioplayertest.cpp:5956-5973 | fields, row flags and log move as PlayerModel.ConfirmPaused |
| PlayerObject.ManageAudioPlayer.ConfirmPlaying | autotests/manageaudioplayertest.cpp:316-336 | fields, row flags and log move as PlayerModel.ConfirmPlaying (also lines 5531-5552) |
| PlayerObject.ManageAudioPlayer.SetPlaybackState | autotests/manageaudioplayertest.cpp:192-211 | fields and log move as PlayerModel.SetPlaybackState (also lines 316-380) |
| PlayerObject.ManageAudioPlayer.SetPlayerError | autotests/manageaudioplayertest.cpp:212-222 | fields and log move as PlayerModel.SetPlayerError |
| PlayerObject.ManageAudioPlayer.PlayPause | autotests/manageaudioplayertest.cpp:276-311 | fields and log move as PlayerModel.PlayPause (also lines 5922-5951) |
| PlayerObject.ManageAudioPlayer.PlayListFinished | autotests/manageaudioplayertest.cpp:4190-4254 | fields and log move as PlayerModel.PlayListFinished |
| PlayerObject.ManageAudioPlayer.SetPersistentState | autotests/manageaudioplayertest.cpp:4630-4653 | fields and log move as PlayerModel.SetPersistentState (also lines 5300-5318) |
| PlayerObject.ManageAudioPlayer.Drain | autotests/manageaudioplayertest.cpp:296-311 | the delivery loop moves fields and log as PlayerModel.DrainQueue (also lines 404-419) |
| PlayerProperties.ApplyReport | autotests/manageaudioplayertest.cpp:170-222 | a report of the media player keeps the invariant, emits no queued command, only appends to the queue, and signals the source exactly when it changes |
| PlayerProperties.ApplyRequest | autotests/manageaudioplayertest.cpp:83-168 | the same for a request of the caller (also lines 276-311) |
| PlayerProperties.Apply | autotests/manageaudioplayertest.cpp:276-311 | queued commands reach the signals only through a turn of the event loop, which delivers the whole queue; every other event only appends to it |
| PlayerProperties.Run | autotests/manageaudioplayertest.cpp:37-424 | a run of events keeps the invariant and the row count |
| PlayerProperties.ApplyIssuesNoPlay | autotests/manageaudioplayertest.cpp:630-665 | an event without a wish to play issues no play and records no wish |
| PlayerProperties.NoSpuriousPlay | autotests/manageaudioplayertest.cpp:630-665 | without play/pause or a restored wish to play, no run ever issues play, whatever the player reports (also lines 5031-5245) |
| PlayerProperties.FinishedPlayListStaysSilent | autotests/manageaudioplayertest.cpp:4190-4254 | after the play list is finished, nothing is played until the user asks again |
| PlayerProperties.SeekPositions | autotests/manageaudioplayertest.cpp:5531-5552 | the positions of the seeks among the signals, each a seek that was emitted |
| PlayerProperties.SeekPositionsAppend | autotests/manageaudioplayertest.cpp:5531-5635 | the seeks of two consecutive runs are the seeks of the first followed by those of the second |
| PlayerProperties.PendingSeek | autotests/manageaudioplayertest.cpp:5300-5318 | the position still to seek, empty exactly when none is pending |
| PlayerProperties.PlayingSeeksPending | autotests/manageaudioplayertest.cpp:5531-5552 | confirmed playback seeks the pending position and nothing else |
| PlayerProperties.ReportSeeksPending | autotests/manageaudioplayertest.cpp:5531-5635 | a player report hands over the pending position only when it confirms playback |
| PlayerProperties.RequestSeeksNothing | autotests/manageaudioplayertest.cpp:5338-5509 | a caller's request that restores no position seeks nothing and keeps it pending |
| PlayerProperties.ApplySeeksPending | autotests/manageaudioplayertest.cpp:5531-5635 | every event that restores no position: seeks issued plus what stays pending equal what was pending |
| PlayerProperties.SeekConservation | autotests/manageaudioplayertest.cpp:5531-5635 | the same over any run |
| PlayerProperties.SeekAtMostOnce | autotests/manageaudioplayertest.cpp:5546 | a run seeks at most once, only to the restored position, and never without one (also lines 5569, 5591, 5613, 5635) |
| PlayerProperties.PlayPauseIssuesOneCommand | autotests/manageaudioplayertest.cpp:276-311 | play/pause and a turn of the event loop issue exactly one command: pause while playing, play otherwise (also lines 5922-5951) |
| PlayerProperties.PlayingFlagsLoadedRow | autotests/manageaudioplayertest.cpp:316-380 | confirmed playback flags exactly the loaded row; the stop that follows clears every flag and keeps the source |
| PlayerProperties.TrackChangeWhilePlaying | autotests/manageaudioplayertest.cpp:990-1111 | a track change while playing emits currentTrackChanged at once, keeps the source, and issues one stop; the confirmed stop moves the source to the new row and clears every flag |
| PlayerProperties.TrackChangeWhileStopped | autotests/manageaudioplayertest.cpp:1852-1870 | a track change while stopped moves the source at once and queues nothing |
| PlayerProperties.InvalidMediaSkipsOnce | autotests/manageaudioplayertest.cpp:382-419 | invalid media emits the status change and, after a turn of the event loop, exactly one skipNextTrack and no play (also lines 1816-1850) |
| PlayerProperties.RestoredPlaybackSeeksOnce | autotests/manageaudioplayertest.cpp:5300-5552 | a restored wish to play with a position: buffering issues one play, and the confirmed playback seeks to the position once |

## Left out

- The implementation files `playlistcontroler.cpp` and `manageaudioplayer.cpp` are not part of this model; the behaviour is the one the two test files fix step by step.
- The database, the tracks listener and the queued wiring between them and the play list (autotests/playlistcontrolertest.cpp:65-81): a track's resolution is a url passed to the enqueue operation, delivered at once (by id) or through the resolver queue (by name).
- ControlerModel.SkipNextTrack: the random draw is a parameter `pick`; the shuffle order that `seedRandomGenerator(0)` produces depends on a random generator that is not part of this model, so the model only fixes that the row is `pick` modulo the row count, which may be the current row.
- ControlerModel.SkipPreviousTrack: under random play the model draws again, as skip next does; the tests never skip previous under random play, and a backward walk through a shuffle history is not modelled.
- Qt's role integers (url, isValid and isPlaying roles) are reduced to configured or not configured.
- The wait timeouts of the signal spies are test timing; a wait is a turn of the event loop (`Drain`).
- Row insertion and removal as seen by the audio player coordinator: its play list is a fixed sequence of rows whose url data may change (`RowUrlChanged`).
- PlayerModel.SetPlayerError: the tests never report an error; they only call `setPlayerError(NoError)` while the error is already NoError, and playerErrorChanged is never emitted. What a real error does is not fixed by the tests. The model records it and emits playerErrorChanged on a change, and does nothing else: no skip, no stop.
- ControlerModel.SkipNextTrack: skipping past the last row without repeat lands on row 0 and emits playListFinished (autotests/playlistcontrolertest.cpp:1607-1618); the cursor is not cleared.
- ControlerModel.SkipNextTrack: with no current track the tests never skip; the model chooses to change nothing and emit nothing.
- ControlerModel.SkipPreviousTrack: the tests skip previous only once, from row 1 to row 0 (autotests/playlistcontrolertest.cpp:1442). What happens at row 0 is not fixed by them. The model wraps to the last row with repeat and does nothing without. ControlerProperties.NextUndoesPrevious rests on this choice.
- ControlerModel.SkipPreviousTrack: with no current track the tests never skip; the model chooses to change nothing and emit nothing.
- ControlerModel.SwitchTo: the tests switch only with a model set and an index in range; the model ignores a switch without a model or outside the list.
- ControlerModel.AfterValidated: every test sets the isValid role before any row is validated (autotests/playlistcontrolertest.cpp:105-116). The model chooses to bring a row up only once the role is set; a row validated before that does not become current.
- ControlerModel.SetPlayListModel: the model pointer is reduced to whether a model is set. The tests set the model once, and a second, different model cannot be expressed; the model chooses to make a repeated set silent.
- PlayerModel.SetPlayListModel: the same reduction as for the controler. The tests set the model once; a repeated set is silent in the model.
- PlayerModel.SetPlayerStatus: EndOfMedia issues no stop and no skip (autotests/manageaudioplayertest.cpp:338-380). InvalidMedia queues a skip of the track without play. Play is queued when buffering is reached, not when media is loaded.
- PlayerModel.ConfirmPaused: the tests do not read the flags after a pause; the model clears them, so that only a playing row is ever flagged.
- PlayerModel.SetCurrentTrack: no test sets the track that is already current; the model chooses to change nothing and emit nothing.
- ControlerModel.AfterValidated: bringing a row up drops any restored position still waiting. The tests never validate a row while a restored position is waiting; in the model a restored index beyond the rows present by then is lost.
- ControlerModel.SetPersistentState: the restored position is only recorded, and applied by a later insertion (AfterInsert), never at once, even when the row it names exists and no track is current. The tests restore before any row is enqueued (autotests/playlistcontrolertest.cpp:2120-2134).
- ControlerModel.SetRandomPlay: randomPlay and randomPlayControl are one flag in the model. The tests read both and see them agree (autotests/playlistcontrolertest.cpp:1783-1784); a restore emits only the control signal (2125-2134), which the model states as signals, not as a separate value.
- ControlerModel.SetRepeatPlay: repeatPlay and repeatPlayControl are one flag, as for random play (autotests/playlistcontrolertest.cpp:2001-2002).
