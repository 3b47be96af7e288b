/**
 * Properties of the play list controler that relate several operations: bring-up,
 * walking the list under the three play policies, undoing a skip, and restoring
 * a saved position.
 */
module ControlerProperties {
  import opened Common
  import opened ControlerModel

  /** `|picks|` successive skips to the next track, one random draw each. */
  function SkipNextRun(s: State, picks: seq<nat>): (r: Step)
    requires Valid(s)
    ensures Valid(r.state)
    ensures r.state == s.(current := r.state.current)
    ensures s.current.Some? <==> r.state.current.Some?
    decreases |picks|
  {
    if picks == [] then Step(s, [])
    else
      var a := SkipNextTrack(s, picks[0]);
      var rest := SkipNextRun(a.state, picks[1..]);
      Step(rest.state, a.signals + rest.signals)
  }

  /** Successive enqueues by name, each with the resolver's eventual answer. */
  function EnqueueByNameRun(s: State, found: seq<Option<Url>>): (r: Step)
    requires Valid(s)
    ensures Valid(r.state)
    ensures |r.state.rows| == |s.rows| + |found|
    ensures s.current.Some? ==> r.state.current == s.current && r.signals == []
    decreases |found|
  {
    if found == [] then Step(s, [])
    else
      var a := EnqueueByName(s, found[0]);
      var rest := EnqueueByNameRun(a.state, found[1..]);
      Step(rest.state, a.signals + rest.signals)
  }

  lemma CountCons<T>(x: T, rest: seq<T>, y: T)
    ensures Count([x] + rest, y) == (if x == y then 1 else 0) + Count(rest, y)
  {
    assert ([x] + rest)[1..] == rest;
  }

  /** A run of skips splits at any point into two runs. */
  lemma {:induction false} SkipNextRunAppend(s: State, p: seq<nat>, q: seq<nat>)
    requires Valid(s)
    ensures var a := SkipNextRun(s, p);
            var b := SkipNextRun(a.state, q);
            SkipNextRun(s, p + q) == Step(b.state, a.signals + b.signals)
    decreases |p|
  {
    if p == [] {
      assert p + q == q;
    } else {
      assert (p + q)[0] == p[0] && (p + q)[1..] == p[1..] + q;
      var h := SkipNextTrack(s, p[0]);
      SkipNextRunAppend(h.state, p[1..], q);
      var a := SkipNextRun(h.state, p[1..]);
      var b := SkipNextRun(a.state, q);
      assert h.signals + (a.signals + b.signals) == (h.signals + a.signals) + b.signals;
    }
  }

  // ---------------------------------------------------------------------------
  // Bring-up

  /** Enqueueing by database id into an empty selection makes the new row current
      at once, with a single currentTrackChanged. */
  lemma BringUpById(s: State, url: Url)
    requires Valid(s) && s.bound && s.validRole && s.current.None? && s.restored.None?
    ensures EnqueueById(s, Some(url)).state.current == Some(|s.rows|)
    ensures EnqueueById(s, Some(url)).signals == [CurrentTrackChanged]
  {
  }

  /** With no current track and no restored position, a run of enqueues by name
      is silent and keeps the rows and the queued answers it started with. */
  lemma {:induction false} QuietRun(s: State, found: seq<Option<Url>>)
    requires Valid(s) && s.current.None? && s.restored.None?
    ensures var r := EnqueueByNameRun(s, found);
            && r.signals == [] && r.state.current.None? && r.state.restored.None?
            && r.state.bound == s.bound && r.state.validRole == s.validRole
            && r.state.rows[..|s.rows|] == s.rows
            && |s.pending| <= |r.state.pending| && r.state.pending[..|s.pending|] == s.pending
    decreases |found|
  {
    if found != [] {
      var a := EnqueueByName(s, found[0]);
      QuietRun(a.state, found[1..]);
      var r := EnqueueByNameRun(a.state, found[1..]);
      assert r.state.rows[..|s.rows|] == r.state.rows[..|a.state.rows|][..|s.rows|];
      assert r.state.pending[..|s.pending|] == r.state.pending[..|a.state.pending|][..|s.pending|];
      assert a.signals + r.signals == [];
    }
  }

  /** Enqueueing several tracks by name into an empty selection emits nothing
      until the resolver's answers are delivered; the next turn of the event loop
      then makes the first enqueued row current, with a single
      currentTrackChanged, however many answers it delivers. */
  lemma BringUpByName(s: State, found: seq<Option<Url>>)
    requires Valid(s) && s.bound && s.validRole && s.current.None? && s.restored.None? && s.pending == []
    requires found != [] && found[0].Some?
    ensures EnqueueByNameRun(s, found).signals == []
    ensures EnqueueByNameRun(s, found).state.current.None?
    ensures DrainAll(EnqueueByNameRun(s, found).state).state.current == Some(|s.rows|)
    ensures DrainAll(EnqueueByNameRun(s, found).state).signals == [CurrentTrackChanged]
  {
    var a := EnqueueByName(s, found[0]);
    assert a.state.pending == [Resolution(s.nextToken, found[0].value)];
    QuietRun(a.state, found[1..]);
    var e := EnqueueByNameRun(a.state, found[1..]).state;
    assert EnqueueByNameRun(s, found).state == e;
    assert e.rows[..|a.state.rows|][|s.rows|] == a.state.rows[|s.rows|];
    assert e.pending[..1][0] == e.pending[0];
    assert e.rows[|s.rows|].token == s.nextToken;
    assert FindRow(e.rows, s.nextToken) == Some(|s.rows|);
    assert FirstLive(e.rows, e.pending) == Some(|s.rows|);
  }

  /** A resolver answer for a row that was removed in the meantime is dropped. */
  lemma LateAnswerDropped(s: State, k: nat, a: Resolution)
    requires Valid(s) && k < |s.rows| && a.token == s.rows[k].token
    ensures var t := RemoveRow(s, k).state;
            Deliver(t, a) == Step(t, [])
  {
    var t := RemoveRow(s, k).state;
    forall i | 0 <= i < |t.rows|
      ensures t.rows[i].token != a.token
    {
      if i < k {
        assert t.rows[i] == s.rows[i];
      } else {
        assert t.rows[i] == s.rows[i + 1];
      }
    }
  }

  // ---------------------------------------------------------------------------
  // Walking the list

  /** Without random play, a skip from a row other than the last moves to the
      following row and emits only currentTrackChanged. */
  lemma LinearSkip(s: State, pick: nat)
    requires Valid(s) && !s.randomPlay && s.current.Some? && s.current.value + 1 < |s.rows|
    ensures SkipNextTrack(s, pick) == Step(s.(current := Some(s.current.value + 1)), [CurrentTrackChanged])
  {
  }

  /** Without random play, k skips from row c (c + k inside the list) land on row
      c + k. */
  lemma {:induction false} WalkForwardState(s: State, picks: seq<nat>)
    requires Valid(s) && !s.randomPlay && s.current.Some? && s.current.value + |picks| < |s.rows|
    ensures SkipNextRun(s, picks).state == s.(current := Some(s.current.value + |picks|))
    decreases |picks|
  {
    var c := s.current.value;
    if picks == [] {
      assert s.(current := Some(c + 0)) == s;
    } else {
      LinearSkip(s, picks[0]);
      var t := s.(current := Some(c + 1));
      WalkForwardState(t, picks[1..]);
      assert t.(current := Some(c + 1 + |picks[1..]|)) == s.(current := Some(c + |picks|));
    }
  }

  /** ... emitting exactly k currentTrackChanged and nothing else. */
  lemma {:induction false} WalkForwardSignals(s: State, picks: seq<nat>)
    requires Valid(s) && !s.randomPlay && s.current.Some? && s.current.value + |picks| < |s.rows|
    ensures var r := SkipNextRun(s, picks);
              Count(r.signals, CurrentTrackChanged) == |picks| && PlayListFinished !in r.signals
    decreases |picks|
  {
    if picks != [] {
      LinearSkip(s, picks[0]);
      var t := s.(current := Some(s.current.value + 1));
      WalkForwardSignals(t, picks[1..]);
      CountCons(CurrentTrackChanged, SkipNextRun(t, picks[1..]).signals, CurrentTrackChanged);
    }
  }

  /** Both halves of a walk forward. */
  lemma WalkForward(s: State, picks: seq<nat>)
    requires Valid(s) && !s.randomPlay && s.current.Some? && s.current.value + |picks| < |s.rows|
    ensures var r := SkipNextRun(s, picks);
            && r.state == s.(current := Some(s.current.value + |picks|))
            && Count(r.signals, CurrentTrackChanged) == |picks|
            && PlayListFinished !in r.signals
  {
    WalkForwardState(s, picks);
    WalkForwardSignals(s, picks);
  }

  /** A run of skips followed by one more skip. */
  lemma RunThenSkip(s: State, p: seq<nat>, x: nat)
    requires Valid(s)
    ensures var a := SkipNextRun(s, p);
            var b := SkipNextTrack(a.state, x);
            SkipNextRun(s, p + [x]) == Step(b.state, a.signals + b.signals)
  {
    SkipNextRunAppend(s, p, [x]);
    var a := SkipNextRun(s, p);
    var b := SkipNextTrack(a.state, x);
    assert SkipNextRun(b.state, []) == Step(b.state, []);
    assert b.signals + [] == b.signals;
  }

  /** Without random play, the last skip of a pass from row 0 starts at the last
      row, after one currentTrackChanged per skip so far and no end of play list. */
  lemma PassUpToLast(s: State, picks: seq<nat>)
    requires Valid(s) && !s.randomPlay && s.current == Some(0) && |picks| == |s.rows|
    ensures var a := SkipNextRun(s, picks[..|s.rows| - 1]);
            && a.state == s.(current := Some(|s.rows| - 1))
            && Count(a.signals, CurrentTrackChanged) == |s.rows| - 1
            && PlayListFinished !in a.signals
            && SkipNextRun(s, picks) == Step(SkipNextTrack(a.state, picks[|s.rows| - 1]).state,
                                             a.signals + SkipNextTrack(a.state, picks[|s.rows| - 1]).signals)
  {
    var n := |s.rows|;
    var p, x := picks[..n - 1], picks[n - 1];
    assert picks == p + [x];
    RunThenSkip(s, p, x);
    WalkForward(s, p);
    assert s.current.value + |p| == n - 1;
  }

  /** Without random play, one pass over the whole list from row 0 returns to
      exactly the starting state after one currentTrackChanged per row; it ends
      the play list once without repeat play and never with it. */
  lemma FullPass(s: State, picks: seq<nat>)
    requires Valid(s) && !s.randomPlay && s.current == Some(0) && |picks| == |s.rows|
    ensures SkipNextRun(s, picks).state == s
    ensures Count(SkipNextRun(s, picks).signals, CurrentTrackChanged) == |s.rows|
    ensures Count(SkipNextRun(s, picks).signals, PlayListFinished) == if s.repeatPlay then 0 else 1
  {
    PassUpToLast(s, picks);
    var a := SkipNextRun(s, picks[..|s.rows| - 1]);
    var last := if s.repeatPlay then [CurrentTrackChanged] else [CurrentTrackChanged, PlayListFinished];
    assert SkipNextTrack(a.state, picks[|s.rows| - 1]).signals == last;
    CountCons(CurrentTrackChanged, last[1..], CurrentTrackChanged);
    CountCons(CurrentTrackChanged, last[1..], PlayListFinished);
    CountAppend(a.signals, last, CurrentTrackChanged);
    CountAppend(a.signals, last, PlayListFinished);
  }

  /** With repeat play and without random play, any number of skips from row 0
      never ends the play list and lands on the row count's remainder. */
  lemma {:induction false} RepeatNeverFinishes(s: State, picks: seq<nat>)
    requires Valid(s) && !s.randomPlay && s.repeatPlay && s.current == Some(0)
    ensures SkipNextRun(s, picks).state.current == Some(|picks| % |s.rows|)
    ensures PlayListFinished !in SkipNextRun(s, picks).signals
    decreases |picks|
  {
    var n := |s.rows|;
    if |picks| < n {
      WalkForward(s, picks);
      ModSmall(|picks|, n);
      assert Count(SkipNextRun(s, picks).signals, PlayListFinished) == 0;
    } else {
      var p, q := picks[..n], picks[n..];
      assert picks == p + q;
      SkipNextRunAppend(s, p, q);
      FullPass(s, p);
      RepeatNeverFinishes(s, q);
      ModMinus(|picks|, n);
      var a := SkipNextRun(s, p);
      CountAppend(a.signals, SkipNextRun(s, q).signals, PlayListFinished);
    }
  }

  /** With random play, a skip draws the row and emits only currentTrackChanged. */
  lemma RandomSkip(s: State, pick: nat)
    requires Valid(s) && s.randomPlay && s.current.Some?
    ensures SkipNextTrack(s, pick) == Step(s.(current := Some(pick % |s.rows|)), [CurrentTrackChanged])
  {
  }

  /** With random play, every skip lands inside the list on the draw's remainder,
      each emits one currentTrackChanged, and the play list never ends. */
  lemma {:induction false} RandomWalk(s: State, picks: seq<nat>)
    requires Valid(s) && s.randomPlay && s.current.Some?
    ensures var r := SkipNextRun(s, picks);
            && (picks != [] ==> r.state.current == Some(picks[|picks| - 1] % |s.rows|))
            && Count(r.signals, CurrentTrackChanged) == |picks|
            && PlayListFinished !in r.signals
    decreases |picks|
  {
    if picks != [] {
      RandomSkip(s, picks[0]);
      var t := s.(current := Some(picks[0] % |s.rows|));
      RandomWalk(t, picks[1..]);
      var rest := SkipNextRun(t, picks[1..]);
      if |picks| == 1 {
        assert picks[1..] == [];
      } else {
        assert picks[1..][|picks| - 2] == picks[|picks| - 1];
      }
      CountCons(CurrentTrackChanged, rest.signals, CurrentTrackChanged);
    }
  }

  /** Every row can be drawn by a random skip. */
  lemma RandomReachesEveryRow(s: State, j: nat)
    requires Valid(s) && s.randomPlay && s.current.Some? && j < |s.rows|
    ensures SkipNextTrack(s, j).state.current == Some(j)
  {
  }

  /** Without random play, skipping previous undoes skipping next, except after the
      skip that ended the play list. */
  lemma PreviousUndoesNext(s: State, pick: nat, pick2: nat)
    requires Valid(s) && !s.randomPlay && s.current.Some?
    requires s.repeatPlay || s.current.value + 1 < |s.rows|
    ensures SkipPreviousTrack(SkipNextTrack(s, pick).state, pick2).state == s
  {
  }

  /** Without random play, skipping next undoes skipping previous, except at row 0
      without repeat play, where skipping previous does nothing. */
  lemma NextUndoesPrevious(s: State, pick: nat, pick2: nat)
    requires Valid(s) && !s.randomPlay && s.current.Some?
    requires s.repeatPlay || s.current.value > 0
    ensures SkipNextTrack(SkipPreviousTrack(s, pick).state, pick2).state == s
  {
  }

  // ---------------------------------------------------------------------------
  // Restoring a saved position

  /** A restored position is applied when the row it names is enqueued: exactly
      one currentTrackChanged over the whole run, and that row is current. */
  lemma {:induction false} RestoreAppliedOnArrival(s: State, found: seq<Option<Url>>)
    requires Valid(s) && s.bound && s.current.None? && s.restored.Some?
    requires |s.rows| <= s.restored.value < |s.rows| + |found|
    ensures EnqueueByNameRun(s, found).state.current == Some(s.restored.value as nat)
    ensures EnqueueByNameRun(s, found).signals == [CurrentTrackChanged]
    decreases |found|
  {
    var a := EnqueueByName(s, found[0]);
    var rest := EnqueueByNameRun(a.state, found[1..]);
    if s.restored.value == |s.rows| {
      assert a.signals == [CurrentTrackChanged];
      assert rest.signals == [];
      assert a.signals + rest.signals == a.signals;
    } else {
      assert a.signals == [] && a.state.restored == s.restored && a.state.current.None?;
      RestoreAppliedOnArrival(a.state, found[1..]);
      assert a.signals + rest.signals == rest.signals;
    }
  }

  /** Restoring position 2 with random and repeat play, then enqueueing four
      tracks: only the two control signals and one currentTrackChanged are
      emitted, and row 2 becomes current without waiting for the resolver. */
  lemma RestoreThenEnqueueFour(s: State, found: seq<Option<Url>>)
    requires Valid(s) && s.bound && s.current.None? && s.rows == [] && |found| == 4
    ensures var p := SetPersistentState(s, Settings(Some(2), Some(true), Some(true)));
            var e := EnqueueByNameRun(p.state, found);
            && p.signals == [RandomPlayControlChanged, RepeatPlayControlChanged]
            && p.state.randomPlay && p.state.repeatPlay && p.state.current.None?
            && e.state.current == Some(2) && e.signals == [CurrentTrackChanged]
  {
    var p := SetPersistentState(s, Settings(Some(2), Some(true), Some(true)));
    RestoreAppliedOnArrival(p.state, found);
  }
}
