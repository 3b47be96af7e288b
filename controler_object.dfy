/**
 * The play list controler as an object: its fields change in place, and every
 * signal it emits is appended to `log` (what a signal spy records). Each method
 * is proved to move the fields exactly as the matching function of
 * ControlerModel moves the state, and to emit exactly that function's signals.
 */
module ControlerObject {
  import opened Common
  import opened ControlerModel

  class PlayListControler {
    var rows: seq<Track>
    var nextToken: nat
    var pending: seq<Resolution>
    var bound: bool
    var validRole: bool
    var current: Option<nat>
    var randomPlay: bool
    var repeatPlay: bool
    var restored: Option<int>
    /** Every signal emitted so far, in order. */
    var log: seq<Signal>

    /** The fields as a value of the state machine. */
    function Model(): State
      reads this
    {
      State(rows, nextToken, pending, bound, validRole, current, randomPlay, repeatPlay, restored)
    }

    predicate Valid()
      reads this
    {
      ControlerModel.Valid(Model())
    }

    constructor ()
      ensures Valid() && Model() == Initial() && log == []
    {
      rows := [];
      nextToken := 0;
      pending := [];
      bound := false;
      validRole := false;
      current := None;
      randomPlay := false;
      repeatPlay := false;
      restored := None;
      log := [];
    }

    method SetPlayListModel()
      requires Valid()
      modifies this
      ensures Valid()
      ensures Model() == ControlerModel.SetPlayListModel(old(Model())).state
      ensures log == old(log) + ControlerModel.SetPlayListModel(old(Model())).signals
    {
      if !bound {
        bound := true;
        log := log + [PlayListModelChanged];
      }
    }

    method SetIsValidRole()
      requires Valid()
      modifies this
      ensures Valid()
      ensures Model() == ControlerModel.SetIsValidRole(old(Model())).state
      ensures log == old(log) + ControlerModel.SetIsValidRole(old(Model())).signals
    {
      if !validRole {
        validRole := true;
        log := log + [IsValidRoleChanged];
      }
    }

    /** Applies a restored position once the row it names exists. */
    method ApplyRestored()
      requires Valid()
      modifies this
      ensures Valid()
      ensures Model() == AfterInsert(old(Model())).state
      ensures log == old(log) + AfterInsert(old(Model())).signals
    {
      if bound && current.None? && restored.Some? && 0 <= restored.value < |rows| {
        current := Some(restored.value as nat);
        restored := None;
        log := log + [CurrentTrackChanged];
      }
    }

    /** Row k has just become valid. */
    method RowValidated(k: nat)
      requires Valid() && k < |rows|
      modifies this
      ensures Valid()
      ensures Model() == AfterValidated(old(Model()), k).state
      ensures log == old(log) + AfterValidated(old(Model()), k).signals
    {
      if bound && validRole && current.None? {
        current := Some(k);
        restored := None;
        log := log + [CurrentTrackChanged];
      }
    }

    /** Appends a row with a fresh identity. */
    method AppendRow(url: Option<Url>)
      requires Valid()
      modifies this
      ensures Valid()
      ensures Model() == Append(old(Model()), url) && log == old(log)
    {
      rows := rows + [Track(nextToken, url)];
      nextToken := nextToken + 1;
    }

    method EnqueueById(found: Option<Url>)
      requires Valid()
      modifies this
      ensures Valid()
      ensures Model() == ControlerModel.EnqueueById(old(Model()), found).state
      ensures log == old(log) + ControlerModel.EnqueueById(old(Model()), found).signals
    {
      var k := |rows|;
      AppendRow(found);
      ApplyRestored();
      if found.Some? {
        RowValidated(k);
      }
    }

    method EnqueueByName(found: Option<Url>)
      requires Valid()
      modifies this
      ensures Valid()
      ensures Model() == ControlerModel.EnqueueByName(old(Model()), found).state
      ensures log == old(log) + ControlerModel.EnqueueByName(old(Model()), found).signals
    {
      ghost var s := Model();
      if found.Some? {
        pending := pending + [Resolution(nextToken, found.value)];
      }
      AppendRow(None);
      assert Model() == Append(s, None).(pending := s.pending + (if found.Some? then [Resolution(s.nextToken, found.value)] else []));
      ApplyRestored();
    }

    /** The index of the row with identity `token`, by linear search. */
    method IndexOf(token: nat) returns (r: Option<nat>)
      requires Valid()
      ensures r == FindRow(rows, token)
    {
      var i := 0;
      while i < |rows|
        invariant 0 <= i <= |rows|
        invariant forall j :: 0 <= j < i ==> rows[j].token != token
      {
        if rows[i].token == token {
          return Some(i);
        }
        i := i + 1;
      }
      r := None;
    }

    method Deliver(a: Resolution)
      requires Valid()
      modifies this
      ensures Valid()
      ensures Model() == ControlerModel.Deliver(old(Model()), a).state
      ensures log == old(log) + ControlerModel.Deliver(old(Model()), a).signals
    {
      var k := IndexOf(a.token);
      if k.Some? {
        rows := rows[k.value := Track(a.token, Some(a.url))];
        RowValidated(k.value);
      }
    }

    /** Takes the resolver answer at the head of the queue and delivers it. */
    method DeliverNext()
      requires Valid() && pending != []
      modifies this
      ensures Valid()
      ensures Model() == ControlerModel.DeliverNext(old(Model())).state
      ensures log == old(log) + ControlerModel.DeliverNext(old(Model())).signals
    {
      var a := pending[0];
      pending := pending[1..];
      Deliver(a);
    }

    /** One turn of the event loop: delivers every queued resolver answer. */
    method Drain()
      requires Valid()
      modifies this
      ensures Valid()
      ensures Model() == DrainAll(old(Model())).state
      ensures log == old(log) + DrainAll(old(Model())).signals
    {
      ghost var target := DrainAll(Model());
      while pending != []
        invariant Valid()
        invariant DrainAll(Model()).state == target.state
        invariant log + DrainAll(Model()).signals == old(log) + target.signals
        decreases |pending|
      {
        DrainStep();
      }
    }

    /** One delivery of the loop in Drain: what is left of the turn after it,
        added to what it emits, is the turn it started from. */
    method DrainStep()
      requires Valid() && pending != []
      modifies this
      ensures Valid() && |pending| < |old(pending)|
      ensures DrainAll(Model()).state == DrainAll(old(Model())).state
      ensures log + DrainAll(Model()).signals == old(log) + DrainAll(old(Model())).signals
    {
      ghost var before := Model();
      ghost var d := ControlerModel.DeliverNext(before);
      ghost var rest := DrainAll(d.state);
      DrainAllUnfold(before);
      DeliverNext();
      AppendAssoc(old(log), d.signals, rest.signals);
    }

    method RemoveRow(k: int)
      requires Valid()
      modifies this
      ensures Valid()
      ensures Model() == ControlerModel.RemoveRow(old(Model()), k).state
      ensures log == old(log) + ControlerModel.RemoveRow(old(Model()), k).signals
    {
      if 0 <= k < |rows| {
        rows := rows[..k] + rows[k + 1..];
        if current.Some? {
          var c := current.value;
          if k < c {
            current := Some(c - 1);
          } else if k == c {
            if c < |rows| {
              log := log + [CurrentTrackChanged];
            } else {
              current := None;
              log := log + [CurrentTrackChanged, PlayListFinished];
            }
          }
        }
      }
    }

    method SkipNextTrack(pick: nat)
      requires Valid()
      modifies this
      ensures Valid()
      ensures Model() == ControlerModel.SkipNextTrack(old(Model()), pick).state
      ensures log == old(log) + ControlerModel.SkipNextTrack(old(Model()), pick).signals
    {
      if current.Some? {
        var c := current.value;
        if randomPlay {
          current := Some(pick % |rows|);
        } else if c + 1 < |rows| {
          current := Some(c + 1);
        } else {
          current := Some(0);
        }
        log := log + [CurrentTrackChanged];
        if !randomPlay && !repeatPlay && c + 1 == |rows| {
          log := log + [PlayListFinished];
        }
      }
    }

    method SkipPreviousTrack(pick: nat)
      requires Valid()
      modifies this
      ensures Valid()
      ensures Model() == ControlerModel.SkipPreviousTrack(old(Model()), pick).state
      ensures log == old(log) + ControlerModel.SkipPreviousTrack(old(Model()), pick).signals
    {
      if current.Some? {
        var c := current.value;
        if randomPlay {
          current := Some(pick % |rows|);
          log := log + [CurrentTrackChanged];
        } else if c > 0 {
          current := Some(c - 1);
          log := log + [CurrentTrackChanged];
        } else if repeatPlay {
          current := Some(|rows| - 1);
          log := log + [CurrentTrackChanged];
        }
      }
    }

    method SwitchTo(k: int)
      requires Valid()
      modifies this
      ensures Valid()
      ensures Model() == ControlerModel.SwitchTo(old(Model()), k).state
      ensures log == old(log) + ControlerModel.SwitchTo(old(Model()), k).signals
    {
      if bound && 0 <= k < |rows| {
        current := Some(k as nat);
        log := log + [CurrentTrackChanged];
      }
    }

    method SetRandomPlay(value: bool)
      requires Valid()
      modifies this
      ensures Valid()
      ensures Model() == ControlerModel.SetRandomPlay(old(Model()), value).state
      ensures log == old(log) + ControlerModel.SetRandomPlay(old(Model()), value).signals
    {
      if value != randomPlay {
        randomPlay := value;
        log := log + [RandomPlayChanged, RandomPlayControlChanged];
      }
    }

    method SetRepeatPlay(value: bool)
      requires Valid()
      modifies this
      ensures Valid()
      ensures Model() == ControlerModel.SetRepeatPlay(old(Model()), value).state
      ensures log == old(log) + ControlerModel.SetRepeatPlay(old(Model()), value).signals
    {
      if value != repeatPlay {
        repeatPlay := value;
        log := log + [RepeatPlayChanged, RepeatPlayControlChanged];
      }
    }

    method SetPersistentState(settings: Settings)
      requires Valid()
      modifies this
      ensures Valid()
      ensures Model() == ControlerModel.SetPersistentState(old(Model()), settings).state
      ensures log == old(log) + ControlerModel.SetPersistentState(old(Model()), settings).signals
    {
      var emitted: seq<Signal> := [];
      if settings.randomPlay.Some? {
        randomPlay := settings.randomPlay.value;
        emitted := [RandomPlayControlChanged];
      }
      if settings.repeatPlay.Some? {
        repeatPlay := settings.repeatPlay.value;
        emitted := emitted + [RepeatPlayControlChanged];
      }
      if settings.currentTrack.Some? {
        restored := settings.currentTrack;
      }
      log := log + emitted;
    }
  }
}
