/**
 * The play list controler as a state machine on values.
 *
 * The controler keeps a cursor (the current track) into the media play list and
 * moves it on skip, switch and row removal, under the linear, repeat and random
 * policies. Each operation is a function from the old state to a Step: the new
 * state and the signals the operation emits, in order. The class in
 * controler_object.dfy is proved against these functions.
 */
module ControlerModel {
  import opened Common

  /** One row of the media play list: a stable identity (what a persistent model
      index follows when rows move) and, once the track is resolved, its url. */
  datatype Track = Track(token: nat, url: Option<Url>) {
    /** The isValid role of the row: true once the track has been resolved. */
    predicate IsValid() {
      url.Some?
    }
  }

  /** The signals of the controler that a client can observe. */
  datatype Signal =
    | CurrentTrackChanged
    | PlayListModelChanged
    | IsValidRoleChanged
    | RandomPlayChanged
    | RandomPlayControlChanged
    | RepeatPlayChanged
    | RepeatPlayControlChanged
    | PlayListFinished

  /** A queued answer of the track resolver: the row with this identity resolves to url. */
  datatype Resolution = Resolution(token: nat, url: Url)

  /** The persisted settings of the controler; a key may be absent. */
  datatype Settings = Settings(currentTrack: Option<int>, randomPlay: Option<bool>, repeatPlay: Option<bool>)

  /**
   * rows       the media play list, in order
   * nextToken  the identity the next enqueued row receives
   * pending    resolver answers queued for the next turn of the event loop
   * bound      a play list model has been set
   * validRole  the isValid role has been set
   * current    the current track (None: no current track)
   * restored   a restored current track position, not yet applied
   */
  datatype State = State(
    rows: seq<Track>,
    nextToken: nat,
    pending: seq<Resolution>,
    bound: bool,
    validRole: bool,
    current: Option<nat>,
    randomPlay: bool,
    repeatPlay: bool,
    restored: Option<int>)

  /** The result of one operation: the new state and the signals emitted, in order. */
  datatype Step = Step(state: State, signals: seq<Signal>)

  /** The state invariant: the cursor names an existing row, there is no cursor
      without a model, and row identities are unique (increasing in row order). */
  predicate Valid(s: State) {
    && (s.current.Some? ==> s.current.value < |s.rows|)
    && (!s.bound ==> s.current.None?)
    && (forall i :: 0 <= i < |s.rows| ==> s.rows[i].token < s.nextToken)
    && (forall i, j :: 0 <= i < j < |s.rows| ==> s.rows[i].token < s.rows[j].token)
  }

  /** The identity of the current track, if any. */
  function CurrentToken(s: State): Option<nat>
    requires Valid(s)
  {
    if s.current.Some? then Some(s.rows[s.current.value].token) else None
  }

  /** A freshly constructed controler: no model, no rows, no current track. */
  function Initial(): (s: State)
    ensures Valid(s)
    ensures s.rows == [] && s.pending == [] && s.current.None? && s.restored.None?
    ensures !s.bound && !s.validRole && !s.randomPlay && !s.repeatPlay
  {
    State([], 0, [], false, false, None, false, false, None)
  }

  /** The index of the row with identity `token`, if that row is still in the list. */
  function FindRow(rows: seq<Track>, token: nat): (r: Option<nat>)
    ensures r.Some? ==> r.value < |rows| && rows[r.value].token == token
    ensures r.None? ==> forall i :: 0 <= i < |rows| ==> rows[i].token != token
  {
    if rows == [] then None
    else if rows[0].token == token then Some(0)
    else match FindRow(rows[1..], token)
      case None => None
      case Some(k) => Some(k + 1)
  }

  // ---------------------------------------------------------------------------
  // Setters of the model and of the roles

  function SetPlayListModel(s: State): (r: Step)
    requires Valid(s)
    ensures Valid(r.state) && r.state == s.(bound := true)
    ensures r.signals == if s.bound then [] else [PlayListModelChanged]
  {
    if s.bound then Step(s, []) else Step(s.(bound := true), [PlayListModelChanged])
  }

  function SetIsValidRole(s: State): (r: Step)
    requires Valid(s)
    ensures Valid(r.state) && r.state == s.(validRole := true)
    ensures r.signals == if s.validRole then [] else [IsValidRoleChanged]
  {
    if s.validRole then Step(s, []) else Step(s.(validRole := true), [IsValidRoleChanged])
  }

  // ---------------------------------------------------------------------------
  // Reactions to the play list model

  /** A restored position names one of the first n rows, with a model set. */
  predicate RestoreApplies(s: State, n: nat) {
    s.bound && s.restored.Some? && 0 <= s.restored.value < n
  }

  /** Rows were inserted: a restored position is applied once the row it names
      exists, if there is no current track yet. */
  function AfterInsert(s: State): (r: Step)
    requires Valid(s)
    ensures Valid(r.state)
    ensures r.state.rows == s.rows && r.state.pending == s.pending && r.state.nextToken == s.nextToken
    ensures r.signals == [] || r.signals == [CurrentTrackChanged]
    ensures r.signals == [] ==> r.state == s
    ensures r.signals == [CurrentTrackChanged] <==>
              s.bound && s.current.None? && s.restored.Some? && 0 <= s.restored.value < |s.rows|
    ensures r.signals != [] ==> r.state == s.(current := Some(s.restored.value as nat), restored := None)
  {
    if s.bound && s.current.None? && s.restored.Some? && 0 <= s.restored.value < |s.rows| then
      Step(s.(current := Some(s.restored.value as nat), restored := None), [CurrentTrackChanged])
    else
      Step(s, [])
  }

  /** Row k became valid: with no current track, it becomes the current track (bring-up). */
  function AfterValidated(s: State, k: nat): (r: Step)
    requires Valid(s) && k < |s.rows|
    ensures Valid(r.state)
    ensures r.state.rows == s.rows && r.state.pending == s.pending && r.state.nextToken == s.nextToken
    ensures r.signals == [] || r.signals == [CurrentTrackChanged]
    ensures r.signals == [] ==> r.state == s
    ensures r.signals == [CurrentTrackChanged] <==> s.bound && s.validRole && s.current.None?
    ensures r.signals != [] ==> r.state == s.(current := Some(k), restored := None)
  {
    if s.bound && s.validRole && s.current.None? then
      Step(s.(current := Some(k), restored := None), [CurrentTrackChanged])
    else
      Step(s, [])
  }

  /** Appends a row with a fresh identity. */
  function Append(s: State, url: Option<Url>): (t: State)
    requires Valid(s)
    ensures Valid(t)
    ensures t.rows == s.rows + [Track(s.nextToken, url)] && t.current == s.current
  {
    s.(rows := s.rows + [Track(s.nextToken, url)], nextToken := s.nextToken + 1)
  }

  /** Enqueue by database id: the track store answers at once, so the new row is
      resolved (when the store knows the track) in the same call. */
  function EnqueueById(s: State, found: Option<Url>): (r: Step)
    requires Valid(s)
    ensures Valid(r.state)
    ensures r.state == s.(rows := s.rows + [Track(s.nextToken, found)], nextToken := s.nextToken + 1,
                          current := r.state.current, restored := r.state.restored)
    ensures r.signals == [] || r.signals == [CurrentTrackChanged]
    ensures s.current.Some? ==> r.signals == [] && r.state.current == s.current && r.state.restored == s.restored
    ensures s.current.None? && RestoreApplies(s, |s.rows| + 1) ==>
              r.state.current == Some(s.restored.value as nat) && r.state.restored.None?
              && r.signals == [CurrentTrackChanged]
    ensures s.current.None? && !RestoreApplies(s, |s.rows| + 1) ==>
              if s.bound && s.validRole && found.Some? then
                r.state.current == Some(|s.rows|) && r.state.restored.None? && r.signals == [CurrentTrackChanged]
              else
                r.state.current.None? && r.state.restored == s.restored && r.signals == []
  {
    var a := AfterInsert(Append(s, found));
    if found.Some? then
      var b := AfterValidated(a.state, |s.rows|);
      Step(b.state, a.signals + b.signals)
    else
      a
  }

  /** Enqueue by title, album and artist: the row is appended unresolved and the
      resolver's answer, if the store knows the track, is queued for later. */
  function EnqueueByName(s: State, found: Option<Url>): (r: Step)
    requires Valid(s)
    ensures Valid(r.state)
    ensures r.state == s.(rows := s.rows + [Track(s.nextToken, None)], nextToken := s.nextToken + 1,
                          pending := s.pending + (if found.Some? then [Resolution(s.nextToken, found.value)] else []),
                          current := r.state.current, restored := r.state.restored)
    ensures r.signals == [] || r.signals == [CurrentTrackChanged]
    ensures r.signals == [CurrentTrackChanged] <==> s.current.None? && RestoreApplies(s, |s.rows| + 1)
    ensures r.signals != [] ==> r.state.current == Some(s.restored.value as nat) && r.state.restored.None?
    ensures r.signals == [] ==> r.state.current == s.current && r.state.restored == s.restored
  {
    var t := Append(s, None);
    var q := if found.Some? then [Resolution(s.nextToken, found.value)] else [];
    AfterInsert(t.(pending := t.pending + q))
  }

  /** Delivers one resolver answer: the row is found by identity (an answer for a
      removed row is dropped), made valid, and may become the current track. */
  function Deliver(s: State, a: Resolution): (r: Step)
    requires Valid(s)
    ensures Valid(r.state)
    ensures r.state == s.(rows := r.state.rows, current := r.state.current, restored := r.state.restored)
    ensures |r.state.rows| == |s.rows|
    ensures r.signals == [] || r.signals == [CurrentTrackChanged]
    ensures s.current.Some? ==> r.signals == [] && r.state.current == s.current
    ensures FindRow(s.rows, a.token).None? ==> r == Step(s, [])
    ensures forall j :: 0 <= j < |s.rows| && s.rows[j].token == a.token ==> r.state.rows[j].IsValid()
    ensures FindRow(s.rows, a.token).Some? ==>
              var k := FindRow(s.rows, a.token).value;
              && r.state.rows == s.rows[k := Track(a.token, Some(a.url))]
              && (r.signals == [CurrentTrackChanged] <==> s.bound && s.validRole && s.current.None?)
              && (r.signals != [] ==> r.state.current == Some(k) && r.state.restored.None?)
              && (r.signals == [] ==> r.state.current == s.current && r.state.restored == s.restored)
  {
    match FindRow(s.rows, a.token)
    case None => Step(s, [])
    case Some(k) =>
      var t := s.(rows := s.rows[k := Track(a.token, Some(a.url))]);
      AfterValidated(t, k)
  }

  /** Delivers the resolver answer at the head of the queue. */
  function DeliverNext(s: State): (r: Step)
    requires Valid(s) && s.pending != []
    ensures Valid(r.state)
    ensures r.state == s.(rows := r.state.rows, pending := s.pending[1..],
                          current := r.state.current, restored := r.state.restored)
    ensures |r.state.rows| == |s.rows|
    ensures r.signals == [] || r.signals == [CurrentTrackChanged]
    ensures s.current.Some? ==> r.signals == [] && r.state.current == s.current
    ensures FindRow(s.rows, s.pending[0].token).None? ==> r == Step(s.(pending := s.pending[1..]), [])
    ensures forall j :: 0 <= j < |s.rows| ==> r.state.rows[j].token == s.rows[j].token
    ensures forall j :: 0 <= j < |s.rows| && s.rows[j].IsValid() ==> r.state.rows[j].IsValid()
    ensures forall j :: 0 <= j < |s.rows| && s.rows[j].token == s.pending[0].token ==> r.state.rows[j].IsValid()
    ensures FindRow(s.rows, s.pending[0].token).Some? ==>
              var k := FindRow(s.rows, s.pending[0].token).value;
              && r.state.rows == s.rows[k := Track(s.pending[0].token, Some(s.pending[0].url))]
              && (r.signals == [CurrentTrackChanged] <==> s.bound && s.validRole && s.current.None?)
              && (r.signals != [] ==> r.state.current == Some(k))
  {
    Deliver(s.(pending := s.pending[1..]), s.pending[0])
  }

  /** The row of the first queued answer whose row is still in the list: the row
      a turn of the event loop makes current when there is no current track. */
  function FirstLive(rows: seq<Track>, pending: seq<Resolution>): (r: Option<nat>)
    ensures r.Some? ==> r.value < |rows|
    ensures r.Some? <==> exists i :: 0 <= i < |pending| && FindRow(rows, pending[i].token).Some?
    decreases |pending|
  {
    if pending == [] then None
    else match FindRow(rows, pending[0].token)
      case Some(k) => Some(k)
      case None => FirstLive(rows, pending[1..])
  }

  /** An answer is resolved over a turn when its row is resolved by the first
      delivery or by the deliveries of the rest of the queue. */
  lemma ResolvedOverTurn(rows: seq<Track>, pending: seq<Resolution>, mid: seq<Track>, out: seq<Track>)
    requires pending != [] && |mid| == |rows| && |out| == |rows|
    requires forall j :: 0 <= j < |rows| ==> mid[j].token == rows[j].token
    requires forall j :: 0 <= j < |rows| && rows[j].token == pending[0].token ==> mid[j].IsValid()
    requires forall j :: 0 <= j < |mid| && mid[j].IsValid() ==> out[j].IsValid()
    requires forall i, j :: 0 <= i < |pending[1..]| && 0 <= j < |mid| && mid[j].token == pending[1..][i].token ==>
               out[j].IsValid()
    ensures forall i, j :: 0 <= i < |pending| && 0 <= j < |rows| && rows[j].token == pending[i].token ==>
              out[j].IsValid()
  {
    forall i, j | 0 <= i < |pending| && 0 <= j < |rows| && rows[j].token == pending[i].token
      ensures out[j].IsValid()
    {
      if i > 0 {
        assert pending[1..][i - 1] == pending[i];
      }
    }
  }

  /** One turn of the event loop: every queued resolver answer is delivered, in order. */
  function DrainAll(s: State): (r: Step)
    requires Valid(s)
    ensures Valid(r.state)
    ensures r.state == s.(rows := r.state.rows, pending := [], current := r.state.current, restored := r.state.restored)
    ensures |r.state.rows| == |s.rows|
    ensures forall j :: 0 <= j < |s.rows| ==> r.state.rows[j].token == s.rows[j].token
    ensures forall j :: 0 <= j < |s.rows| && s.rows[j].IsValid() ==> r.state.rows[j].IsValid()
    ensures forall i, j :: 0 <= i < |s.pending| && 0 <= j < |s.rows| && s.rows[j].token == s.pending[i].token ==>
              r.state.rows[j].IsValid()
    ensures r.signals == [] || r.signals == [CurrentTrackChanged]
    ensures s.current.Some? ==> r.signals == [] && r.state.current == s.current
    ensures s.current.None? ==>
              r.state.current == (if s.bound && s.validRole then FirstLive(s.rows, s.pending) else None)
    ensures r.signals == [CurrentTrackChanged] <==>
              s.current.None? && s.bound && s.validRole && FirstLive(s.rows, s.pending).Some?
    decreases |s.pending|
  {
    if s.pending == [] then Step(s, [])
    else
      var d := DeliverNext(s);
      var rest := DrainAll(d.state);
      ResolvedOverTurn(s.rows, s.pending, d.state.rows, rest.state.rows);
      Step(rest.state, d.signals + rest.signals)
  }

  /** A turn of the event loop is the delivery of the first answer followed by a
      turn over the rest. */
  lemma DrainAllUnfold(s: State)
    requires Valid(s) && s.pending != []
    ensures DrainAll(s).state == DrainAll(DeliverNext(s).state).state
    ensures DrainAll(s).signals == DeliverNext(s).signals + DrainAll(DeliverNext(s).state).signals
  {
  }

  /** Removing a row shifts the rows after it down by one and keeps identities
      fresh and increasing. */
  lemma RemovedRowsOrdered(s: State, k: nat)
    requires Valid(s) && k < |s.rows|
    ensures var rows := s.rows[..k] + s.rows[k + 1..];
            && |rows| == |s.rows| - 1
            && (forall i :: 0 <= i < |rows| ==> rows[i] == if i < k then s.rows[i] else s.rows[i + 1])
            && (forall i :: 0 <= i < |rows| ==> rows[i].token < s.nextToken)
            && (forall i, j :: 0 <= i < j < |rows| ==> rows[i].token < rows[j].token)
  {
    var rows := s.rows[..k] + s.rows[k + 1..];
    assert forall i :: 0 <= i < |rows| ==> rows[i] == if i < k then s.rows[i] else s.rows[i + 1];
  }

  /** Removes row k; the cursor follows its track. Removing the current row makes
      the row that follows it current, or, when none follows, ends the play list. */
  function RemoveRow(s: State, k: int): (r: Step)
    requires Valid(s)
    ensures Valid(r.state)
    ensures !(0 <= k < |s.rows|) ==> r == Step(s, [])
    ensures 0 <= k < |s.rows| ==> r.state.rows == s.rows[..k] + s.rows[k + 1..]
    ensures 0 <= k < |s.rows| && s.current.Some? && s.current.value != k ==>
              CurrentToken(r.state) == CurrentToken(s) && r.signals == []
    ensures 0 <= k < |s.rows| && s.current.Some? && s.current.value == k && k + 1 < |s.rows| ==>
              r.state.current == s.current && CurrentToken(r.state) == Some(s.rows[k + 1].token)
              && r.signals == [CurrentTrackChanged]
    ensures 0 <= k < |s.rows| && s.current.Some? && s.current.value == k && k + 1 == |s.rows| ==>
              r.state.current.None? && r.signals == [CurrentTrackChanged, PlayListFinished]
    ensures s.current.None? ==> r.state.current.None? && r.signals == []
    ensures r.state == s.(rows := r.state.rows, current := r.state.current)
  {
    if !(0 <= k < |s.rows|) then Step(s, [])
    else
      RemovedRowsOrdered(s, k);
      var t := s.(rows := s.rows[..k] + s.rows[k + 1..]);
      var (c, signals) := CursorAfterRemoval(s.current, k, |s.rows|);
      Step(t.(current := c), signals)
  }

  /** Where a cursor into n rows goes when row k is removed, and what is signalled:
      a row before it moves it down, a row after it leaves it, and removing the
      current row leaves the follower current or, with none, ends the play list. */
  function CursorAfterRemoval(current: Option<nat>, k: nat, n: nat): (r: (Option<nat>, seq<Signal>))
    requires k < n && (current.Some? ==> current.value < n)
    ensures r.0.Some? ==> current.Some? && r.0.value < n - 1
  {
    match current
    case None => (None, [])
    case Some(c) =>
      if k < c then (Some(c - 1), [])
      else if k > c then (current, [])
      else if c < n - 1 then (current, [CurrentTrackChanged])
      else (None, [CurrentTrackChanged, PlayListFinished])
  }

  // ---------------------------------------------------------------------------
  // Navigation

  /** Skipping next from the last row ends the play list: the linear policy with
      neither random nor repeat play. */
  predicate Finishes(s: State)
    requires Valid(s)
  {
    s.current.Some? && !s.randomPlay && !s.repeatPlay && s.current.value + 1 == |s.rows|
  }

  /** Skips to the next track. `pick` is the random draw, used only in random mode.
      Past the last row the cursor returns to row 0; without repeat this also
      signals that the play list is finished. */
  function SkipNextTrack(s: State, pick: nat): (r: Step)
    requires Valid(s)
    ensures Valid(r.state)
    ensures r.state == s.(current := r.state.current)
    ensures r.signals == if s.current.None? then [] else if Finishes(s) then [CurrentTrackChanged, PlayListFinished] else [CurrentTrackChanged]
    ensures s.current.Some? ==> r.state.current.Some?
    ensures s.current.Some? && s.randomPlay ==> r.state.current == Some(pick % |s.rows|)
    ensures s.current.Some? && !s.randomPlay && s.current.value + 1 < |s.rows| ==>
              r.state.current == Some(s.current.value + 1)
    ensures s.current.Some? && !s.randomPlay && s.current.value + 1 == |s.rows| ==> r.state.current == Some(0)
    ensures s.current.None? ==> r.state == s
  {
    match s.current
    case None => Step(s, [])
    case Some(c) =>
      var n := |s.rows|;
      if s.randomPlay then Step(s.(current := Some(pick % n)), [CurrentTrackChanged])
      else if c + 1 < n then Step(s.(current := Some(c + 1)), [CurrentTrackChanged])
      else if s.repeatPlay then Step(s.(current := Some(0)), [CurrentTrackChanged])
      else Step(s.(current := Some(0)), [CurrentTrackChanged, PlayListFinished])
  }

  /** Skips to the previous track. At row 0 it wraps to the last row with repeat
      and does nothing without. `pick` is the random draw, used only in random mode. */
  function SkipPreviousTrack(s: State, pick: nat): (r: Step)
    requires Valid(s)
    ensures Valid(r.state)
    ensures r.state == s.(current := r.state.current)
    ensures PlayListFinished !in r.signals
    ensures r.signals == [] || r.signals == [CurrentTrackChanged]
    ensures s.current.Some? && s.randomPlay ==> r.state.current == Some(pick % |s.rows|)
    ensures s.current.Some? && !s.randomPlay && s.current.value > 0 ==>
              r.state.current == Some(s.current.value - 1) && r.signals == [CurrentTrackChanged]
    ensures s.current.Some? && !s.randomPlay && s.current.value == 0 ==>
              if s.repeatPlay then r.state.current == Some(|s.rows| - 1) && r.signals == [CurrentTrackChanged]
              else r == Step(s, [])
    ensures s.current.None? ==> r == Step(s, [])
  {
    match s.current
    case None => Step(s, [])
    case Some(c) =>
      var n := |s.rows|;
      if s.randomPlay then Step(s.(current := Some(pick % n)), [CurrentTrackChanged])
      else if c > 0 then Step(s.(current := Some(c - 1)), [CurrentTrackChanged])
      else if s.repeatPlay then Step(s.(current := Some(n - 1)), [CurrentTrackChanged])
      else Step(s, [])
  }

  /** Makes row k the current track directly; an index outside the list is ignored. */
  function SwitchTo(s: State, k: int): (r: Step)
    requires Valid(s)
    ensures Valid(r.state)
    ensures r.state == s.(current := r.state.current)
    ensures s.bound && 0 <= k < |s.rows| ==> r.state.current == Some(k as nat) && r.signals == [CurrentTrackChanged]
    ensures !(s.bound && 0 <= k < |s.rows|) ==> r == Step(s, [])
  {
    if s.bound && 0 <= k < |s.rows| then Step(s.(current := Some(k as nat)), [CurrentTrackChanged])
    else Step(s, [])
  }

  // ---------------------------------------------------------------------------
  // Policies and persistence

  function SetRandomPlay(s: State, value: bool): (r: Step)
    requires Valid(s)
    ensures Valid(r.state) && r.state == s.(randomPlay := value)
    ensures r.signals == if value == s.randomPlay then [] else [RandomPlayChanged, RandomPlayControlChanged]
  {
    if value == s.randomPlay then Step(s, [])
    else Step(s.(randomPlay := value), [RandomPlayChanged, RandomPlayControlChanged])
  }

  function SetRepeatPlay(s: State, value: bool): (r: Step)
    requires Valid(s)
    ensures Valid(r.state) && r.state == s.(repeatPlay := value)
    ensures r.signals == if value == s.repeatPlay then [] else [RepeatPlayChanged, RepeatPlayControlChanged]
  {
    if value == s.repeatPlay then Step(s, [])
    else Step(s.(repeatPlay := value), [RepeatPlayChanged, RepeatPlayControlChanged])
  }

  /** Restores the policies and the current track position from persisted settings.
      The policies are set without their value-changed signals (only the control
      signals tell the user interface), and the position is only recorded: it is
      applied when the row it names is inserted. */
  function SetPersistentState(s: State, settings: Settings): (r: Step)
    requires Valid(s)
    ensures Valid(r.state)
    ensures r.state == s.(randomPlay := settings.randomPlay.GetOr(s.randomPlay),
                          repeatPlay := settings.repeatPlay.GetOr(s.repeatPlay),
                          restored := if settings.currentTrack.Some? then settings.currentTrack else s.restored)
    ensures CurrentTrackChanged !in r.signals && RandomPlayChanged !in r.signals && RepeatPlayChanged !in r.signals
    ensures Count(r.signals, RandomPlayControlChanged) == (if settings.randomPlay.Some? then 1 else 0)
    ensures Count(r.signals, RepeatPlayControlChanged) == (if settings.repeatPlay.Some? then 1 else 0)
    ensures |r.signals| == Count(r.signals, RandomPlayControlChanged) + Count(r.signals, RepeatPlayControlChanged)
  {
    var t := s.(randomPlay := settings.randomPlay.GetOr(s.randomPlay),
                repeatPlay := settings.repeatPlay.GetOr(s.repeatPlay),
                restored := if settings.currentTrack.Some? then settings.currentTrack else s.restored);
    Step(t, (if settings.randomPlay.Some? then [RandomPlayControlChanged] else [])
          + (if settings.repeatPlay.Some? then [RepeatPlayControlChanged] else []))
  }
}
