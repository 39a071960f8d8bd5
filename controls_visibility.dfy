/**
 * When the player's control bar is shown, and what the mouse cursor looks
 * like, in MediaPlayer and VideoPlayer (both share this logic verbatim).
 *
 * The 3-second hide timer is the flag `hidePending`: `setTimeout` raises it,
 * `clearTimeout` lowers it, and `TimerFires` is the moment the browser runs
 * the callback.
 */
module ControlsVisibility {
  import opened Wrappers

  datatype Visibility = Visibility(isPlaying: bool, showControls: bool, hidePending: bool)

  datatype Cursor = DefaultCursor | NoCursor

  datatype Event = PlayStarted | Paused | MouseMove | MouseLeave | TimerFires

  /** Before the first effect: `showControls` starts false, nothing plays, no timer. */
  const Fresh := Visibility(false, false, false)

  /**
   * The effect that runs whenever `isPlaying` takes a new value (and once on
   * mount): paused shows the controls and cancels the timer; playing hides
   * them but leaves a pending timer alone.
   */
  function PlayingEffect(v: Visibility): Visibility {
    if !v.isPlaying then v.(showControls := true, hidePending := false)
    else v.(showControls := false)
  }

  /** The element's `play` / `pause` event: the effect runs only if the value changes. */
  function PlayingSet(v: Visibility, playing: bool): Visibility {
    if playing == v.isPlaying then v else PlayingEffect(v.(isPlaying := playing))
  }

  function MouseMoved(v: Visibility): Visibility {
    v.(showControls := true, hidePending := v.isPlaying)
  }

  function MouseLeft(v: Visibility): Visibility {
    v.(showControls := if v.isPlaying then false else v.showControls, hidePending := false)
  }

  function TimerFired(v: Visibility): Visibility {
    if v.hidePending then v.(showControls := false, hidePending := false) else v
  }

  function Step(v: Visibility, e: Event): Visibility {
    match e
    case PlayStarted => PlayingSet(v, true)
    case Paused => PlayingSet(v, false)
    case MouseMove => MouseMoved(v)
    case MouseLeave => MouseLeft(v)
    case TimerFires => TimerFired(v)
  }

  function Run(v: Visibility, events: seq<Event>): Visibility
    decreases |events|
  {
    if events == [] then v else Run(Step(v, events[0]), events[1..])
  }

  /** The state after mounting: the effect has run once with `isPlaying` false. */
  function Mounted(): (v: Visibility)
    ensures Valid(v) && v.showControls && !v.isPlaying
  {
    PlayingEffect(Fresh)
  }

  /** A timer is only ever pending while playing, and paused media always shows its controls. */
  predicate Valid(v: Visibility) {
    (v.hidePending ==> v.isPlaying) && (!v.isPlaying ==> v.showControls)
  }

  /** The player container's cursor: visible while the popover is open or the controls show. */
  function ContainerCursor(popoverOpen: bool, showControls: bool): Cursor {
    if popoverOpen || showControls then DefaultCursor else NoCursor
  }

  /**
   * The effect on the fullscreen element's cursor: set only in fullscreen,
   * to visible while the popover is open, to hidden once it is closed and
   * the controls are hidden, and otherwise left as it was (`None`).
   */
  function FullscreenCursor(isFullscreen: bool, popoverOpen: bool, showControls: bool): Option<Cursor> {
    if isFullscreen && popoverOpen then Some(DefaultCursor)
    else if isFullscreen && !popoverOpen && !showControls then Some(NoCursor)
    else None
  }

  // ---------------------------------------------------------------- properties

  /** Every event keeps the state valid. */
  lemma StepKeepsValid(v: Visibility, e: Event)
    requires Valid(v)
    ensures Valid(Step(v, e))
  {
  }

  /** From any valid state, any sequence of events keeps it valid. */
  lemma {:induction false} RunKeepsValid(v: Visibility, events: seq<Event>)
    requires Valid(v)
    ensures Valid(Run(v, events))
    decreases |events|
  {
    if events != [] {
      StepKeepsValid(v, events[0]);
      RunKeepsValid(Step(v, events[0]), events[1..]);
    }
  }

  /** After mounting, whatever happens, paused media shows its controls and no timer outlives a pause. */
  lemma PausedAlwaysShows(events: seq<Event>)
    ensures var v := Run(Mounted(), events);
      !v.isPlaying ==> v.showControls && !v.hidePending
  {
    RunKeepsValid(Mounted(), events);
  }

  /** The controls can be hidden only while playing. */
  lemma HiddenOnlyWhilePlaying(v: Visibility, e: Event)
    requires Valid(v)
    ensures !Step(v, e).showControls ==> Step(v, e).isPlaying
  {
    StepKeepsValid(v, e);
  }

  /** A mouse move always shows the controls; it arms the hide timer exactly when playing. */
  lemma MouseMoveShows(v: Visibility)
    ensures Step(v, MouseMove).showControls
    ensures Step(v, MouseMove).hidePending <==> v.isPlaying
    ensures Step(v, MouseMove).isPlaying == v.isPlaying
  {
  }

  /** While playing, a mouse move followed by the timer leaves the controls hidden again. */
  lemma MoveThenTimerHides(v: Visibility)
    requires v.isPlaying
    ensures Run(v, [MouseMove, TimerFires]) == v.(showControls := false, hidePending := false)
  {
    assert [MouseMove, TimerFires][1..] == [TimerFires];
    assert [TimerFires][1..] == [];
  }

  /** While paused, a mouse move and any number of timer ticks leave the controls shown. */
  lemma PausedMoveStaysShown(v: Visibility, ticks: nat)
    requires Valid(v) && !v.isPlaying
    ensures Run(MouseMoved(v), seq(ticks, _ => TimerFires)).showControls
  {
    RunKeepsValid(MouseMoved(v), seq(ticks, _ => TimerFires));
    TimersKeepPlaying(MouseMoved(v), ticks);
  }

  /** Timer ticks never change whether the media plays. */
  lemma {:induction false} TimersKeepPlaying(v: Visibility, ticks: nat)
    ensures Run(v, seq(ticks, _ => TimerFires)).isPlaying == v.isPlaying
    decreases ticks
  {
    if ticks > 0 {
      var ts := seq(ticks, _ => TimerFires);
      assert ts[1..] == seq(ticks - 1, _ => TimerFires);
      TimersKeepPlaying(TimerFired(v), ticks - 1);
    }
  }

  /** Starting playback hides the controls at once, without waiting for a timer. */
  lemma PlayHidesAtOnce(v: Visibility)
    requires !v.isPlaying
    ensures Step(v, PlayStarted).isPlaying && !Step(v, PlayStarted).showControls
    ensures Step(v, PlayStarted).hidePending == v.hidePending
  {
  }

  /** A repeated `play` (or `pause`) event changes nothing: the effect only runs on a change. */
  lemma RepeatedPlayingIsInert(v: Visibility, e: Event)
    requires e == PlayStarted || e == Paused
    ensures Step(Step(v, e), e) == Step(v, e)
  {
  }

  /** The container's cursor is hidden exactly when the popover is closed and the controls hidden. */
  lemma ContainerCursorHidden(popoverOpen: bool, showControls: bool)
    ensures ContainerCursor(popoverOpen, showControls) == NoCursor <==> !popoverOpen && !showControls
  {
  }

  /** Whenever the fullscreen effect sets the cursor, it agrees with the container's rule; outside fullscreen it never does. */
  lemma FullscreenCursorAgrees(isFullscreen: bool, popoverOpen: bool, showControls: bool)
    ensures var c := FullscreenCursor(isFullscreen, popoverOpen, showControls);
      && (c.Some? ==> isFullscreen && c.value == ContainerCursor(popoverOpen, showControls))
      && (isFullscreen && (popoverOpen || !showControls) ==> c.Some?)
  {
  }

  /** The control state of one player, updated in place by its handlers. */
  class Controls {
    var isPlaying: bool
    var showControls: bool
    var hidePending: bool

    function Model(): Visibility
      reads this
    {
      Visibility(isPlaying, showControls, hidePending)
    }

    /** Mounting: the initial state, then the playing effect once. */
    constructor ()
      ensures Model() == Mounted()
    {
      isPlaying := false;
      showControls := true;
      hidePending := false;
    }

    method SetPlaying(playing: bool)
      modifies this
      ensures Model() == PlayingSet(old(Model()), playing)
      ensures Valid(old(Model())) ==> Valid(Model())
    {
      if playing != isPlaying {
        isPlaying := playing;
        if !isPlaying {
          showControls := true;
          hidePending := false;
        } else {
          showControls := false;
        }
      }
    }

    method HandleMouseMove()
      modifies this
      ensures Model() == MouseMoved(old(Model()))
      ensures Valid(old(Model())) ==> Valid(Model())
    {
      showControls := true;
      hidePending := false;
      if isPlaying {
        hidePending := true;
      }
    }

    method HandleMouseLeave()
      modifies this
      ensures Model() == MouseLeft(old(Model()))
      ensures Valid(old(Model())) ==> Valid(Model())
    {
      if isPlaying {
        showControls := false;
      }
      hidePending := false;
    }

    /** The 3-second callback; it runs only while a timer is pending. */
    method TimerFires()
      modifies this
      ensures Model() == TimerFired(old(Model()))
      ensures Valid(old(Model())) ==> Valid(Model())
    {
      if hidePending {
        showControls := false;
        hidePending := false;
      }
    }
  }
}
