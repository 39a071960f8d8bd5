/**
 * The speed-edit popover of MediaPlayer and VideoPlayer: a preset row, a
 * slider, a speed text field and a target-duration text field, kept in step
 * with one candidate speed that Apply hands to `onPlaybackRateChange`.
 *
 * The two players share this logic almost line for line; `Variant` records
 * the one difference in state: VideoPlayer also keeps `durationInputTime`,
 * the target duration in seconds (`targetTime` here). VideoPlayer alone also
 * defines `handleTextInputKeyPress` (Enter that reverts an invalid text).
 *
 * `Session` is the popover's state as a value and the functions below say
 * what each handler does to it; class `SpeedPopover` holds the same state in
 * mutable fields, one method per handler, each proved to follow `Step`.
 */
module SpeedSession {
  import opened Wrappers
  import opened Decimal
  import opened TimeText
  import opened SpeedRange
  import opened Keys

  datatype Variant = MediaPlayerVariant | VideoPlayerVariant

  /** The `reason` a Popover passes to `onClose`; the popover's own buttons pass none. */
  datatype CloseReason = BackdropClick | EscapeKeyDown | NoReason

  datatype Session = Session(
    open: bool,            // speedAnchorEl is set
    customSpeed: real,     // the candidate speed
    speedText: string,     // textInputValue
    durationText: string,  // durationInputValue
    targetTime: real,      // durationInputTime (VideoPlayer only)
    interacting: bool)     // isInteractingWithInputs: a text field has focus

  /** One event the popover's handlers receive. */
  datatype Event =
    | OpenPopover(playbackRate: real)          // handleSpeedClick
    | PresetClick(speed: real)                 // handlePresetSpeedClick
    | SliderChange(value: real)                // handleCustomSpeedChange
    | SpeedTextChange(text: string)            // handleTextInputChange
    | SpeedKeyDown(key: string, modifier: bool)  // handleTextInputKeyDownWithDuration
    | SpeedKeyPress(key: string)               // handleTextInputKeyPress (VideoPlayer)
    | InputFocus                               // onFocus / onClick of either field
    | SpeedBlur                                // onBlur of the speed field
    | DurationTextChange(text: string)         // handleDurationInputChange
    | DurationBlur                             // onBlur of the duration field
    | DurationKeyDown(key: string, modifier: bool)  // handleDurationInputKeyDown, the paper's onKeyDown
    | CloseRequest(reason: CloseReason, force: bool)  // handleSpeedClose
    | Apply                                    // handleCustomSpeedCommit
    | DocumentKeyDown(code: string, target: KeyTarget)  // the spacebar listener

  predicate TracksTargetTime(variant: Variant) {
    variant == VideoPlayerVariant
  }

  /** Cmd+Enter or Ctrl+Enter. */
  predicate IsCommitKey(key: string, modifier: bool) {
    modifier && key == "Enter"
  }

  /** A focused text or number input, or a text area: the spacebar types there. */
  predicate IsTypingTarget(t: KeyTarget) {
    (t.tagName == "INPUT" && (t.inputType == "text" || t.inputType == "number")) || t.tagName == "TEXTAREA"
  }

  /** The state before the popover is first opened (the initial `useState` values). */
  function Initial(playbackRate: real): Session {
    Session(false, playbackRate, ToFixed2(playbackRate), "", 0.0, false)
  }

  function Opened(s: Session, variant: Variant, playbackRate: real): Session {
    s.(open := true, customSpeed := playbackRate, speedText := ToFixed2(playbackRate), durationText := "",
       targetTime := if TracksTargetTime(variant) then 0.0 else s.targetTime)
  }

  /** The target-duration text (and, in VideoPlayer, time) for a new candidate speed. */
  function Retargeted(s: Session, variant: Variant, duration: real, speed: real): Session
    requires duration > 0.0 && speed > 0.0
  {
    s.(durationText := FormatTime(duration / speed),
       targetTime := if TracksTargetTime(variant) then duration / speed else s.targetTime)
  }

  /** A preset click or a slider move: both handlers do the same. */
  function SpeedChosen(s: Session, variant: Variant, duration: real, speed: real): Session {
    var s' := s.(customSpeed := speed, speedText := ToFixed2(speed));
    if duration > 0.0 && speed > 0.0 then Retargeted(s', variant, duration, speed) else s'
  }

  function SpeedTextEdited(s: Session, variant: Variant, duration: real, text: string): Session {
    var s' := s.(speedText := text);
    match ValidSpeed(text)
    case Some(v) =>
      if duration > 0.0 && v > 0.0 then Retargeted(s'.(customSpeed := v), variant, duration, v)
      else s'.(customSpeed := v)
    case None => s'
  }

  /** Plain Enter in the speed field: a valid text is adopted and normalised; any other text stays. */
  function SpeedTextEntered(s: Session): Session {
    match ValidSpeed(s.speedText)
    case Some(v) => s.(customSpeed := v, speedText := ToFixed2(v))
    case None => s
  }

  /** VideoPlayer's Enter handler: as above, but an invalid text reverts to the candidate speed. */
  function SpeedTextEnteredOrReverted(s: Session): Session {
    match ValidSpeed(s.speedText)
    case Some(v) => s.(customSpeed := v, speedText := ToFixed2(v))
    case None => s.(speedText := ToFixed2(s.customSpeed))
  }

  function SpeedTextBlurred(s: Session): Session {
    s.(interacting := false, speedText := NormalizedText(s.speedText, s.customSpeed))
  }

  /** A target duration of `total` seconds: the speed that plays the media in that time, when it is in range. */
  function TargetEntered(s: Session, variant: Variant, duration: real, total: int): Session {
    if total > 0 then
      var s2 := if TracksTargetTime(variant) then s.(targetTime := total as real) else s;
      var required := duration / total as real;
      if InRange(required) then s2.(customSpeed := required, speedText := ToFixed2(required)) else s2
    else
      s
  }

  function DurationTextEdited(s: Session, variant: Variant, duration: real, text: string): Session {
    var s' := s.(durationText := text);
    match TotalSeconds(text)
    case Some(total) => TargetEntered(s', variant, duration, total)
    case None => s'
  }

  function CloseRequested(s: Session, reason: CloseReason, force: bool): Session {
    if s.interacting && !force then s
    else if force || reason == BackdropClick || reason == EscapeKeyDown then s.(open := false)
    else s
  }

  /** What Apply hands to `onPlaybackRateChange`: the candidate speed, when it lies in range. */
  function AppliedRate(s: Session): Option<real> {
    if InRange(s.customSpeed) then Some(s.customSpeed) else None
  }

  /** The spacebar listener is attached only while the popover is open. */
  predicate SpaceTogglesPlayback(s: Session, code: string, target: KeyTarget) {
    s.open && code == "Space" && !IsTypingTarget(target)
  }

  function Step(s: Session, variant: Variant, duration: real, e: Event): Session {
    match e
    case OpenPopover(rate) => Opened(s, variant, rate)
    case PresetClick(speed) => SpeedChosen(s, variant, duration, speed)
    case SliderChange(value) => SpeedChosen(s, variant, duration, value)
    case SpeedTextChange(text) => SpeedTextEdited(s, variant, duration, text)
    case SpeedKeyDown(key, modifier) =>
      if IsCommitKey(key, modifier) then CloseRequested(s, NoReason, true)
      else if key == "Enter" then SpeedTextEntered(s)
      else s
    case SpeedKeyPress(key) => if key == "Enter" then SpeedTextEnteredOrReverted(s) else s
    case InputFocus => s.(interacting := true)
    case SpeedBlur => SpeedTextBlurred(s)
    case DurationTextChange(text) => DurationTextEdited(s, variant, duration, text)
    case DurationBlur => s.(interacting := false)
    case DurationKeyDown(key, modifier) => if IsCommitKey(key, modifier) then CloseRequested(s, NoReason, true) else s
    case CloseRequest(reason, force) => CloseRequested(s, reason, force)
    case Apply => CloseRequested(s, NoReason, true)
    case DocumentKeyDown(code, target) => if SpaceTogglesPlayback(s, code, target) then s.(open := false) else s
  }

  /** The rate an event hands to `onPlaybackRateChange`, if any. */
  function Applied(s: Session, e: Event): Option<real> {
    match e
    case Apply => AppliedRate(s)
    case SpeedKeyDown(key, modifier) => if IsCommitKey(key, modifier) then AppliedRate(s) else None
    case DurationKeyDown(key, modifier) => if IsCommitKey(key, modifier) then AppliedRate(s) else None
    case _ => None
  }

  function Run(s: Session, variant: Variant, duration: real, events: seq<Event>): Session
    decreases |events|
  {
    if events == [] then s else Run(Step(s, variant, duration, events[0]), variant, duration, events[1..])
  }

  /** The "Target Duration" line under the duration field: duration / speed as a clock, or "0:00". */
  function TargetLabel(s: Session, duration: real): string {
    if duration > 0.0 && s.customSpeed > 0.0 then FormatTime(duration / s.customSpeed) else "0:00"
  }

  /**
   * The events the players can actually deliver: the popover opens on the
   * committed rate (itself in range), presets come from the preset list and
   * the slider ranges over [0.1, 16].
   */
  predicate Deliverable(e: Event) {
    && (e.OpenPopover? ==> InRange(e.playbackRate))
    && (e.PresetClick? ==> e.speed in PresetSpeeds)
    && (e.SliderChange? ==> InRange(e.value))
  }

  /**
   * The target-duration text reads back, within one second, as the media
   * duration divided by the candidate speed.
   */
  predicate Synced(s: Session, duration: real) {
    && duration > 0.0 && s.customSpeed > 0.0
    && match TotalSeconds(s.durationText)
       case Some(t) => 0.0 <= duration / s.customSpeed - t as real < 1.0
       case None => false
  }

  // ---------------------------------------------------------------- properties

  lemma RetargetedSynced(s: Session, variant: Variant, duration: real, speed: real)
    requires duration > 0.0 && speed > 0.0
    ensures Synced(Retargeted(s, variant, duration, speed).(customSpeed := speed), duration)
  {
    FormatTimeReadsBack(duration / speed);
  }

  /**
   * Choosing a speed (preset or slider) makes it the candidate with its
   * two-decimal text; with a known duration and a positive speed the duration
   * text then reads back as duration / speed, otherwise it is untouched.
   */
  lemma {:induction false} SpeedChosenRules(s: Session, variant: Variant, duration: real, speed: real)
    ensures var r := SpeedChosen(s, variant, duration, speed);
      && r.customSpeed == speed && r.speedText == ToFixed2(speed)
      && (duration > 0.0 && speed > 0.0 ==> Synced(r, duration))
      && (duration <= 0.0 || speed <= 0.0 ==> r.durationText == s.durationText && r.targetTime == s.targetTime)
      && r.open == s.open && r.interacting == s.interacting
  {
    if duration > 0.0 && speed > 0.0 {
      RetargetedSynced(s.(customSpeed := speed, speedText := ToFixed2(speed)), variant, duration, speed);
    }
  }

  /** After a preset or slider choice with a known duration, the duration field shows what the label shows. */
  lemma ChosenFieldMatchesLabel(s: Session, variant: Variant, duration: real, speed: real)
    requires duration > 0.0 && speed > 0.0
    ensures SpeedChosen(s, variant, duration, speed).durationText == TargetLabel(SpeedChosen(s, variant, duration, speed), duration)
  {
    SpeedChosenRules(s, variant, duration, speed);
  }

  /** A typed target that moves the speed is shown back by the label to within the second it was typed in. */
  lemma {:induction false} TargetLabelReadsBack(s: Session, variant: Variant, duration: real, total: int)
    requires total > 0 && InRange(duration / total as real)
    ensures TotalSeconds(TargetLabel(TargetEntered(s, variant, duration, total), duration)) == Some(total)
  {
    TargetEnteredRules(s, variant, duration, total);
    var r := TargetEntered(s, variant, duration, total);
    assert duration / r.customSpeed == total as real;
    FormatTimeReadsBack(total as real);
    assert (total as real).Floor == total;
  }

  /**
   * A preset click sets the candidate to exactly the preset, with a text that
   * reads back as the preset; with a known duration the duration text reads
   * back as duration / preset.
   */
  lemma {:induction false} PresetClickSetsSpeed(s: Session, variant: Variant, duration: real, i: nat)
    requires i < |PresetSpeeds|
    ensures var r := SpeedChosen(s, variant, duration, PresetSpeeds[i]);
      && r.customSpeed == PresetSpeeds[i]
      && ValidSpeed(r.speedText) == Some(PresetSpeeds[i])
      && (duration > 0.0 ==> Synced(r, duration))
      && (duration <= 0.0 ==> r.durationText == s.durationText)
  {
    PresetsExact(i);
    SpeedChosenRules(s, variant, duration, PresetSpeeds[i]);
  }

  /**
   * Editing the speed text always stores the text; the candidate speed (and
   * duration text) change only when the text is a number in [0.1, 16], and
   * then the duration text reads back as duration / speed.
   */
  lemma {:induction false} SpeedTextEditRules(s: Session, variant: Variant, duration: real, text: string)
    ensures var r := SpeedTextEdited(s, variant, duration, text);
      && r.speedText == text
      && r.open == s.open && r.interacting == s.interacting
      && (ValidSpeed(text).None? ==> r == s.(speedText := text))
      && (ValidSpeed(text).Some? ==> r.customSpeed == ValidSpeed(text).value)
      && (ValidSpeed(text).Some? && duration > 0.0 ==> Synced(r, duration))
      && (duration <= 0.0 ==> r.durationText == s.durationText)
  {
    match ValidSpeed(text)
    case Some(v) =>
      if duration > 0.0 {
        RetargetedSynced(s.(speedText := text, customSpeed := v), variant, duration, v);
      }
    case None =>
  }

  /** Text that is not a number never moves the candidate speed. */
  lemma MalformedSpeedText(s: Session, variant: Variant, duration: real)
    ensures SpeedTextEdited(s, variant, duration, "abc").customSpeed == s.customSpeed
  {
    NoDigitNoNumber("abc");
  }

  /** Dividing a positive duration by the speed it gives for a target of `t` seconds yields `t` again. */
  lemma QuotientBack(duration: real, t: real)
    requires t > 0.0 && duration / t > 0.0
    ensures duration > 0.0 && duration / (duration / t) == t
  {
    var q := duration / t;
    assert duration == q * t;
  }

  /**
   * A positive target total moves the candidate exactly when duration / total
   * lies in [0.1, 16], to that quotient, and the candidate then takes the
   * total back to the same duration; VideoPlayer records any positive total
   * as the target time. A total of 0 or less changes nothing.
   */
  lemma {:induction false} TargetEnteredRules(s: Session, variant: Variant, duration: real, total: int)
    ensures var r := TargetEntered(s, variant, duration, total);
      && r.open == s.open && r.interacting == s.interacting && r.durationText == s.durationText
      && (total > 0 && InRange(duration / total as real) ==>
            && r.customSpeed == duration / total as real
            && r.speedText == ToFixed2(r.customSpeed)
            && duration > 0.0 && duration / r.customSpeed == total as real)
      && (total <= 0 || !InRange(duration / total as real) ==>
            r.customSpeed == s.customSpeed && r.speedText == s.speedText)
      && (total <= 0 ==> r == s)
      && (TracksTargetTime(variant) && total > 0 ==> r.targetTime == total as real)
      && (!TracksTargetTime(variant) ==> r.targetTime == s.targetTime)
  {
    if total > 0 && InRange(duration / total as real) {
      QuotientBack(duration, total as real);
    }
  }

  /**
   * Editing the duration text stores it; only a text of two or three numeric
   * parts with a positive total whose `duration / total` lies in [0.1, 16]
   * moves the candidate speed, to that quotient, after which the text reads
   * back exactly as duration / speed. Any other text leaves the speed alone.
   * VideoPlayer records every positive total as the target time, even one
   * whose quotient is out of range.
   */
  lemma {:induction false} DurationTextEditRules(s: Session, variant: Variant, duration: real, text: string)
    ensures var r := DurationTextEdited(s, variant, duration, text);
      && r.durationText == text
      && r.open == s.open && r.interacting == s.interacting
      && (TotalSeconds(text).Some? && TotalSeconds(text).value > 0
          && InRange(duration / TotalSeconds(text).value as real) ==>
            && r.customSpeed == duration / TotalSeconds(text).value as real
            && r.speedText == ToFixed2(r.customSpeed)
            && Synced(r, duration))
      && (TotalSeconds(text).Some? && TotalSeconds(text).value > 0
          && !InRange(duration / TotalSeconds(text).value as real) ==>
            r.customSpeed == s.customSpeed && r.speedText == s.speedText)
      && (TotalSeconds(text).None? || TotalSeconds(text).value <= 0 ==> r == s.(durationText := text))
      && (TracksTargetTime(variant) && TotalSeconds(text).Some? && TotalSeconds(text).value > 0 ==>
            r.targetTime == TotalSeconds(text).value as real)
      && (!TracksTargetTime(variant) ==> r.targetTime == s.targetTime)
  {
    var r := DurationTextEdited(s, variant, duration, text);
    match TotalSeconds(text)
    case Some(total) =>
      TargetEnteredRules(s.(durationText := text), variant, duration, total);
    case None =>
  }

  /** With the media duration unknown (0), duration edits never move the speed. */
  lemma DurationUnknownIsInert(s: Session, variant: Variant, text: string)
    ensures DurationTextEdited(s, variant, 0.0, text).customSpeed == s.customSpeed
    ensures DurationTextEdited(s, variant, 0.0, text).speedText == s.speedText
  {
    DurationTextEditRules(s, variant, 0.0, text);
  }

  /** Blur leaves a valid speed text whenever the candidate is valid, and a second blur changes nothing. */
  lemma {:induction false} SpeedBlurNormalizes(s: Session)
    requires InRange(s.customSpeed)
    ensures var r := SpeedTextBlurred(s);
      && !r.interacting && r.customSpeed == s.customSpeed
      && ValidSpeed(r.speedText).Some?
      && (ValidSpeed(s.speedText).Some? ==> r.speedText == ToFixed2(ValidSpeed(s.speedText).value))
      && (ValidSpeed(s.speedText).None? ==> r.speedText == ToFixed2(s.customSpeed))
      && SpeedTextBlurred(r) == r
  {
    NormalizedTextStable(s.speedText, s.customSpeed);
  }

  /**
   * VideoPlayer's Enter handler leaves a valid text whose value is the
   * candidate speed, whichever branch it takes.
   */
  lemma {:induction false} SpeedEnterOrRevert(s: Session)
    requires InRange(s.customSpeed)
    ensures var r := SpeedTextEnteredOrReverted(s);
      && ValidSpeed(r.speedText) == Some(Rounded2(r.customSpeed))
      && (ValidSpeed(s.speedText).None? ==> r.customSpeed == s.customSpeed)
  {
    var r := SpeedTextEnteredOrReverted(s);
    ParseToFixed2(r.customSpeed);
    RoundedInRange(r.customSpeed);
  }

  /**
   * A close request that is not forced is ignored while a field has focus;
   * otherwise the popover closes exactly when forced or on a backdrop click or
   * Escape. Nothing but `open` changes.
   */
  lemma CloseGuard(s: Session, variant: Variant, duration: real, reason: CloseReason, force: bool)
    requires s.open
    ensures var r := Step(s, variant, duration, CloseRequest(reason, force));
      && (!r.open <==> force || (!s.interacting && (reason == BackdropClick || reason == EscapeKeyDown)))
      && r.(open := s.open) == s
  {
  }

  /**
   * Apply hands over the candidate only when it lies in [0.1, 16] and always
   * closes the popover, focus or not; the candidate itself is kept.
   */
  lemma ApplyCommitsInRange(s: Session, variant: Variant, duration: real)
    ensures var r := Step(s, variant, duration, Apply);
      && !r.open && r.customSpeed == s.customSpeed
      && (Applied(s, Apply).Some? <==> InRange(s.customSpeed))
      && (Applied(s, Apply).Some? ==> Applied(s, Apply).value == s.customSpeed)
  {
  }

  /** Opening on a committed rate and applying at once hands back that same rate. */
  lemma OpenThenApply(s: Session, variant: Variant, duration: real, rate: real)
    requires InRange(rate)
    ensures Applied(Step(s, variant, duration, OpenPopover(rate)), Apply) == Some(rate)
  {
  }

  /** The space bar closes the open popover unless it is typed into a text field. */
  lemma SpaceClosesPopover(s: Session, variant: Variant, duration: real, target: KeyTarget)
    requires s.open
    ensures !Step(s, variant, duration, DocumentKeyDown("Space", target)).open <==> !IsTypingTarget(target)
  {
  }

  /** MediaPlayer keeps no target time: no event changes it. */
  lemma MediaPlayerIgnoresTargetTime(s: Session, duration: real, e: Event)
    ensures Step(s, MediaPlayerVariant, duration, e).targetTime == s.targetTime
  {
  }

  /** Every deliverable event keeps the candidate speed in [0.1, 16]. */
  lemma {:induction false} StepKeepsRange(s: Session, variant: Variant, duration: real, e: Event)
    requires InRange(s.customSpeed) && Deliverable(e)
    ensures InRange(Step(s, variant, duration, e).customSpeed)
  {
    if e.PresetClick? {
      var i :| 0 <= i < |PresetSpeeds| && PresetSpeeds[i] == e.speed;
      PresetsExact(i);
    } else if e.DurationTextChange? {
      DurationTextEditRules(s, variant, duration, e.text);
    }
  }

  /**
   * From a candidate in range, any sequence of deliverable events keeps it in
   * range, so Apply then always hands over the candidate.
   */
  lemma {:induction false} RunKeepsRange(s: Session, variant: Variant, duration: real, events: seq<Event>)
    requires InRange(s.customSpeed)
    requires forall i :: 0 <= i < |events| ==> Deliverable(events[i])
    ensures InRange(Run(s, variant, duration, events).customSpeed)
    ensures Applied(Run(s, variant, duration, events), Apply) == Some(Run(s, variant, duration, events).customSpeed)
    decreases |events|
  {
    if events != [] {
      StepKeepsRange(s, variant, duration, events[0]);
      RunKeepsRange(Step(s, variant, duration, events[0]), variant, duration, events[1..]);
    }
  }

  /** Media of 120 s: preset 2 shows a target of "1:00". */
  lemma ScenarioPreset(s: Session, variant: Variant)
    ensures var r := SpeedChosen(s, variant, 120.0, 2.0);
      r.customSpeed == 2.0 && r.speedText == "2.00" && r.durationText == "1:00"
  {
    FormatTimeIsClockOfFloor(60.0);
    assert 60.0.Floor == 60;
    OneMinuteText();
    TwoText();
  }

  /** Media of 120 s: typing "2:00" as the target sets the candidate to 1 and its text to "1.00". */
  lemma ScenarioTarget(s: Session, variant: Variant)
    ensures var r := DurationTextEdited(s, variant, 120.0, "2:00");
      r.customSpeed == 1.0 && r.speedText == "1.00" && r.durationText == "2:00"
  {
    TwoMinutesReadBack();
    OneText();
  }

  lemma OneMinuteText()
    ensures FormatClock(60) == "1:00"
  {
    assert NatToString(1) == "1";
    assert Pad2(0) == "00";
  }

  lemma TwoText()
    ensures ToFixed2(2.0) == "2.00"
  {
    assert Hundredths(2.0) == 200;
    assert NatToString(2) == "2";
    assert Pad2(0) == "00";
  }

  lemma OneText()
    ensures ToFixed2(1.0) == "1.00"
  {
    assert Hundredths(1.0) == 100;
    assert NatToString(1) == "1";
    assert Pad2(0) == "00";
  }

  lemma TwoMinutesReadBack()
    ensures TotalSeconds("2:00") == Some(120)
  {
    assert ParseDigits("2") == 2 by {
      assert "2"[..0] == [];
    }
    assert ParseDigits("00") == 0 by {
      assert "00"[..1] == "0";
      assert "0"[..0] == [];
    }
    JoinTwoReadsBack("2", "00", 2, 0);
    assert Join(["2", "00"]) == "2:00";
  }

  /** The popover's state cells, updated in place by its handlers. */
  class SpeedPopover {
    const variant: Variant
    var duration: real       // the media duration, 0 until `loadedmetadata`
    var open: bool
    var customSpeed: real
    var speedText: string
    var durationText: string
    var targetTime: real
    var interacting: bool

    function Model(): Session
      reads this
    {
      Session(open, customSpeed, speedText, durationText, targetTime, interacting)
    }

    constructor (variant: Variant, playbackRate: real)
      ensures this.variant == variant && duration == 0.0
      ensures Model() == Initial(playbackRate)
    {
      this.variant := variant;
      duration := 0.0;
      open := false;
      customSpeed := playbackRate;
      speedText := ToFixed2(playbackRate);
      durationText := "";
      targetTime := 0.0;
      interacting := false;
    }

    /** `setDuration(video.duration)` on `loadedmetadata`. */
    method LoadedMetadata(d: real)
      modifies this`duration
      ensures duration == d
    {
      duration := d;
    }

    method OpenPopover(playbackRate: real)
      modifies this
      ensures duration == old(duration)
      ensures Model() == Opened(old(Model()), variant, playbackRate)
    {
      open := true;
      customSpeed := playbackRate;
      speedText := ToFixed2(playbackRate);
      durationText := "";
      if variant == VideoPlayerVariant {
        targetTime := 0.0;
      }
    }

    method RequestClose(reason: CloseReason, force: bool)
      modifies this
      ensures duration == old(duration)
      ensures Model() == CloseRequested(old(Model()), reason, force)
    {
      if interacting && !force {
        return;
      }
      if force || reason == BackdropClick || reason == EscapeKeyDown {
        open := false;
      }
    }

    /** The duration field's text (and VideoPlayer's target time) for a new candidate speed. */
    method Retarget(speed: real)
      requires duration > 0.0 && speed > 0.0
      modifies this
      ensures duration == old(duration)
      ensures Model() == Retargeted(old(Model()), variant, duration, speed)
    {
      var target := duration / speed;
      durationText := FormatTime(target);
      if variant == VideoPlayerVariant {
        targetTime := target;
      }
    }

    /** The body shared by the preset and slider handlers. */
    method ChooseSpeed(speed: real)
      modifies this
      ensures duration == old(duration)
      ensures Model() == SpeedChosen(old(Model()), variant, duration, speed)
    {
      customSpeed := speed;
      speedText := ToFixed2(speed);
      if duration > 0.0 && speed > 0.0 {
        Retarget(speed);
      }
    }

    method PresetClick(speed: real)
      modifies this
      ensures duration == old(duration)
      ensures Model() == SpeedChosen(old(Model()), variant, duration, speed)
    {
      ChooseSpeed(speed);
    }

    method SliderChange(value: real)
      modifies this
      ensures duration == old(duration)
      ensures Model() == SpeedChosen(old(Model()), variant, duration, value)
    {
      ChooseSpeed(value);
    }

    method SpeedTextChange(text: string)
      modifies this
      ensures duration == old(duration)
      ensures Model() == SpeedTextEdited(old(Model()), variant, duration, text)
    {
      speedText := text;
      var parsed := ValidSpeed(text);
      if parsed.Some? {
        var v := parsed.value;
        customSpeed := v;
        if duration > 0.0 && v > 0.0 {
          Retarget(v);
        }
      }
    }

    method Apply() returns (applied: Option<real>)
      modifies this
      ensures duration == old(duration)
      ensures applied == Applied(old(Model()), Event.Apply)
      ensures Model() == CloseRequested(old(Model()), NoReason, true)
    {
      applied := if InRange(customSpeed) then Some(customSpeed) else None;
      RequestClose(NoReason, true);
    }

    method SpeedKeyDown(key: string, modifier: bool) returns (applied: Option<real>)
      modifies this
      ensures duration == old(duration)
      ensures applied == Applied(old(Model()), Event.SpeedKeyDown(key, modifier))
      ensures Model() == Step(old(Model()), variant, duration, Event.SpeedKeyDown(key, modifier))
    {
      applied := None;
      if IsCommitKey(key, modifier) {
        applied := Apply();
      } else if key == "Enter" {
        var parsed := ValidSpeed(speedText);
        if parsed.Some? {
          customSpeed := parsed.value;
          speedText := ToFixed2(parsed.value);
        }
      }
    }

    method SpeedKeyPress(key: string)
      requires variant == VideoPlayerVariant
      modifies this
      ensures duration == old(duration)
      ensures Model() == if key == "Enter" then SpeedTextEnteredOrReverted(old(Model())) else old(Model())
    {
      if key == "Enter" {
        var parsed := ValidSpeed(speedText);
        if parsed.Some? {
          customSpeed := parsed.value;
          speedText := ToFixed2(parsed.value);
        } else {
          speedText := ToFixed2(customSpeed);
        }
      }
    }

    method InputFocus()
      modifies this
      ensures duration == old(duration)
      ensures Model() == old(Model()).(interacting := true)
    {
      interacting := true;
    }

    method SpeedBlur()
      modifies this
      ensures duration == old(duration)
      ensures Model() == SpeedTextBlurred(old(Model()))
    {
      interacting := false;
      var parsed := ValidSpeed(speedText);
      if parsed.Some? {
        speedText := ToFixed2(parsed.value);
      } else {
        speedText := ToFixed2(customSpeed);
      }
    }

    /** A parsed target of `total` seconds. */
    method EnterTarget(total: int)
      modifies this
      ensures duration == old(duration)
      ensures Model() == TargetEntered(old(Model()), variant, duration, total)
    {
      if total > 0 {
        if variant == VideoPlayerVariant {
          targetTime := total as real;
        }
        var required := duration / total as real;
        if InRange(required) {
          customSpeed := required;
          speedText := ToFixed2(required);
        }
      }
    }

    method DurationTextChange(text: string)
      modifies this
      ensures duration == old(duration)
      ensures Model() == DurationTextEdited(old(Model()), variant, duration, text)
    {
      durationText := text;
      var total := TotalSeconds(text);
      if total.Some? {
        EnterTarget(total.value);
      }
    }

    method DurationBlur()
      modifies this
      ensures duration == old(duration)
      ensures Model() == old(Model()).(interacting := false)
    {
      interacting := false;
    }

    method DurationKeyDown(key: string, modifier: bool) returns (applied: Option<real>)
      modifies this
      ensures duration == old(duration)
      ensures applied == Applied(old(Model()), Event.DurationKeyDown(key, modifier))
      ensures Model() == Step(old(Model()), variant, duration, Event.DurationKeyDown(key, modifier))
    {
      applied := None;
      if IsCommitKey(key, modifier) {
        applied := Apply();
      }
    }

    /** The document keydown listener attached while the popover is open; returns whether playback is toggled. */
    method DocumentKeyDown(code: string, target: KeyTarget) returns (togglePlayback: bool)
      modifies this
      ensures duration == old(duration)
      ensures togglePlayback == SpaceTogglesPlayback(old(Model()), code, target)
      ensures Model() == Step(old(Model()), variant, duration, Event.DocumentKeyDown(code, target))
    {
      togglePlayback := open && code == "Space" && !IsTypingTarget(target);
      if togglePlayback {
        open := false;
      }
    }
  }
}
