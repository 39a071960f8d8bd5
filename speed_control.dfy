/**
 * SpeedControl, the standalone speed widget: -/+ step buttons around a
 * button showing the current rate, which opens a popover with presets, a
 * slider and a speed text field. Unlike the players' popover it has no
 * target duration, closes on any close request, and hands a rate to
 * `onChange` on a preset click, on Apply, and on each step button.
 */
module SpeedControl {
  import opened Wrappers
  import opened Decimal
  import opened SpeedRange

  datatype Widget = Widget(
    open: bool,          // anchorEl is set
    customSpeed: real,   // the slider's value
    textInput: string)   // textInputValue

  /** A state together with the rate the handler passes to `onChange`, if any. */
  datatype Outcome = Outcome(state: Widget, emitted: Option<real>)

  datatype Event =
    | OpenClick(value: real)      // handleClick, with the current `value` prop
    | Close                       // handleClose (backdrop, Escape)
    | PresetClick(speed: real)    // handlePresetClick
    | SliderChange(newValue: real)  // handleCustomSpeedChange
    | TextChange(text: string)    // handleTextInputChange
    | KeyPress(key: string)       // handleTextInputKeyPress
    | Blur                        // the text field's onBlur
    | Apply                       // handleCustomSpeedCommit
    | Increment(value: real)      // handleIncrement
    | Decrement(value: real)      // handleDecrement

  function Initial(value: real): Widget {
    Widget(false, value, ToFixed2(value))
  }

  function Opened(w: Widget, value: real): Widget {
    Widget(true, value, ToFixed2(value))
  }

  function TextEdited(w: Widget, text: string): Widget {
    match ValidSpeed(text)
    case Some(v) => w.(textInput := text, customSpeed := v)
    case None => w.(textInput := text)
  }

  /** Enter: a valid text is adopted and shown with two decimals; any other text reverts to the slider's value. */
  function EnterPressed(w: Widget): Widget {
    match ValidSpeed(w.textInput)
    case Some(v) => w.(customSpeed := v, textInput := ToFixed2(v))
    case None => w.(textInput := ToFixed2(w.customSpeed))
  }

  function Blurred(w: Widget): Widget {
    w.(textInput := NormalizedText(w.textInput, w.customSpeed))
  }

  /** What Apply hands to `onChange`: the text's value when it is a valid speed, else the slider's value. */
  function CommitValue(w: Widget): real {
    match ValidSpeed(w.textInput)
    case Some(v) => v
    case None => w.customSpeed
  }

  function Step(w: Widget, e: Event): Outcome {
    match e
    case OpenClick(value) => Outcome(Opened(w, value), None)
    case Close => Outcome(w.(open := false), None)
    case PresetClick(speed) => Outcome(w.(customSpeed := speed, open := false), Some(speed))
    case SliderChange(v) => Outcome(w.(customSpeed := v, textInput := ToFixed2(v)), None)
    case TextChange(text) => Outcome(TextEdited(w, text), None)
    case KeyPress(key) => Outcome(if key == "Enter" then EnterPressed(w) else w, None)
    case Blur => Outcome(Blurred(w), None)
    case Apply => Outcome(w.(open := false), Some(CommitValue(w)))
    case Increment(value) => Outcome(w, Some(StepUp(value)))
    case Decrement(value) => Outcome(w, Some(StepDown(value)))
  }

  function Run(w: Widget, events: seq<Event>): Widget
    decreases |events|
  {
    if events == [] then w else Run(Step(w, events[0]).state, events[1..])
  }

  /** Events the widget can deliver: the `value` prop is a committed rate, presets come from the list, the slider ranges over [0.1, 16]. */
  predicate Deliverable(e: Event) {
    && (e.OpenClick? ==> InRange(e.value))
    && (e.PresetClick? ==> e.speed in PresetSpeeds)
    && (e.SliderChange? ==> InRange(e.newValue))
    && (e.Increment? ==> InRange(e.value))
    && (e.Decrement? ==> InRange(e.value))
  }

  // ---------------------------------------------------------------- properties

  /** Apply prefers a valid text over the slider, and either way hands over a rate in range when the slider's is. */
  lemma CommitChoosesText(w: Widget)
    ensures ValidSpeed(w.textInput).Some? ==> CommitValue(w) == ValidSpeed(w.textInput).value
    ensures ValidSpeed(w.textInput).None? ==> CommitValue(w) == w.customSpeed
    ensures InRange(w.customSpeed) ==> InRange(CommitValue(w))
  {
  }

  /**
   * Leaving the text field rounds what Apply would hand over to hundredths:
   * a typed "1.234" commits as 1.234 before the blur and 1.23 after it.
   */
  lemma {:induction false} BlurRoundsCommit(w: Widget)
    requires InRange(w.customSpeed)
    ensures CommitValue(Blurred(w)) == Rounded2(CommitValue(w))
    ensures Blurred(Blurred(w)) == Blurred(w)
  {
    var v := CommitValue(w);
    assert Blurred(w).textInput == ToFixed2(v);
    ParseToFixed2(v);
    RoundedInRange(v);
    NormalizedTextStable(w.textInput, w.customSpeed);
  }

  /** Enter leaves a text that reads back as the (rounded) slider value, adopting a valid text and otherwise reverting. */
  lemma {:induction false} EnterLeavesValidText(w: Widget)
    requires InRange(w.customSpeed)
    ensures var r := EnterPressed(w);
      && InRange(r.customSpeed)
      && ValidSpeed(r.textInput) == Some(Rounded2(r.customSpeed))
      && (ValidSpeed(w.textInput).None? ==> r.customSpeed == w.customSpeed)
  {
    var r := EnterPressed(w);
    ParseToFixed2(r.customSpeed);
    RoundedInRange(r.customSpeed);
  }

  /** A malformed text never moves the slider. */
  lemma TextEditRules(w: Widget, text: string)
    ensures TextEdited(w, text).textInput == text
    ensures ValidSpeed(text).None? ==> TextEdited(w, text).customSpeed == w.customSpeed
    ensures ValidSpeed(text).Some? ==> TextEdited(w, text).customSpeed == ValidSpeed(text).value
  {
  }

  /** Every deliverable event keeps the slider in range and emits only rates in range. */
  lemma {:induction false} StepKeepsRange(w: Widget, e: Event)
    requires InRange(w.customSpeed) && Deliverable(e)
    ensures InRange(Step(w, e).state.customSpeed)
    ensures Step(w, e).emitted.Some? ==> InRange(Step(w, e).emitted.value)
  {
    if e.PresetClick? {
      var i :| 0 <= i < |PresetSpeeds| && PresetSpeeds[i] == e.speed;
      PresetsExact(i);
    }
  }

  /** From the initial state on a committed rate, any deliverable events keep the slider in range. */
  lemma {:induction false} RunKeepsRange(w: Widget, events: seq<Event>)
    requires InRange(w.customSpeed)
    requires forall i :: 0 <= i < |events| ==> Deliverable(events[i])
    ensures InRange(Run(w, events).customSpeed)
    decreases |events|
  {
    if events != [] {
      StepKeepsRange(w, events[0]);
      RunKeepsRange(Step(w, events[0]).state, events[1..]);
    }
  }

  /** Apply and a preset click close the popover; the step buttons leave it as it was. */
  lemma ClosingEvents(w: Widget, speed: real, value: real)
    ensures !Step(w, Apply).state.open && !Step(w, PresetClick(speed)).state.open
    ensures Step(w, Increment(value)).state == w && Step(w, Decrement(value)).state == w
  {
  }

  /** The widget's state cells, updated in place by its handlers. */
  class SpeedWidget {
    var open: bool
    var customSpeed: real
    var textInput: string

    function Model(): Widget
      reads this
    {
      Widget(open, customSpeed, textInput)
    }

    constructor (value: real)
      ensures Model() == Initial(value)
    {
      open := false;
      customSpeed := value;
      textInput := ToFixed2(value);
    }

    method HandleClick(value: real)
      modifies this
      ensures Model() == Opened(old(Model()), value)
    {
      open := true;
      customSpeed := value;
      textInput := ToFixed2(value);
    }

    method HandleClose()
      modifies this
      ensures Model() == old(Model()).(open := false)
    {
      open := false;
    }

    method HandlePresetClick(speed: real) returns (emitted: real)
      modifies this
      ensures emitted == speed
      ensures Model() == old(Model()).(customSpeed := speed, open := false)
    {
      emitted := speed;
      customSpeed := speed;
      HandleClose();
    }

    method HandleSliderChange(newValue: real)
      modifies this
      ensures Model() == old(Model()).(customSpeed := newValue, textInput := ToFixed2(newValue))
    {
      customSpeed := newValue;
      textInput := ToFixed2(newValue);
    }

    method HandleTextChange(text: string)
      modifies this
      ensures Model() == TextEdited(old(Model()), text)
    {
      textInput := text;
      var parsed := ValidSpeed(text);
      if parsed.Some? {
        customSpeed := parsed.value;
      }
    }

    method HandleKeyPress(key: string)
      modifies this
      ensures Model() == if key == "Enter" then EnterPressed(old(Model())) else old(Model())
    {
      if key == "Enter" {
        var parsed := ValidSpeed(textInput);
        if parsed.Some? {
          customSpeed := parsed.value;
          textInput := ToFixed2(parsed.value);
        } else {
          textInput := ToFixed2(customSpeed);
        }
      }
    }

    method HandleBlur()
      modifies this
      ensures Model() == Blurred(old(Model()))
    {
      var parsed := ValidSpeed(textInput);
      if parsed.Some? {
        textInput := ToFixed2(parsed.value);
      } else {
        textInput := ToFixed2(customSpeed);
      }
    }

    method HandleCommit() returns (emitted: real)
      modifies this
      ensures emitted == CommitValue(old(Model()))
      ensures Model() == old(Model()).(open := false)
    {
      var parsed := ValidSpeed(textInput);
      if parsed.Some? {
        emitted := parsed.value;
      } else {
        emitted := customSpeed;
      }
      HandleClose();
    }
  }
}
