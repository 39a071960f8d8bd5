# Custom-speed media player: a Dafny model of its core

This project models the logic inside a desktop media player that plays files at a custom speed. The player is an Electron and React application. The model covers these parts:

- **The speed-edit popover** of `MediaPlayer` and `VideoPlayer` (module `SpeedSession`). It holds a candidate speed in [0.1, 16], the speed text, the target-duration text and a focus flag. Apply hands the candidate to the player. The two components share this logic line for line. The constant `variant` records where `VideoPlayer` differs:
  - it keeps `durationInputTime` (`targetTime`);
  - it defines an Enter handler (`handleTextInputKeyPress`) that reverts an invalid text.
- **The clock text** (module `TimeText`):
  - `formatTime` and the identical inline builders write `H:MM:SS` from one hour on, and `M:SS` below;
  - the target-duration parser splits on `:` and reads each part.
- **The toFixed(2) / parseFloat pair** on a simple decimal grammar (module `Decimal`), and the speed range, presets and step buttons (module `SpeedRange`).
- **Control-bar visibility** (module `ControlsVisibility`): play, pause, mouse move and leave, a pending 3-second hide timer, and the cursor rules.
- **The standalone `SpeedControl` widget** (module `SpeedControl`). Unlike the popover, a preset applies at once, and Apply prefers the typed text.
- **The application shell `App`** (module `App`): volume and mute, the playlist index, stop and toggle, and the shortcut table.
- **The Electron main process's video-path routing** (module `MainProcess`).
- **The playlist panel's labels** (module `Playlist`).
- **The extension strip that turns a file name into a title** (module `MediaTitle`).

Each stateful component is a `class`:
- its fields are the component's state cells;
- `Model()` views those fields as a datatype;
- each handler is a method whose `ensures` ties the new state to a function of the old one.

The properties are proved about those functions. `Step` and `Run` replay event sequences for the invariants. Numbers are Dafny `real`s.

Where the specification and the code disagree, the model follows the code:
- **Visibility during an edit.** The specification keeps the controls visible while the edit popover is open. In the code the popover only affects the cursor, so a pending hide timer still hides the controls. The popover is rendered inside the control bar's `showControls && (…)` block (src/components/MediaPlayer.js:704-1126, src/components/VideoPlayer.js:462-869). Hiding the controls therefore unmounts an open popover mid-edit, while `speedAnchorEl` (the model's `open`) stays set, so it reappears with the controls.
- **Start of playback.** The code hides the controls as soon as playback starts. It does not wait for a dwell period.
- **Duration-field blur.** The duration field has no revert-on-blur. The model keeps that asymmetry.

## Model

| member | source | states |
|---|---|---|
| Decimal.NatToStringReadsBack | src/components/MediaPlayer.js:306-317 | `String(n)` is a non-empty digit string that parses back to n, with no leading zero, and is one digit below 10 and at most two below 100 |
| Decimal.Pad2ReadsBack | src/components/MediaPlayer.js:312-316 | `padStart(2, "0")` of a whole number is all digits, parses back to it, and is exactly two characters below 100 |
| Decimal.IndexOf | src/components/MediaPlayer.js:445 | the index returned is the first occurrence of the character, or the length when it is absent |
| Decimal.Hundredths | src/components/MediaPlayer.js:364 | the hundredths count `toFixed(2)` prints is within half a unit of 100·x |
| Decimal.Rounded2 | src/components/MediaPlayer.js:364 | the value `toFixed(2)` shows lies within 0.005 of x and keeps the sign of a non-negative x |
| Decimal.FixedTextParses | src/components/MediaPlayer.js:364 | the text `toFixed(2)` prints for n hundredths starts with a digit and reads back as n / 100 |
| Decimal.NegatedParses | src/components/MediaPlayer.js:410 | `parseFloat` of "-" followed by an unsigned decimal is its negation |
| Decimal.ParseToFixed2 | src/components/MediaPlayer.js:410-412 | `parseFloat(x.toFixed(2))` is x rounded to hundredths, for every real x |
| Decimal.ToFixed2OfRounded | src/components/MediaPlayer.js:999-1003 | printing the rounded value again gives the same text, so normalising twice is the same as once |
| Decimal.NoDigitNoNumber | src/components/MediaPlayer.js:410-411 | every text without a digit, including the empty text, a lone sign and a lone point, is NaN to `parseFloat` |
| Decimal.NoDigitUnsigned | src/components/MediaPlayer.js:410 | no unsigned decimal is written without a digit |
| TimeText.FloorDiv | src/components/MediaPlayer.js:307 | `Math.floor(s / k)` equals the integer quotient of `Math.floor(s)` by k |
| TimeText.JsModFloor | src/components/MediaPlayer.js:308-309 | `Math.floor(s % k)` equals `Math.floor(s) % k` |
| TimeText.FormatTimeIsClockOfFloor | src/components/MediaPlayer.js:306-317 | `formatTime(s)` on real seconds is the `H:MM:SS` / `M:SS` clock of `floor(s)` |
| TimeText.SplitJoin | src/components/MediaPlayer.js:445 | colon-free fields joined by colons split back into exactly those fields |
| TimeText.SplitJoinTwo | src/components/MediaPlayer.js:445 | a digits:digits text splits into exactly its two parts |
| TimeText.SplitJoinThree | src/components/MediaPlayer.js:445 | a digits:digits:digits text splits into exactly its three parts |
| TimeText.ParseIntDigits | src/components/MediaPlayer.js:445 | `parseInt` of a digit string is its value |
| TimeText.PartsSecondsTwo | src/components/MediaPlayer.js:448-450 | two numeric parts give minutes·60 + seconds |
| TimeText.PartsSecondsThree | src/components/MediaPlayer.js:451-453 | three numeric parts give hours·3600 + minutes·60 + seconds |
| TimeText.JoinTwoReadsBack | src/components/MediaPlayer.js:445-450 | two digit fields joined by ':' read back as minutes·60 + seconds, from two parts |
| TimeText.JoinThreeReadsBack | src/components/MediaPlayer.js:445-453 | three digit fields joined by ':' read back as hours·3600 + minutes·60 + seconds, from three parts |
| TimeText.ClockFields | src/components/MediaPlayer.js:307-311 | hours, minutes and seconds recombine to n, and the hours field is 0 exactly below 3600 |
| TimeText.RenderReadsBack | src/components/MediaPlayer.js:306-317 | the text built from hours, minutes and seconds reads back as their weighted sum, from three parts iff hours > 0 |
| TimeText.HoursReadBack | src/components/MediaPlayer.js:310-314 | the `H:MM:SS` text reads back as its seconds, from three parts |
| TimeText.MinutesReadBack | src/components/MediaPlayer.js:316 | the `M:SS` text reads back as its seconds, from two parts |
| TimeText.TotalSecondsOfClock | src/components/VideoPlayer.js:199-210 | the duration parser reads a clock text back as exactly its seconds, from three parts iff n ≥ 3600 |
| TimeText.FormatTimeReadsBack | src/components/VideoPlayer.js:355-364 | parsing `formatTime(s)` gives `floor(s)`, less than one second below s |
| SpeedRange.StepUp | src/components/MediaPlayer.js:487-490 | the + button gives `min(16, rate + 0.25)`: never above 16, and in range and not lower for a rate in range |
| SpeedRange.StepDown | src/components/VideoPlayer.js:402-405 | the − button gives `max(0.1, rate − 0.25)`: never below 0.1, and in range and not higher for a rate in range |
| SpeedRange.StepsAtBounds | src/components/MediaPlayer.js:487-495 | 16 and 0.1 are fixed points, and a step up undoes a step down away from the bounds |
| SpeedRange.ValidSpeed | src/components/MediaPlayer.js:410-411 | a text is accepted iff `parseFloat` gives a number in [0.1, 16], and then its value |
| SpeedRange.RoundedInRange | src/components/MediaPlayer.js:999-1003 | rounding a speed in range to hundredths keeps it in range |
| SpeedRange.NormalizedTextStable | src/components/MediaPlayer.js:995-1008 | the blurred text is always a valid speed, and blurring again changes nothing |
| SpeedRange.PresetsExact | src/components/MediaPlayer.js:84 | every preset lies in range and its two-decimal text reads back as exactly the preset |
| SpeedRange.PresetsAscending | src/components/MediaPlayer.js:84 | the presets are strictly ascending |
| SpeedSession.RetargetedSynced | src/components/MediaPlayer.js:366-381 | after retargeting, the duration text reads back as duration / speed to within one second |
| SpeedSession.SpeedChosenRules | src/components/MediaPlayer.js:384-404 | a slider or preset choice sets the candidate and its text; with duration > 0 and speed > 0 the duration text reads back as duration / speed, otherwise it and the target time are untouched |
| SpeedSession.ChosenFieldMatchesLabel | src/components/MediaPlayer.js:1066-1076 | after a choice the duration field shows the same clock as the "Target Duration" label |
| SpeedSession.PresetClickSetsSpeed | src/components/MediaPlayer.js:362-382 | a preset click sets the candidate to exactly the preset, with text reading back as the preset, and syncs the duration text only when duration > 0 |
| SpeedSession.SpeedTextEditRules | src/components/MediaPlayer.js:406-431 | a speed-text edit stores the text verbatim; an invalid text changes nothing else; a valid one becomes the candidate and, with duration > 0, syncs the duration text |
| SpeedSession.MalformedSpeedText | src/components/MediaPlayer.js:410-411 | the text "abc" leaves the candidate speed unchanged |
| SpeedSession.QuotientBack | src/components/MediaPlayer.js:459 | the speed derived from a target of t seconds takes the duration back to t |
| SpeedSession.TargetEnteredRules | src/components/VideoPlayer.js:366-374 | a positive total moves the candidate iff duration / total is in range; VideoPlayer records any positive total; a non-positive total changes nothing |
| SpeedSession.TargetLabelReadsBack | src/components/MediaPlayer.js:1066-1076 | after a typed target moves the speed, the label reads back as exactly that target |
| SpeedSession.DurationTextEditRules | src/components/MediaPlayer.js:441-465 | a duration edit stores the text; a NaN part, another part count or a total ≤ 0 changes nothing else; an in-range quotient becomes the candidate and the text stays in sync, and an out-of-range one leaves the speed and its text alone; VideoPlayer records every positive total as the target time (src/components/VideoPlayer.js:366-374) |
| SpeedSession.DurationUnknownIsInert | src/components/MediaPlayer.js:457-463 | with the media duration 0, duration edits never move the candidate or its text |
| SpeedSession.SpeedBlurNormalizes | src/components/MediaPlayer.js:995-1008 | blur clears the focus flag, rewrites a valid text to two decimals or reverts an invalid one to the candidate, and is idempotent |
| SpeedSession.SpeedEnterOrRevert | src/components/VideoPlayer.js:330-340 | Enter leaves a text that reads back as the rounded candidate, and an invalid text leaves the candidate alone |
| SpeedSession.CloseGuard | src/components/MediaPlayer.js:351-360 | an open popover closes iff forced, or not focused and the reason is backdropClick/escapeKeyDown; nothing else changes |
| SpeedSession.ApplyCommitsInRange | src/components/MediaPlayer.js:433-439 | Apply hands over the candidate iff it is in [0.1, 16] and always closes |
| SpeedSession.OpenThenApply | src/components/VideoPlayer.js:237-243 | opening on a committed rate and applying at once hands back that rate |
| SpeedSession.SpaceClosesPopover | src/components/VideoPlayer.js:166-197 | while open, the space bar closes the popover iff the target is not a text/number input or text area |
| SpeedSession.MediaPlayerIgnoresTargetTime | src/components/MediaPlayer.js:344-465 | in MediaPlayer no event changes the target time |
| SpeedSession.StepKeepsRange | src/components/VideoPlayer.js:237-375 | every deliverable event keeps the candidate in [0.1, 16] |
| SpeedSession.RunKeepsRange | src/components/MediaPlayer.js:344-465 | any sequence of deliverable events keeps the candidate in range, so Apply then always hands it over |
| SpeedSession.ScenarioPreset | src/components/MediaPlayer.js:362-382 | with 120 s of media, preset 2 shows "2.00" and a target of "1:00" |
| SpeedSession.ScenarioTarget | src/components/MediaPlayer.js:441-465 | with 120 s of media, typing "2:00" sets the candidate to 1 and its text to "1.00" |
| SpeedSession.TwoMinutesReadBack | src/components/MediaPlayer.js:445-450 | "2:00" reads as 120 seconds |
| SpeedSession.SpeedPopover.constructor | src/components/VideoPlayer.js:50-63 | the cells start closed, on the given rate and its two-decimal text, with empty duration text |
| SpeedSession.SpeedPopover.LoadedMetadata | src/components/MediaPlayer.js:140 | `loadedmetadata` stores the media duration |
| SpeedSession.SpeedPopover.OpenPopover | src/components/MediaPlayer.js:344-349 | opening seeds the candidate and text from the rate, clears the duration text and, in VideoPlayer, the target time |
| SpeedSession.SpeedPopover.RequestClose | src/components/VideoPlayer.js:245-254 | the new state is the guarded close of the old one |
| SpeedSession.SpeedPopover.Retarget | src/components/VideoPlayer.js:261-276 | writes the formatted duration / speed and, in VideoPlayer, the target time |
| SpeedSession.SpeedPopover.ChooseSpeed | src/components/MediaPlayer.js:384-404 | the new state is the chosen-speed function of the old one |
| SpeedSession.SpeedPopover.PresetClick | src/components/MediaPlayer.js:362-382 | a preset click is a speed choice |
| SpeedSession.SpeedPopover.SliderChange | src/components/VideoPlayer.js:279-300 | a slider move is a speed choice |
| SpeedSession.SpeedPopover.SpeedTextChange | src/components/VideoPlayer.js:302-328 | the new state is the speed-text edit of the old one |
| SpeedSession.SpeedPopover.Apply | src/components/VideoPlayer.js:342-348 | returns the applied rate and force-closes |
| SpeedSession.SpeedPopover.SpeedKeyDown | src/components/MediaPlayer.js:474-485 | Ctrl/Cmd+Enter applies; a plain Enter adopts and normalises a valid text |
| SpeedSession.SpeedPopover.SpeedKeyPress | src/components/VideoPlayer.js:330-340 | Enter adopts a valid text or reverts an invalid one |
| SpeedSession.SpeedPopover.InputFocus | src/components/MediaPlayer.js:991-994 | focus or click on a field sets the focus flag |
| SpeedSession.SpeedPopover.SpeedBlur | src/components/VideoPlayer.js:738-751 | blur clears the flag and normalises the speed text |
| SpeedSession.SpeedPopover.EnterTarget | src/components/VideoPlayer.js:366-374 | a parsed total updates target time and candidate as the rules say |
| SpeedSession.SpeedPopover.DurationTextChange | src/components/VideoPlayer.js:350-375 | the new state is the duration-text edit of the old one |
| SpeedSession.SpeedPopover.DurationBlur | src/components/MediaPlayer.js:1049-1052 | blur of the duration field only clears the focus flag |
| SpeedSession.SpeedPopover.DurationKeyDown | src/components/MediaPlayer.js:467-472 | Ctrl/Cmd+Enter applies and closes |
| SpeedSession.SpeedPopover.DocumentKeyDown | src/components/MediaPlayer.js:273-304 | reports whether playback toggles and closes the popover exactly then |
| ControlsVisibility.Mounted | src/components/MediaPlayer.js:241-253 | after mounting, the state is valid, paused and shows the controls |
| ControlsVisibility.StepKeepsValid | src/components/MediaPlayer.js:241-253 | every event keeps "timer pending ⇒ playing" and "paused ⇒ controls shown" |
| ControlsVisibility.RunKeepsValid | src/components/VideoPlayer.js:133-146 | any event sequence keeps the state valid |
| ControlsVisibility.PausedAlwaysShows | src/components/MediaPlayer.js:241-253 | after mounting, paused media always shows its controls and has no pending timer |
| ControlsVisibility.HiddenOnlyWhilePlaying | src/components/MediaPlayer.js:510-518 | controls are hidden after an event only while playing |
| ControlsVisibility.MouseMoveShows | src/components/MediaPlayer.js:497-508 | a mouse move shows the controls and arms the single hide timer iff playing |
| ControlsVisibility.MoveThenTimerHides | src/components/VideoPlayer.js:407-418 | while playing, a mouse move followed by the timer hides the controls again |
| ControlsVisibility.PausedMoveStaysShown | src/components/MediaPlayer.js:497-508 | while paused, a mouse move and any number of timer ticks leave the controls shown |
| ControlsVisibility.TimersKeepPlaying | src/components/MediaPlayer.js:503-505 | timer ticks never change the playing flag |
| ControlsVisibility.PlayHidesAtOnce | src/components/MediaPlayer.js:250-252 | starting playback hides the controls at once and leaves a pending timer alone |
| ControlsVisibility.RepeatedPlayingIsInert | src/components/MediaPlayer.js:253 | a repeated play or pause event changes nothing, as the effect runs only on a change |
| ControlsVisibility.ContainerCursorHidden | src/components/MediaPlayer.js:532 | the container cursor is hidden iff the popover is closed and the controls hidden |
| ControlsVisibility.FullscreenCursorAgrees | src/components/MediaPlayer.js:256-271 | the fullscreen cursor effect, when it sets a cursor, agrees with the container rule, and sets one whenever the popover is open or the controls are hidden |
| ControlsVisibility.Controls.constructor | src/components/MediaPlayer.js:63 | the cells start in the mounted state |
| ControlsVisibility.Controls.SetPlaying | src/components/VideoPlayer.js:133-146 | the new state is the playing effect, run only on a change, and validity is kept |
| ControlsVisibility.Controls.HandleMouseMove | src/components/VideoPlayer.js:407-418 | shows the controls, re-arms the timer iff playing, keeps validity |
| ControlsVisibility.Controls.HandleMouseLeave | src/components/VideoPlayer.js:420-428 | hides only while playing, cancels the timer, keeps validity |
| ControlsVisibility.Controls.TimerFires | src/components/MediaPlayer.js:503-505 | a pending timer hides the controls and is spent |
| SpeedControl.CommitChoosesText | src/components/SpeedControl.js:69-78 | Apply emits the text's value when valid, else the slider's, and emits a rate in range when the slider's is |
| SpeedControl.BlurRoundsCommit | src/components/SpeedControl.js:170-181 | blur rounds what Apply would emit to hundredths and is idempotent |
| SpeedControl.EnterLeavesValidText | src/components/SpeedControl.js:56-67 | Enter leaves a text reading back as the rounded slider value, reverting an invalid text |
| SpeedControl.TextEditRules | src/components/SpeedControl.js:45-54 | a text edit stores the text and moves the slider only for a valid speed |
| SpeedControl.StepKeepsRange | src/components/SpeedControl.js:34-88 | every deliverable event keeps the slider in range and emits only rates in range |
| SpeedControl.RunKeepsRange | src/components/SpeedControl.js:24-88 | any sequence of deliverable events keeps the slider in range |
| SpeedControl.ClosingEvents | src/components/SpeedControl.js:34-38 | Apply and a preset click close the popover; the step buttons change no state |
| SpeedControl.SpeedWidget.constructor | src/components/SpeedControl.js:18-20 | the cells start closed on the value and its two-decimal text |
| SpeedControl.SpeedWidget.HandleClick | src/components/SpeedControl.js:24-28 | opening seeds the slider and text from the value |
| SpeedControl.SpeedWidget.HandleClose | src/components/SpeedControl.js:30-32 | closing changes only the open flag |
| SpeedControl.SpeedWidget.HandlePresetClick | src/components/SpeedControl.js:34-38 | a preset is emitted, becomes the slider value, and closes |
| SpeedControl.SpeedWidget.HandleSliderChange | src/components/SpeedControl.js:40-43 | the slider sets the value and its two-decimal text |
| SpeedControl.SpeedWidget.HandleTextChange | src/components/SpeedControl.js:45-54 | the new state is the text edit of the old one |
| SpeedControl.SpeedWidget.HandleKeyPress | src/components/SpeedControl.js:56-67 | Enter adopts a valid text or reverts an invalid one |
| SpeedControl.SpeedWidget.HandleBlur | src/components/SpeedControl.js:170-181 | blur normalises the text |
| SpeedControl.SpeedWidget.HandleCommit | src/components/SpeedControl.js:69-78 | emits the commit value and closes |
| App.ClampVolume | src/App.js:136 | the clamp lies in [0, 1] and is the identity there |
| App.AdjustVolumeRules | src/App.js:135-143 | a volume step stays in [0, 1], mutes iff it lands on 0, the player hears exactly the new volume, and nothing else changes |
| App.SliderMuteCoupling | src/App.js:302-305 | the slider mutes iff its value is 0, so the player hears the slider's value |
| App.UnmuteAtZeroIsSilent | src/App.js:131-133 | unmuting at volume 0 leaves the player silent |
| App.TogglesInvolutive | src/App.js:106-133 | mute and play toggles undo themselves |
| App.FileOpenResets | src/App.js:155-175 | an opened path becomes the whole playlist and current item; a cancelled dialog changes nothing |
| App.VideoEndedRules | src/App.js:209-216 | at media end the next item loads, or after the last item playback stops with the index unchanged; validity is kept |
| App.EndedTimesAdvances | src/App.js:209-216 | n ends in a row land on item min(i + n, last), and playback has stopped once the last has ended |
| App.PerformKeepsValid | src/App.js:66-99 | every shortcut's effect keeps volume in [0, 1] and the current item loaded |
| App.HandlersKeepValid | src/App.js:66-216 | every shortcut and handler keeps volume in [0, 1] and the current item loaded |
| App.KeyTable | src/App.js:66-99 | each code in the switch has its handler's whole effect: space toggles playback, F fullscreen, M the mute, arrows seek by −10/+10 s and move the volume by ±0.1; INPUT targets and every other code leave the state unchanged |
| App.StopRewinds | src/App.js:117-123 | stop rewinds to 0 and pauses, changing nothing else |
| App.AppState.constructor | src/App.js:44-51 | the cells start empty, paused, at full volume and rate 1 |
| App.AppState.AdjustVolume | src/App.js:135-143 | the new state is the volume step of the old one |
| App.AppState.SlideVolume | src/App.js:302-305 | the slider sets volume and mute |
| App.AppState.ToggleMute | src/App.js:131-133 | flips mute |
| App.AppState.TogglePlayPause | src/App.js:106-115 | flips playing once a video is loaded |
| App.AppState.StopVideo | src/App.js:117-123 | rewinds and pauses once a video is loaded |
| App.AppState.Skip | src/App.js:125-129 | moves the current time by the given seconds once a video is loaded |
| App.AppState.ToggleFullscreen | src/App.js:145-153 | fullscreen becomes the opposite of whether an element is fullscreen |
| App.AppState.HandleFileOpen | src/App.js:155-175 | replaces the playlist with an opened path |
| App.AppState.HandlePlaylistItemClick | src/App.js:197-200 | selects the clicked item |
| App.AppState.HandleSpeedChange | src/App.js:202-207 | stores the new rate |
| App.AppState.HandleVideoEnded | src/App.js:209-216 | advances or stops at media end |
| App.AppState.SetPlaying | src/App.js:235-236 | the player's play/pause callbacks set the flag |
| App.AppState.HandleKeyPress | src/App.js:64-104 | the new state is the shortcut's effect on the old one |
| MainProcess.ToLower | electron/main.js:38 | lower-casing keeps the length and lowers each ASCII letter |
| MainProcess.EndsWithAny | electron/main.js:37-38 | `.some(endsWith)` holds iff some extension is a suffix |
| MainProcess.Find | electron/main.js:148 | `find` returns the first element satisfying the test, or nothing iff none does |
| MainProcess.ExtensionsLowerCase | electron/main.js:37 | every listed extension is lower case |
| MainProcess.LowerKeepsSuffix | electron/main.js:38 | lower-casing keeps a lower-case suffix |
| MainProcess.SuffixIsVideoFile | electron/main.js:16-39 | what the launch scan accepts, `isVideoFile` accepts |
| MainProcess.UpperIsVideoFile | electron/main.js:37-38 | "clip.MP4" is a video file to `isVideoFile` |
| MainProcess.UpperHasNoSuffix | electron/main.js:19-28 | "clip.MP4" has none of the extensions as a case-sensitive suffix |
| MainProcess.UpperCaseExtension | electron/main.js:19-28 | "clip.MP4" is a video file to `isVideoFile` but is passed over at launch |
| MainProcess.LaunchSkipsExecutable | electron/main.js:17 | the executable's own path is never the launch video |
| MainProcess.LaunchPathFirst | electron/main.js:18-32 | the launch path is the first later argument with a video suffix |
| MainProcess.MainState.constructor | electron/main.js:12-13 | no launch path, no window, nothing sent |
| MainProcess.MainState.HandleCommandLineArguments | electron/main.js:16-33 | the loop stores the first matching argument and otherwise keeps the stored path |
| MainProcess.MainState.OpenFile | electron/main.js:114-130 | a non-video path changes nothing; a video goes to the window if open, else becomes the launch path |
| MainProcess.MainState.SecondInstance | electron/main.js:139-156 | with a window, the first video on the command line is sent, and nothing is sent otherwise |
| Playlist.LastSegment | src/components/Playlist.js:18 | the result is a separator-free suffix preceded by a separator or the start |
| Playlist.LastSegmentNoSeparator | src/components/Playlist.js:18 | a path without separators is its own last segment |
| Playlist.LastSegmentAfter | src/components/Playlist.js:18 | what follows the last separator is the last segment |
| Playlist.FileNameAfterSeparator | src/components/Playlist.js:17-19 | `dir/name` and `dir\name` both show as name |
| Playlist.FileNameFallback | src/components/Playlist.js:18 | a path ending in a separator, or without one, shows whole, and never as empty |
| Playlist.PadStart2 | src/components/Playlist.js:25 | `padStart(2, "0")` is at least two long and ends with its input |
| Playlist.PadStartNat | src/components/Playlist.js:25 | on whole numbers below 100 it agrees with the clock padding |
| Playlist.FormatDurationPositive | src/components/Playlist.js:21-26 | a positive duration shows as whole minutes and padded whole seconds of its floor |
| Playlist.FormatDurationMatchesClock | src/components/Playlist.js:21-26 | below an hour the label equals the players' clock |
| Playlist.DurationFields | src/components/Playlist.js:23-24 | `Math.floor(d / 60)` and `Math.floor(d % 60)` are the quotient and remainder of `floor(d)` by 60 |
| Playlist.MinutesTextReadsBack | src/components/Playlist.js:23-25 | the joined whole minutes and padded seconds of n read back as n |
| Playlist.FormatDurationReadsBack | src/components/Playlist.js:21-26 | the label reads back as the whole seconds, with minutes unbounded |
| Playlist.FormatDurationPlaceholder | src/components/Playlist.js:22 | missing, NaN and zero durations show "--:--" |
| Playlist.NowPlayingUnique | src/components/Playlist.js:74-90 | exactly the current row is now playing and selected, and an index outside the list marks none |
| Playlist.TrackCaptions | src/components/Playlist.js:101-103 | row i is titled by its file name and captioned "Track i+1" |
| Playlist.FooterPlural | src/components/Playlist.js:122 | the footer is singular iff the count is 1 |
| MediaTitle.TailRun | src/components/MediaPlayer.js:102 | the longest suffix free of `/` and `.` |
| MediaTitle.StripExtension | src/components/MediaPlayer.js:227 | the result is a prefix of the name |
| MediaTitle.StripMatchesPattern | src/components/MediaPlayer.js:102 | the replacement removes exactly the match of `\.[^/.]+$`, and nothing when there is none |
| MediaTitle.StripOneExtension | src/components/MediaPlayer.js:227 | base + "." + ext becomes base |
| MediaTitle.StripExamples | src/components/MediaPlayer.js:116 | only the last extension goes; a trailing dot or no dot keeps the name |
| MediaTitle.HiddenFileLosesName | src/components/MediaPlayer.js:102 | ".bashrc" becomes the empty title |

## Left out

- Numbers are mathematical reals, not IEEE doubles. Rounding error in `duration / speed` and in `volume + 0.1` is not modelled.
- `toFixed(2)` is the exact half-up rounding of a real. Its exponent form for huge values is not modelled, nor the binary-representation effects of the double being rounded.
- `parseFloat` and `parseInt` accept only a whole decimal text: an optional sign, then digits, then for `parseFloat` an optional fraction, with at least one digit. Prefix parses such as `parseFloat("1.5x") = 1.5`, exponents, `Infinity`, hexadecimal and leading white space are left out. Anything outside the grammar is NaN (`None`).
- `toLowerCase` lowers ASCII letters only.
- Timers are the flag `hidePending` plus an explicit `TimerFires` event. Wall-clock time is not modelled, so neither is the 3000 ms delay.
- The media element is not modelled: playing, pausing, seeking, `loadedmetadata` values, buffering, and the host's clamping of `currentTime` to the media length. `App.AppState.Skip` adds the offset without clamping.
- The DOM and the fullscreen API are not modelled. `document.fullscreenElement` is a parameter, and the fullscreen cursor effect is the pure `ControlsVisibility.FullscreenCursor`.
- Audio metadata extraction is not modelled: `fetch`, `music-metadata`, object URLs and the snackbar. Only the title's extension strip and its fallback are kept.
- The Electron shell is not modelled: window creation, IPC, dialogs, the single-instance lock, `window.focus`/`restore`, console logging, and the folder-open handler.
- Native dialogs are not modelled; the dialog's answer is a parameter of `App.AppState.HandleFileOpen`.
- Ctrl/Cmd+Enter in a text field also bubbles to the popover paper's own handler, so the same rate is applied twice. The model applies it once.
- The Popover passes `disableEscapeKeyDown`, so the `escapeKeyDown` reason never arrives in practice. The guard is modelled as written.
- SpeedSession.SpeedPopover.SpeedKeyPress: modelled for VideoPlayer only, where the handler exists. It is not attached to any field there.
- Rendering, styling, positioning, `SettingsDialog` and the build scripts are not modelled.
