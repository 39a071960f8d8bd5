/**
 * The application shell (App.js): the playlist with its current index, the
 * playing flag, volume and mute, fullscreen, the committed playback rate, the
 * media element's current time, and the window-level keyboard shortcuts.
 *
 * `videoRef.current` exists exactly while a video is loaded, because the
 * player is rendered only then; the guards on it are `currentVideo.Some?`.
 * `document.fullscreenElement` is the parameter `fullscreenActive`.
 */
module App {
  import opened Wrappers

  datatype Shell = Shell(
    currentVideo: Option<string>,
    playlist: seq<string>,
    currentIndex: nat,
    isPlaying: bool,
    volume: real,
    isMuted: bool,
    isFullscreen: bool,
    playbackRate: real,
    currentTime: real)  // the media element's `currentTime`

  /** What a shortcut key does. */
  datatype Command =
    | TogglePlay
    | ToggleFullscreen
    | ToggleMute
    | Skip(seconds: real)
    | AdjustVolume(delta: real)

  function Initial(): Shell {
    Shell(None, [], 0, false, 1.0, false, false, 1.0, 0.0)
  }

  /** Volume lies in [0, 1], and a non-empty playlist has its current item loaded. */
  predicate Valid(m: Shell) {
    && 0.0 <= m.volume <= 1.0
    && (|m.playlist| > 0 ==> m.currentIndex < |m.playlist| && m.currentVideo == Some(m.playlist[m.currentIndex]))
  }

  /** `Math.max(0, Math.min(1, x))`. */
  function ClampVolume(x: real): (r: real)
    ensures 0.0 <= r <= 1.0
    ensures 0.0 <= x <= 1.0 ==> r == x
    ensures x <= 0.0 ==> r == 0.0
    ensures x >= 1.0 ==> r == 1.0
  {
    if 1.0 < x then 1.0 else if x < 0.0 then 0.0 else x
  }

  /** The volume the player actually receives. */
  function EffectiveVolume(m: Shell): real {
    if m.isMuted then 0.0 else m.volume
  }

  function VolumeAdjusted(m: Shell, delta: real): Shell {
    var v := ClampVolume(m.volume + delta);
    m.(volume := v, isMuted := if v == 0.0 then true else if m.isMuted then false else m.isMuted)
  }

  function VolumeSlid(m: Shell, value: real): Shell {
    m.(volume := value, isMuted := value == 0.0)
  }

  function MuteToggled(m: Shell): Shell {
    m.(isMuted := !m.isMuted)
  }

  function PlayToggled(m: Shell): Shell {
    if m.currentVideo.Some? then m.(isPlaying := !m.isPlaying) else m
  }

  function Stopped(m: Shell): Shell {
    if m.currentVideo.Some? then m.(currentTime := 0.0, isPlaying := false) else m
  }

  function Skipped(m: Shell, seconds: real): Shell {
    if m.currentVideo.Some? then m.(currentTime := m.currentTime + seconds) else m
  }

  function FullscreenToggled(m: Shell, fullscreenActive: bool): Shell {
    m.(isFullscreen := !fullscreenActive)
  }

  /** The open-file dialog's answer: `None` when cancelled; an empty path is falsy too. */
  function FileOpened(m: Shell, path: Option<string>): Shell {
    match path
    case Some(p) => if p != "" then m.(currentVideo := Some(p), playlist := [p], currentIndex := 0) else m
    case None => m
  }

  function ItemClicked(m: Shell, index: nat): Shell
    requires index < |m.playlist|
  {
    m.(currentIndex := index, currentVideo := Some(m.playlist[index]))
  }

  function SpeedChanged(m: Shell, rate: real): Shell {
    m.(playbackRate := rate)
  }

  function VideoEnded(m: Shell): Shell {
    if m.currentIndex < |m.playlist| - 1 then
      m.(currentIndex := m.currentIndex + 1, currentVideo := Some(m.playlist[m.currentIndex + 1]))
    else
      m.(isPlaying := false)
  }

  /** The shortcut table: keys typed into an INPUT are ignored, as are codes not in the table. */
  function KeyCommand(code: string, tagName: string): Option<Command> {
    if tagName == "INPUT" then None
    else if code == "Space" then Some(TogglePlay)
    else if code == "KeyF" then Some(ToggleFullscreen)
    else if code == "KeyM" then Some(ToggleMute)
    else if code == "ArrowLeft" then Some(Skip(-10.0))
    else if code == "ArrowRight" then Some(Skip(10.0))
    else if code == "ArrowUp" then Some(AdjustVolume(0.1))
    else if code == "ArrowDown" then Some(AdjustVolume(-0.1))
    else None
  }

  function Perform(m: Shell, c: Command, fullscreenActive: bool): Shell {
    match c
    case TogglePlay => PlayToggled(m)
    case ToggleFullscreen => FullscreenToggled(m, fullscreenActive)
    case ToggleMute => MuteToggled(m)
    case Skip(seconds) => Skipped(m, seconds)
    case AdjustVolume(delta) => VolumeAdjusted(m, delta)
  }

  function KeyPressed(m: Shell, code: string, tagName: string, fullscreenActive: bool): Shell {
    match KeyCommand(code, tagName)
    case Some(c) => Perform(m, c, fullscreenActive)
    case None => m
  }

  /** `n` media ends in a row. */
  function EndedTimes(m: Shell, n: nat): Shell
    decreases n
  {
    if n == 0 then m else EndedTimes(VideoEnded(m), n - 1)
  }

  // ---------------------------------------------------------------- properties

  /**
   * A volume step stays in [0, 1], mutes exactly when it lands on 0, and the
   * player then hears exactly the new volume, muted or not.
   */
  lemma AdjustVolumeRules(m: Shell, delta: real)
    ensures var r := VolumeAdjusted(m, delta);
      && 0.0 <= r.volume <= 1.0
      && (r.isMuted <==> r.volume == 0.0)
      && EffectiveVolume(r) == r.volume
      && (0.0 <= m.volume + delta <= 1.0 ==> r.volume == m.volume + delta)
      && r.(volume := m.volume, isMuted := m.isMuted) == m
  {
  }

  /** Moving the slider mutes exactly at 0, so the player hears what the slider shows. */
  lemma SliderMuteCoupling(m: Shell, value: real)
    ensures (VolumeSlid(m, value).isMuted <==> value == 0.0)
    ensures EffectiveVolume(VolumeSlid(m, value)) == value
  {
  }

  /** The mute button unmutes at volume 0 without raising it, so the player stays silent. */
  lemma UnmuteAtZeroIsSilent(m: Shell)
    requires m.isMuted && m.volume == 0.0
    ensures !MuteToggled(m).isMuted && EffectiveVolume(MuteToggled(m)) == 0.0
  {
  }

  /** The toggles are involutions. */
  lemma TogglesInvolutive(m: Shell)
    ensures MuteToggled(MuteToggled(m)) == m
    ensures PlayToggled(PlayToggled(m)) == m
  {
  }

  /** Opening a file makes it the whole playlist and the current item; a cancelled dialog changes nothing. */
  lemma FileOpenResets(m: Shell, p: string)
    requires p != ""
    ensures var r := FileOpened(m, Some(p));
      r.playlist == [p] && r.currentIndex == 0 && r.currentVideo == Some(p) && Valid(r) == (0.0 <= m.volume <= 1.0)
    ensures FileOpened(m, None) == m
  {
  }

  /**
   * At the end of a video the next playlist item loads, keeping the playing
   * flag; after the last item playback stops and the index stays.
   */
  lemma VideoEndedRules(m: Shell)
    requires Valid(m)
    ensures var r := VideoEnded(m);
      && Valid(r)
      && (m.currentIndex + 1 < |m.playlist| ==>
            r.currentIndex == m.currentIndex + 1 && r.currentVideo == Some(m.playlist[m.currentIndex + 1])
            && r.isPlaying == m.isPlaying)
      && (m.currentIndex + 1 >= |m.playlist| ==> r == m.(isPlaying := false))
  {
  }

  /**
   * From item `i`, `n` ends in a row land on item `min(i + n, last)`; once
   * the last item has ended, playback has stopped.
   */
  lemma {:induction false} EndedTimesAdvances(m: Shell, n: nat)
    requires Valid(m) && |m.playlist| > 0
    ensures var r := EndedTimes(m, n);
      && Valid(r) && r.playlist == m.playlist
      && r.currentIndex == (if m.currentIndex + n < |m.playlist| then m.currentIndex + n else |m.playlist| - 1)
      && (m.currentIndex + n >= |m.playlist| ==> !r.isPlaying)
    decreases n
  {
    if n > 0 {
      VideoEndedRules(m);
      EndedTimesAdvances(VideoEnded(m), n - 1);
    }
  }

  /** Every shortcut and handler keeps the shell valid (the slider delivers values in [0, 1], clicks valid indices). */
  lemma HandlersKeepValid(m: Shell, code: string, tagName: string, fullscreenActive: bool, p: Option<string>, rate: real)
    requires Valid(m)
    ensures Valid(KeyPressed(m, code, tagName, fullscreenActive))
    ensures Valid(FileOpened(m, p)) && Valid(Stopped(m)) && Valid(SpeedChanged(m, rate))
    ensures forall i: nat :: i < |m.playlist| ==> Valid(ItemClicked(m, i))
    ensures forall v :: 0.0 <= v <= 1.0 ==> Valid(VolumeSlid(m, v))
  {
    match KeyCommand(code, tagName)
    case Some(c) => PerformKeepsValid(m, c, fullscreenActive);
    case None =>
  }

  /** Each command the shortcut table can issue keeps the shell valid. */
  lemma PerformKeepsValid(m: Shell, c: Command, fullscreenActive: bool)
    requires Valid(m)
    ensures Valid(Perform(m, c, fullscreenActive))
  {
    match c
    case AdjustVolume(delta) => AdjustVolumeRules(m, delta);
    case _ =>
  }

  /**
   * The shortcut table: space toggles playback, F fullscreen and M the mute;
   * arrows left/right seek by 10 seconds and up/down move the volume by a
   * tenth; any other code, and anything typed into an INPUT, does nothing.
   */
  lemma KeyTable(m: Shell, fullscreenActive: bool, code: string, tagName: string)
    ensures KeyPressed(m, code, "INPUT", fullscreenActive) == m
    ensures KeyPressed(m, "Space", "BODY", fullscreenActive) == PlayToggled(m)
    ensures KeyPressed(m, "KeyF", "BODY", fullscreenActive) == FullscreenToggled(m, fullscreenActive)
    ensures KeyPressed(m, "KeyM", "BODY", fullscreenActive) == MuteToggled(m)
    ensures KeyPressed(m, "ArrowLeft", "BODY", fullscreenActive) == Skipped(m, -10.0)
    ensures KeyPressed(m, "ArrowRight", "BODY", fullscreenActive) == Skipped(m, 10.0)
    ensures KeyPressed(m, "ArrowUp", "BODY", fullscreenActive) == VolumeAdjusted(m, 0.1)
    ensures KeyPressed(m, "ArrowDown", "BODY", fullscreenActive) == VolumeAdjusted(m, -0.1)
    ensures m.currentVideo.Some? ==>
      KeyPressed(m, "ArrowLeft", "BODY", fullscreenActive).currentTime == m.currentTime - 10.0 &&
      KeyPressed(m, "ArrowRight", "BODY", fullscreenActive).currentTime == m.currentTime + 10.0
    ensures KeyPressed(m, "KeyF", "BODY", fullscreenActive).isFullscreen == !fullscreenActive
    ensures tagName != "INPUT" && code !in ShortcutCodes ==> KeyPressed(m, code, tagName, fullscreenActive) == m
  {
  }

  /** The codes the shortcut switch handles. */
  const ShortcutCodes: set<string> := {"Space", "KeyF", "KeyM", "ArrowLeft", "ArrowRight", "ArrowUp", "ArrowDown"}

  /** Stop rewinds and pauses whatever was playing, once a video is loaded. */
  lemma StopRewinds(m: Shell)
    requires m.currentVideo.Some?
    ensures Stopped(m).currentTime == 0.0 && !Stopped(m).isPlaying
    ensures Stopped(m).(currentTime := m.currentTime, isPlaying := m.isPlaying) == m
  {
  }

  /** App's state cells, updated in place by its handlers. */
  class AppState {
    var currentVideo: Option<string>
    var playlist: seq<string>
    var currentIndex: nat
    var isPlaying: bool
    var volume: real
    var isMuted: bool
    var isFullscreen: bool
    var playbackRate: real
    var currentTime: real

    function Model(): Shell
      reads this
    {
      Shell(currentVideo, playlist, currentIndex, isPlaying, volume, isMuted, isFullscreen, playbackRate, currentTime)
    }

    constructor ()
      ensures Model() == Initial() && Valid(Model())
    {
      currentVideo := None;
      playlist := [];
      currentIndex := 0;
      isPlaying := false;
      volume := 1.0;
      isMuted := false;
      isFullscreen := false;
      playbackRate := 1.0;
      currentTime := 0.0;
    }

    method AdjustVolume(delta: real)
      modifies this
      ensures Model() == VolumeAdjusted(old(Model()), delta)
    {
      var newVolume := if 1.0 < volume + delta then 1.0 else if volume + delta < 0.0 then 0.0 else volume + delta;
      volume := newVolume;
      if newVolume == 0.0 {
        isMuted := true;
      } else if isMuted {
        isMuted := false;
      }
    }

    /** The volume slider's onChange. */
    method SlideVolume(value: real)
      modifies this
      ensures Model() == VolumeSlid(old(Model()), value)
    {
      volume := value;
      isMuted := value == 0.0;
    }

    method ToggleMute()
      modifies this
      ensures Model() == MuteToggled(old(Model()))
    {
      isMuted := !isMuted;
    }

    method TogglePlayPause()
      modifies this
      ensures Model() == PlayToggled(old(Model()))
    {
      if currentVideo.Some? {
        isPlaying := !isPlaying;
      }
    }

    method StopVideo()
      modifies this
      ensures Model() == Stopped(old(Model()))
    {
      if currentVideo.Some? {
        currentTime := 0.0;
        isPlaying := false;
      }
    }

    method Skip(seconds: real)
      modifies this
      ensures Model() == Skipped(old(Model()), seconds)
    {
      if currentVideo.Some? {
        currentTime := currentTime + seconds;
      }
    }

    method ToggleFullscreen(fullscreenActive: bool)
      modifies this
      ensures Model() == FullscreenToggled(old(Model()), fullscreenActive)
    {
      if !fullscreenActive {
        isFullscreen := true;
      } else {
        isFullscreen := false;
      }
    }

    /** The open-file dialog has answered `path`. */
    method HandleFileOpen(path: Option<string>)
      modifies this
      ensures Model() == FileOpened(old(Model()), path)
    {
      if path.Some? && path.value != "" {
        currentVideo := path;
        playlist := [path.value];
        currentIndex := 0;
      }
    }

    method HandlePlaylistItemClick(index: nat)
      requires index < |playlist|
      modifies this
      ensures Model() == ItemClicked(old(Model()), index)
    {
      currentIndex := index;
      currentVideo := Some(playlist[index]);
    }

    method HandleSpeedChange(rate: real)
      modifies this
      ensures Model() == SpeedChanged(old(Model()), rate)
    {
      playbackRate := rate;
    }

    method HandleVideoEnded()
      modifies this
      ensures Model() == VideoEnded(old(Model()))
    {
      if currentIndex < |playlist| - 1 {
        currentIndex := currentIndex + 1;
        currentVideo := Some(playlist[currentIndex]);
      } else {
        isPlaying := false;
      }
    }

    /** The player's `onPlay` / `onPause` callbacks. */
    method SetPlaying(playing: bool)
      modifies this
      ensures Model() == old(Model()).(isPlaying := playing)
    {
      isPlaying := playing;
    }

    /** The window keydown listener. */
    method HandleKeyPress(code: string, tagName: string, fullscreenActive: bool)
      modifies this
      ensures Model() == KeyPressed(old(Model()), code, tagName, fullscreenActive)
    {
      var command := KeyCommand(code, tagName);
      match command
      case None =>
      case Some(TogglePlay) => TogglePlayPause();
      case Some(ToggleFullscreen) => ToggleFullscreen(fullscreenActive);
      case Some(ToggleMute) => ToggleMute();
      case Some(Skip(seconds)) => Skip(seconds);
      case Some(AdjustVolume(delta)) => AdjustVolume(delta);
    }
  }
}
