/**
 * The Electron main process's routing of video paths: recognising a video
 * file by its extension, picking the video named on the command line at
 * launch, and forwarding paths that arrive through macOS `open-file` or a
 * second launched instance to the window.
 */
module MainProcess {
  import opened Wrappers

  const VideoExtensions: seq<string> := [".mp4", ".avi", ".mkv", ".mov", ".wmv", ".flv", ".webm", ".m4v"]

  predicate EndsWith(s: string, suffix: string) {
    |suffix| <= |s| && s[|s| - |suffix|..] == suffix
  }

  /** `toLowerCase` on ASCII letters; other characters are kept. */
  function LowerChar(c: char): char {
    if 'A' <= c <= 'Z' then (c as int - 'A' as int + 'a' as int) as char else c
  }

  function ToLower(s: string): (r: string)
    ensures |r| == |s|
    ensures forall i :: 0 <= i < |s| ==> r[i] == LowerChar(s[i])
  {
    seq(|s|, i requires 0 <= i < |s| => LowerChar(s[i]))
  }

  /** `exts.some(ext => s.endsWith(ext))`. */
  function EndsWithAny(s: string, exts: seq<string>): (r: bool)
    ensures r <==> exists i :: 0 <= i < |exts| && EndsWith(s, exts[i])
  {
    if exts == [] then false
    else if EndsWith(s, exts[0]) then true
    else
      var rest := EndsWithAny(s, exts[1..]);
      assert forall i :: 1 <= i < |exts| ==> exts[i] == exts[1..][i - 1];
      rest
  }

  /** `isVideoFile`: the lower-cased path ends with one of the video extensions. */
  predicate IsVideoFile(path: string) {
    EndsWithAny(ToLower(path), VideoExtensions)
  }

  /** The test `handleCommandLineArguments` applies: the same extensions, matched case-sensitively. */
  predicate HasVideoSuffix(arg: string) {
    EndsWithAny(arg, VideoExtensions)
  }

  /** `Array.prototype.find`: the first element satisfying `p`, if any. */
  function Find(xs: seq<string>, p: string -> bool): (r: Option<string>)
    ensures r.None? <==> forall i :: 0 <= i < |xs| ==> !p(xs[i])
    ensures r.Some? ==> exists i :: 0 <= i < |xs| && xs[i] == r.value && p(xs[i]) && forall j :: 0 <= j < i ==> !p(xs[j])
  {
    if xs == [] then None
    else if p(xs[0]) then Some(xs[0])
    else
      var r := Find(xs[1..], p);
      assert forall i :: 1 <= i < |xs| ==> xs[i] == xs[1..][i - 1];
      if r.Some? then
        var k :| 0 <= k < |xs[1..]| && xs[1..][k] == r.value && p(xs[1..][k]) && forall j :: 0 <= j < k ==> !p(xs[1..][j]);
        assert xs[k + 1] == r.value;
        r
      else r
  }

  /** `process.argv.slice(1)`: everything after the executable. */
  function Arguments(argv: seq<string>): (args: seq<string>)
    ensures |argv| > 0 ==> args == argv[1..]
    ensures |argv| == 0 ==> args == []
  {
    if |argv| == 0 then [] else argv[1..]
  }

  /** The path `handleCommandLineArguments` leaves in `initialVideoPath`. */
  function LaunchPath(argv: seq<string>, initial: Option<string>): Option<string> {
    match Find(Arguments(argv), HasVideoSuffix)
    case Some(arg) => Some(arg)
    case None => initial
  }

  // ---------------------------------------------------------------- properties

  /** Every listed extension is already lower case. */
  lemma ExtensionsLowerCase()
    ensures forall i :: 0 <= i < |VideoExtensions| ==> ToLower(VideoExtensions[i]) == VideoExtensions[i]
  {
    forall i | 0 <= i < |VideoExtensions|
      ensures ToLower(VideoExtensions[i]) == VideoExtensions[i]
    {
      var e := VideoExtensions[i];
      assert forall k :: 0 <= k < |e| ==> LowerChar(e[k]) == e[k];
    }
  }

  /** Lower-casing a string that ends with a lower-case suffix keeps that suffix. */
  lemma LowerKeepsSuffix(s: string, e: string)
    requires EndsWith(s, e) && ToLower(e) == e
    ensures EndsWith(ToLower(s), e)
  {
    var t := ToLower(s);
    var d := |s| - |e|;
    forall k | 0 <= k < |e|
      ensures t[d..][k] == e[k]
    {
      assert s[d..][k] == e[k];
      assert t[d + k] == LowerChar(s[d + k]) == LowerChar(e[k]) == ToLower(e)[k];
    }
  }

  /** What the launch path accepts, `isVideoFile` accepts too. */
  lemma {:induction false} SuffixIsVideoFile(arg: string)
    requires HasVideoSuffix(arg)
    ensures IsVideoFile(arg)
  {
    var i :| 0 <= i < |VideoExtensions| && EndsWith(arg, VideoExtensions[i]);
    ExtensionsLowerCase();
    LowerKeepsSuffix(arg, VideoExtensions[i]);
  }

  /**
   * The converse fails: an upper-case extension is a video file for
   * `open-file` and a second instance, but is passed over at launch.
   */
  lemma UpperCaseExtension()
    ensures IsVideoFile("clip.MP4") && !HasVideoSuffix("clip.MP4")
    ensures LaunchPath(["player", "clip.MP4"], None) == None
  {
    UpperIsVideoFile();
    UpperHasNoSuffix();
    assert Arguments(["player", "clip.MP4"]) == ["clip.MP4"];
  }

  lemma UpperIsVideoFile()
    ensures IsVideoFile("clip.MP4")
  {
    var lower := ToLower("clip.MP4");
    assert lower == "clip.mp4";
    assert EndsWith(lower, VideoExtensions[0]);
  }

  lemma UpperHasNoSuffix()
    ensures !HasVideoSuffix("clip.MP4")
  {
    assert !EndsWith("clip.MP4", VideoExtensions[0]) by {
      assert "clip.MP4"[5] != ".mp4"[1];
    }
    assert "clip.MP4"[4..] == ".MP4";
    assert !EndsWith("clip.MP4", VideoExtensions[3]) by {
      assert "clip.MP4"[6] != ".mov"[2];
    }
    assert !EndsWith("clip.MP4", VideoExtensions[7]) by {
      assert "clip.MP4"[5] != ".m4v"[1];
    }
  }

  /** The executable's own path is never taken as the launch video, even if it looks like one. */
  lemma LaunchSkipsExecutable(exe: string, initial: Option<string>)
    ensures LaunchPath([exe], initial) == initial
  {
  }

  /** The launch path is the first later argument with a video suffix; with none, the stored path stays. */
  lemma LaunchPathFirst(argv: seq<string>, initial: Option<string>, k: nat)
    requires 0 < k < |argv| && HasVideoSuffix(argv[k])
    requires forall j :: 0 < j < k ==> !HasVideoSuffix(argv[j])
    ensures LaunchPath(argv, initial) == Some(argv[k])
  {
    var args := Arguments(argv);
    assert args[k - 1] == argv[k];
    assert forall j :: 0 <= j < k - 1 ==> !HasVideoSuffix(args[j]) by {
      forall j | 0 <= j < k - 1 ensures !HasVideoSuffix(args[j]) {
        assert args[j] == argv[j + 1];
      }
    }
  }

  /** The main process's mutable state: the launch path, whether the window exists, and what was sent to it. */
  class MainState {
    var initialVideoPath: Option<string>
    var windowOpen: bool
    var sent: seq<string>  // the "open-video-file" messages, oldest first

    constructor ()
      ensures initialVideoPath == None && !windowOpen && sent == []
    {
      initialVideoPath := None;
      windowOpen := false;
      sent := [];
    }

    method HandleCommandLineArguments(argv: seq<string>)
      modifies this
      ensures initialVideoPath == LaunchPath(argv, old(initialVideoPath))
      ensures windowOpen == old(windowOpen) && sent == old(sent)
    {
      var args := Arguments(argv);
      var i := 0;
      while i < |args|
        invariant 0 <= i <= |args|
        invariant forall j :: 0 <= j < i ==> !HasVideoSuffix(args[j])
        invariant initialVideoPath == old(initialVideoPath)
      {
        if HasVideoSuffix(args[i]) {
          initialVideoPath := Some(args[i]);
          break;
        }
        i := i + 1;
      }
    }

    method OpenFile(path: string)
      modifies this
      ensures !IsVideoFile(path) ==> initialVideoPath == old(initialVideoPath) && sent == old(sent)
      ensures IsVideoFile(path) && windowOpen ==> sent == old(sent) + [path] && initialVideoPath == old(initialVideoPath)
      ensures IsVideoFile(path) && !windowOpen ==> initialVideoPath == Some(path) && sent == old(sent)
      ensures windowOpen == old(windowOpen)
    {
      if IsVideoFile(path) {
        if windowOpen {
          sent := sent + [path];
        } else {
          initialVideoPath := Some(path);
        }
      }
    }

    method SecondInstance(commandLine: seq<string>)
      modifies this
      ensures windowOpen && Find(commandLine, IsVideoFile).Some? ==> sent == old(sent) + [Find(commandLine, IsVideoFile).value]
      ensures !windowOpen || Find(commandLine, IsVideoFile).None? ==> sent == old(sent)
      ensures windowOpen == old(windowOpen) && initialVideoPath == old(initialVideoPath)
    {
      if windowOpen {
        var videoPath := Find(commandLine, IsVideoFile);
        if videoPath.Some? {
          sent := sent + [videoPath.value];
        }
      }
    }
  }
}
