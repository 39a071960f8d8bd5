/**
 * The playlist panel: each row shows the file name of its path, a
 * "Track n" caption, and a "Now Playing" chip plus the selected style on the
 * current row; the footer counts the videos. `formatDuration` is the
 * panel's minutes-and-seconds label (defined there, though no row shows it).
 */
module Playlist {
  import opened Wrappers
  import opened Decimal
  import opened TimeText

  // ---------------------------------------------------------------- file names

  predicate IsSeparator(c: char) {
    c == '/' || c == '\\'
  }

  /** `path.split(/[\\/]/).pop()`: the text after the last separator. */
  function LastSegment(path: string): (r: string)
    ensures |r| <= |path| && r == path[|path| - |r|..]
    ensures forall i :: 0 <= i < |r| ==> !IsSeparator(r[i])
    ensures |r| < |path| ==> IsSeparator(path[|path| - |r| - 1])
    decreases |path|
  {
    if path == [] then []
    else if IsSeparator(path[|path| - 1]) then []
    else LastSegment(path[..|path| - 1]) + [path[|path| - 1]]
  }

  /** `getFileName`: the last segment, or the whole path when that segment is empty. */
  function GetFileName(path: string): string {
    var last := LastSegment(path);
    if last == "" then path else last
  }

  // ---------------------------------------------------------------- duration label

  /** JavaScript's `Math.trunc`. */
  function Trunc(x: real): int {
    if x >= 0.0 then x.Floor else -((-x).Floor)
  }

  /** JavaScript's `x % k`: the remainder keeps the sign of x. */
  function JsRem(x: real, k: real): real
    requires k > 0.0
  {
    x - k * Trunc(x / k) as real
  }

  /** `String(i)` for an integer. */
  function IntText(i: int): string {
    if i < 0 then "-" + NatToString(-i) else NatToString(i)
  }

  /** `s.padStart(2, "0")`. */
  function PadStart2(s: string): (r: string)
    ensures |r| >= 2 && |r| >= |s| && r[|r| - |s|..] == s
  {
    if |s| >= 2 then s else if |s| == 1 then "0" + s else "00"
  }

  /**
   * `formatDuration`: "--:--" when the duration is missing, NaN (`None`) or 0;
   * otherwise whole minutes, a colon, and the whole seconds padded to two digits.
   */
  function FormatDuration(duration: Option<real>): string {
    match duration
    case None => "--:--"
    case Some(d) =>
      if d == 0.0 then "--:--"
      else Join([IntText((d / 60.0).Floor), PadStart2(IntText(JsRem(d, 60.0).Floor))])
  }

  // ---------------------------------------------------------------- rows

  datatype Row = Row(title: string, caption: string, nowPlaying: bool, selected: bool)

  function TrackLabel(index: nat): string {
    "Track " + NatToString(index + 1)
  }

  function RowAt(playlist: seq<string>, currentIndex: int, index: nat): Row
    requires index < |playlist|
  {
    Row(GetFileName(playlist[index]), TrackLabel(index), index == currentIndex, index == currentIndex)
  }

  function Rows(playlist: seq<string>, currentIndex: int): (rows: seq<Row>)
    ensures |rows| == |playlist|
  {
    seq(|playlist|, i requires 0 <= i < |playlist| => RowAt(playlist, currentIndex, i))
  }

  /** The footer: "1 video in playlist", and "videos" for any other count. */
  function FooterLabel(count: nat): string {
    NatToString(count) + " video" + (if count != 1 then "s" else "") + " in playlist"
  }

  // ---------------------------------------------------------------- properties

  /** A path with no separator is its own last segment. */
  lemma {:induction false} LastSegmentNoSeparator(path: string)
    requires forall i :: 0 <= i < |path| ==> !IsSeparator(path[i])
    ensures LastSegment(path) == path
    decreases |path|
  {
    if path != [] {
      LastSegmentNoSeparator(path[..|path| - 1]);
    }
  }

  /** After a separator, the last segment is whatever follows it, provided that holds no separator. */
  lemma {:induction false} LastSegmentAfter(dir: string, sep: char, name: string)
    requires IsSeparator(sep)
    requires forall i :: 0 <= i < |name| ==> !IsSeparator(name[i])
    ensures LastSegment(dir + [sep] + name) == name
    decreases |name|
  {
    var path := dir + [sep] + name;
    if name != [] {
      var init := name[..|name| - 1];
      assert path[..|path| - 1] == dir + [sep] + init;
      assert path[|path| - 1] == name[|name| - 1];
      LastSegmentAfter(dir, sep, init);
      assert init + [name[|name| - 1]] == name;
    }
  }

  /** A name after a directory is recovered from either separator style. */
  lemma FileNameAfterSeparator(dir: string, sep: char, name: string)
    requires IsSeparator(sep) && name != []
    requires forall i :: 0 <= i < |name| ==> !IsSeparator(name[i])
    ensures GetFileName(dir + [sep] + name) == name
  {
    LastSegmentAfter(dir, sep, name);
  }

  /** A path ending in a separator, or with none at all, is shown whole; a non-empty path never shows as empty. */
  lemma FileNameFallback(path: string)
    ensures |path| > 0 && IsSeparator(path[|path| - 1]) ==> GetFileName(path) == path
    ensures (forall i :: 0 <= i < |path| ==> !IsSeparator(path[i])) ==> GetFileName(path) == path
    ensures path != [] ==> GetFileName(path) != []
  {
    if forall i :: 0 <= i < |path| ==> !IsSeparator(path[i]) {
      LastSegmentNoSeparator(path);
    }
  }

  /** String(k).padStart(2, "0") is `Pad2(k)` for whole numbers below 100. */
  lemma PadStartNat(k: nat)
    requires k < 100
    ensures PadStart2(IntText(k)) == Pad2(k)
  {
    if k >= 10 {
      assert |NatToString(k)| >= 2;
    }
  }

  /** For a positive duration the label is the whole minutes and the padded whole seconds of its floor. */
  lemma {:induction false} FormatDurationPositive(d: real)
    requires d > 0.0
    ensures var n: nat := d.Floor;
      FormatDuration(Some(d)) == Join([NatToString(n / 60), Pad2(n % 60)])
  {
    var n: nat := d.Floor;
    DurationFields(d);
    PadStartNat(n % 60);
  }

  /** Whole minutes and whole remaining seconds of a positive duration, from its floor. */
  lemma DurationFields(d: real)
    requires d > 0.0
    ensures (d / 60.0).Floor == d.Floor / 60
    ensures JsRem(d, 60.0).Floor == d.Floor % 60
  {
    FloorDiv(d, 60);
    assert Trunc(d / 60.0) == (d / 60.0).Floor;
    assert JsRem(d, 60.0) == JsMod(d, 60.0);
    JsModFloor(d, 60);
  }

  /** Below an hour the playlist label and the players' clock agree. */
  lemma {:induction false} FormatDurationMatchesClock(d: real)
    requires 0.0 < d < 3600.0
    ensures FormatDuration(Some(d)) == FormatClock(d.Floor)
  {
    var n: nat := d.Floor;
    FormatDurationPositive(d);
    assert n / 3600 == 0;
    assert (n % 3600) / 60 == n / 60;
  }

  /** Minutes (unbounded) and padded seconds of n read back as n. */
  lemma MinutesTextReadsBack(n: nat)
    ensures TotalSeconds(Join([NatToString(n / 60), Pad2(n % 60)])) == Some(n)
  {
    var m, sec := n / 60, n % 60;
    assert m * 60 + sec == n;
    MinutesReadBack(m, sec);
  }

  /**
   * The label reads back, through the target-duration parser, as the whole
   * seconds of the duration; there is no hours field, so minutes grow past 59.
   */
  lemma FormatDurationReadsBack(d: real)
    requires d > 0.0
    ensures TotalSeconds(FormatDuration(Some(d))) == Some(d.Floor)
  {
    FormatDurationPositive(d);
    MinutesTextReadsBack(d.Floor);
  }

  /** Missing, NaN and zero durations show the placeholder. */
  lemma FormatDurationPlaceholder()
    ensures FormatDuration(None) == "--:--" && FormatDuration(Some(0.0)) == "--:--"
  {
  }

  /** Exactly the current row is marked now playing and selected; an index outside the list marks none. */
  lemma NowPlayingUnique(playlist: seq<string>, currentIndex: int)
    ensures forall i :: 0 <= i < |playlist| ==>
      (Rows(playlist, currentIndex)[i].nowPlaying <==> i == currentIndex) &&
      Rows(playlist, currentIndex)[i].selected == Rows(playlist, currentIndex)[i].nowPlaying
    ensures forall i, j :: 0 <= i < j < |playlist| ==>
      !(Rows(playlist, currentIndex)[i].nowPlaying && Rows(playlist, currentIndex)[j].nowPlaying)
    ensures !(0 <= currentIndex < |playlist|) ==> forall i :: 0 <= i < |playlist| ==> !Rows(playlist, currentIndex)[i].nowPlaying
  {
  }

  /** Row i is captioned with its 1-based position. */
  lemma TrackCaptions(playlist: seq<string>, currentIndex: int, i: nat)
    requires i < |playlist|
    ensures Rows(playlist, currentIndex)[i].caption == "Track " + NatToString(i + 1)
    ensures Rows(playlist, currentIndex)[i].title == GetFileName(playlist[i])
  {
  }

  /** Singular only for exactly one video. */
  lemma FooterPlural(count: nat)
    ensures FooterLabel(count) == NatToString(count) + " video in playlist" <==> count == 1
  {
    if count != 1 {
      var a := NatToString(count) + " video" + "s" + " in playlist";
      var b := NatToString(count) + " video in playlist";
      assert a[|NatToString(count)| + 6] == 's';
      assert b[|NatToString(count)| + 6] == ' ';
    }
  }
}
