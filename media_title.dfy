/**
 * The title a player derives from a file name: the name with its extension
 * removed by `fileName.replace(/\.[^/.]+$/, '')`, or "Audio File" when an
 * audio file comes without a name.
 */
module MediaTitle {
  import opened Wrappers

  /** The characters the pattern's class `[^/.]` excludes. */
  predicate Stops(c: char) {
    c == '/' || c == '.'
  }

  /**
   * Where the pattern `\.[^/.]+$` matches in `s`: a dot at `i` followed by
   * one or more characters, none a slash or a dot, up to the end.
   */
  predicate MatchesAt(s: string, i: int) {
    && 0 <= i && i + 1 < |s| && s[i] == '.'
    && forall j :: i < j < |s| ==> !Stops(s[j])
  }

  /** The length of the longest suffix of `s` free of slashes and dots. */
  function TailRun(s: string): (k: nat)
    ensures k <= |s|
    ensures forall j :: |s| - k <= j < |s| ==> !Stops(s[j])
    ensures k < |s| ==> Stops(s[|s| - k - 1])
    decreases |s|
  {
    if s == [] || Stops(s[|s| - 1]) then 0
    else
      var k := TailRun(s[..|s| - 1]);
      assert forall j :: |s| - 1 - k <= j < |s| - 1 ==> s[j] == s[..|s| - 1][j];
      k + 1
  }

  /** The regular-expression replacement: drop the final `.ext`, where ext is non-empty and holds no slash or dot. */
  function StripExtension(s: string): (r: string)
    ensures |r| <= |s| && r == s[..|r|]
  {
    var k := TailRun(s);
    if 0 < k < |s| && s[|s| - k - 1] == '.' then s[..|s| - k - 1] else s
  }

  /** The title the metadata carries: the stripped name, or "Audio File" for an audio file without one. */
  function Title(fileName: Option<string>): string {
    match fileName
    case Some(name) => if name != "" then StripExtension(name) else "Audio File"
    case None => "Audio File"
  }

  // ---------------------------------------------------------------- properties

  /** The replacement removes exactly the pattern's match, and leaves names with no match untouched. */
  lemma {:induction false} StripMatchesPattern(s: string)
    ensures forall i :: MatchesAt(s, i) ==> StripExtension(s) == s[..i]
    ensures (forall i :: !MatchesAt(s, i)) ==> StripExtension(s) == s
  {
    var k := TailRun(s);
    forall i | MatchesAt(s, i)
      ensures StripExtension(s) == s[..i]
    {
      assert Stops(s[i]);
      assert k < |s| ==> Stops(s[|s| - k - 1]);
      assert i == |s| - k - 1;
    }
    if 0 < k < |s| && s[|s| - k - 1] == '.' {
      assert MatchesAt(s, |s| - k - 1);
    }
  }

  /** A base name followed by one extension gives back the base name. */
  lemma StripOneExtension(base: string, ext: string)
    requires ext != [] && forall j :: 0 <= j < |ext| ==> !Stops(ext[j])
    ensures StripExtension(base + "." + ext) == base
  {
    var s := base + "." + ext;
    assert MatchesAt(s, |base|);
    StripMatchesPattern(s);
    assert s[..|base|] == base;
  }

  /** Only the last of several extensions goes, and a name ending in a dot or a directory keeps its dot. */
  lemma StripExamples()
    ensures StripExtension("movie.final.mp4") == "movie.final"
    ensures StripExtension("song.") == "song."
    ensures StripExtension("notes") == "notes"
  {
    StripOneExtension("movie.final", "mp4");
    assert "movie.final" + "." + "mp4" == "movie.final.mp4";
    StripMatchesPattern("song.");
    StripMatchesPattern("notes");
    assert forall i :: !MatchesAt("notes", i) by {
      forall i | 0 <= i < |"notes"| ensures "notes"[i] != '.' {}
    }
  }

  /** A hidden file's name is all extension to the pattern: ".bashrc" becomes empty. */
  lemma HiddenFileLosesName()
    ensures StripExtension(".bashrc") == ""
  {
    StripOneExtension("", "bashrc");
    assert "" + "." + "bashrc" == ".bashrc";
  }
}
