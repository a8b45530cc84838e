/** How a media entry turns its configured file name into an extension and
    into the path it hands to a playback backend. */
module MediaPath {
  import opened Wrappers

  /** Index of the last occurrence of `c` in `s`; `None` plays the part of
      std::string::npos in `find_last_of` with a one-character set. */
  function LastIndexOf(s: string, c: char): (r: Option<nat>)
    ensures r.None? <==> c !in s
    ensures r.Some? ==> r.value < |s| && s[r.value] == c
    ensures r.Some? ==> forall j :: r.value < j < |s| ==> s[j] != c
    decreases |s|
  {
    if |s| == 0 then None
    else if s[|s| - 1] == c then Some(|s| - 1)
    else
      assert s == s[..|s| - 1] + [s[|s| - 1]];
      LastIndexOf(s[..|s| - 1], c)
  }

  /** Characters after `c` in `s` do not move the last occurrence of `c`
      as long as none of them is `c`. */
  lemma {:induction false} LastIndexOfSkipsSuffix(s: string, t: string, c: char)
    requires c !in t
    ensures LastIndexOf(s + t, c) == LastIndexOf(s, c)
    decreases |t|
  {
    if |t| == 0 {
      assert s + t == s;
    } else {
      var u := s + t;
      assert u[..|u| - 1] == s + t[..|t| - 1];
      assert u[|u| - 1] == t[|t| - 1];
      LastIndexOfSkipsSuffix(s, t[..|t| - 1], c);
    }
  }

  /** The extension of a media file name: everything after its last '.',
      or `None` when the name has no '.' at all. */
  function Extension(name: string): (r: Option<string>)
    ensures r.None? <==> '.' !in name
    ensures r.Some? ==> '.' !in r.value && |r.value| < |name|
    ensures r.Some? ==> name == name[..|name| - |r.value| - 1] + "." + r.value
  {
    match LastIndexOf(name, '.')
    case None => None
    case Some(i) =>
      var x := name[i + 1..];
      assert forall k :: 0 <= k < |x| ==> x[k] == name[i + 1 + k];
      assert name == name[..i] + "." + x;
      Some(x)
  }

  /** The converse of `Extension`'s contract: a dot-free tail after a '.'
      is exactly what `Extension` reports, whatever the stem contains. */
  lemma ExtensionOfDotted(stem: string, ext: string)
    requires '.' !in ext
    ensures Extension(stem + "." + ext) == Some(ext)
  {
    var name := stem + "." + ext;
    assert name == (stem + ".") + ext;
    LastIndexOfSkipsSuffix(stem + ".", ext, '.');
    assert (stem + ".")[|stem|] == '.';
    assert LastIndexOf(stem + ".", '.') == Some(|stem|);
    assert name[|stem| + 1..] == ext;
  }

  /** Audio extensions a follower cannot keep in step with the master. */
  predicate IsAudioExtension(ext: string) {
    ext == "mp3" || ext == "ogg" || ext == "m4a"
  }

  /** std::string::replace(pos, n, t) for `pos <= |s|`: `n` characters from
      `pos` (fewer when the string ends first) give way to `t`. */
  function Replace(s: string, pos: nat, n: nat, t: string): string
    requires pos <= |s|
  {
    s[..pos] + t + (if pos + n <= |s| then s[pos + n..] else [])
  }

  /** The path handed to the backend. In REMOTE mode an audio name has the
      three characters that start where its extension starts replaced by
      "mp4"; every other name is used as configured. */
  function ResolvePath(name: string, ext: string, remote: bool): (r: string)
    requires |ext| <= |name|
    ensures remote && IsAudioExtension(ext) ==>
      && |r| == |name|
      && r[..|name| - 3] == name[..|name| - 3]
      && r[|name| - 3..] == "mp4"
    ensures !(remote && IsAudioExtension(ext)) ==> r == name
  {
    if remote && IsAudioExtension(ext) then Replace(name, |name| - |ext|, 3, "mp4")
    else name
  }

  /** A rewritten follower path really names an .mp4 file: the stem is
      kept and the path's own extension is "mp4". (By `Extension`'s
      contract every name with an audio extension has this shape.) */
  lemma ResolvedAudioBecomesMp4(stem: string, ext: string)
    requires IsAudioExtension(ext)
    ensures Extension(stem + "." + ext) == Some(ext)
    ensures ResolvePath(stem + "." + ext, ext, true) == stem + ".mp4"
    ensures Extension(stem + ".mp4") == Some("mp4")
  {
    var name := stem + "." + ext;
    ExtensionOfDotted(stem, ext);
    assert name[..|name| - 3] == stem + ".";
    assert stem + "." + "mp4" == stem + ".mp4";
    ExtensionOfDotted(stem, "mp4");
  }
}
