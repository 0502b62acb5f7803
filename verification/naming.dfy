/**
 * Output file names (commextract.py:270, 292-294): the fallback name of an unnamed
 * track, the replacement of characters that file systems refuse, and the
 * `<movie> - <track>.<ext>` pattern.
 */
module Naming {
  import opened Optional
  import opened Text

  /** One of `< > : " / \ | ? *`, the characters the regular expression `[<>:"/\\|?*]` matches. */
  predicate IsUnsafe(c: char) {
    c == '<' || c == '>' || c == ':' || c == '"' || c == '/' || c == '\\' || c == '|' || c == '?' || c == '*'
  }

  predicate IsSafeName(s: string) {
    forall i :: 0 <= i < |s| ==> !IsUnsafe(s[i])
  }

  function SafeChar(c: char): char {
    if IsUnsafe(c) then '_' else c
  }

  /** `re.sub(r'[<>:"/\\|?*]', '_', s)`: each unsafe character becomes an underscore. */
  function Sanitize(s: string): string {
    seq(|s|, i requires 0 <= i < |s| => SafeChar(s[i]))
  }

  /** Sanitising keeps the length and leaves no unsafe character. */
  lemma SanitizeSafe(s: string)
    ensures |Sanitize(s)| == |s|
    ensures IsSafeName(Sanitize(s))
  {
  }

  /** Only unsafe characters change, each into `_`; everything else stays in place. */
  lemma SanitizeAt(s: string, i: nat)
    requires i < |s|
    ensures !IsUnsafe(s[i]) ==> Sanitize(s)[i] == s[i]
    ensures IsUnsafe(s[i]) ==> Sanitize(s)[i] == '_'
  {
  }

  /** A name is left alone exactly when it is already safe. */
  lemma SanitizeFixedIffSafe(s: string)
    ensures Sanitize(s) == s <==> IsSafeName(s)
  {
  }

  /** Sanitising twice is sanitising once. */
  lemma SanitizeIdempotent(s: string)
    ensures Sanitize(Sanitize(s)) == Sanitize(s)
  {
    SanitizeSafe(s);
    SanitizeFixedIffSafe(Sanitize(s));
  }

  /** Sanitising works character by character, so it distributes over concatenation. */
  lemma SanitizeConcat(a: string, b: string)
    ensures Sanitize(a + b) == Sanitize(a) + Sanitize(b)
  {
  }

  /** The text an f-string gives for a track id: its decimal digits, or `None` when absent. */
  function IdText(id: Option<nat>): string {
    match id
    case Some(n) => NatToString(n)
    case None => "None"
  }

  const UnnamedPrefix: string := "Commentary Track "

  /** `track_name or f"Commentary Track {track_id}"`. */
  function DisplayName(trackName: string, id: Option<nat>): (name: string)
  {
    if trackName != "" then trackName else UnnamedPrefix + IdText(id)
  }

  /** The display name is never empty; it is the track's own name when it has one,
      and otherwise a name built from the id alone, so two unnamed tracks with
      different ids get different names. */
  lemma DisplayNameProperties(trackName: string, id: Option<nat>, other: Option<nat>)
    ensures DisplayName(trackName, id) != ""
    ensures trackName != "" ==> DisplayName(trackName, id) == trackName
    ensures trackName == "" ==> StartsWith(DisplayName(trackName, id), UnnamedPrefix)
    ensures trackName == "" && id != other ==> DisplayName(trackName, id) != DisplayName(trackName, other)
  {
    if trackName == "" && id != other {
      var a, b := DisplayName(trackName, id), DisplayName(trackName, other);
      assert a[|UnnamedPrefix|..] == IdText(id);
      assert b[|UnnamedPrefix|..] == IdText(other);
      IdTextInjective(id, other);
    }
  }

  /** Different ids render differently. */
  lemma IdTextInjective(id: Option<nat>, other: Option<nat>)
    requires id != other
    ensures IdText(id) != IdText(other)
  {
    match id
    case Some(n) =>
      DecimalRoundTrip(n);
      if other.Some? {
        DecimalRoundTrip(other.value);
      } else {
        assert IdText(other)[0] == 'N';
      }
    case None =>
      assert IdText(id)[0] == 'N';
  }

  /** `f"{safe_movie_name} - {safe_track_name}.{extension}"`. */
  function OutputFilename(movie: string, track: string, ext: string): string {
    Sanitize(movie) + " - " + Sanitize(track) + "." + ext
  }

  /** With a safe extension, the whole file name is safe, whatever the movie and track names. */
  lemma OutputFilenameSafe(movie: string, track: string, ext: string)
    requires IsSafeName(ext)
    ensures IsSafeName(OutputFilename(movie, track, ext))
  {
    var m, t := Sanitize(movie), Sanitize(track);
    SanitizeSafe(movie);
    SanitizeSafe(track);
    var name := OutputFilename(movie, track, ext);
    forall i | 0 <= i < |name| ensures !IsUnsafe(name[i]) {
      if i < |m| {
        assert name[i] == m[i];
      } else if i < |m| + 3 {
        assert name[i] == " - "[i - |m|];
      } else if i < |m| + 3 + |t| {
        assert name[i] == t[i - |m| - 3];
      } else if i == |m| + 3 + |t| {
        assert name[i] == '.';
      } else {
        assert name[i] == ext[i - |m| - 4 - |t|];
      }
    }
  }

  /** The file name starts with the sanitised movie name and a dash, ends with a dot
      and the extension, keeps every character count, and sanitising it again changes nothing. */
  lemma OutputFilenameShape(movie: string, track: string, ext: string)
    requires IsSafeName(ext)
    ensures |OutputFilename(movie, track, ext)| == |movie| + |track| + |ext| + 4
    ensures StartsWith(OutputFilename(movie, track, ext), Sanitize(movie) + " - ")
    ensures EndsWith(OutputFilename(movie, track, ext), "." + ext)
    ensures Sanitize(OutputFilename(movie, track, ext)) == OutputFilename(movie, track, ext)
  {
    var name := OutputFilename(movie, track, ext);
    OutputFilenameSafe(movie, track, ext);
    assert name[..|movie| + 3] == Sanitize(movie) + " - ";
    assert name[|name| - |ext| - 1..] == "." + ext;
    SanitizeFixedIffSafe(name);
  }

  /** A movie and a track name that are already safe appear verbatim. */
  lemma SafeNamesVerbatim(movie: string, track: string, ext: string)
    requires IsSafeName(movie) && IsSafeName(track)
    ensures OutputFilename(movie, track, ext) == movie + " - " + track + "." + ext
  {
    SanitizeFixedIffSafe(movie);
    SanitizeFixedIffSafe(track);
  }
}
