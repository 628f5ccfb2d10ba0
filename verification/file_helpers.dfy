/** `FileHelpers`: separator constants and path separator normalisation.
    The platform's directory separator is a parameter. */
module FileHelpers {

  const BackwardSlash: char := '\\'

  /** Declared with the backslash character, not '/'. */
  const ForwardSlash: char := '\\'

  /** `NotSeparator` for a platform whose directory separator is `separator`.
      Since both branches yield a backslash, it is always a backslash, and it
      coincides with the separator exactly on a backslash platform. */
  function NotSeparatorFor(separator: char): (r: char)
    ensures r == '\\'
    ensures r == separator <==> separator == '\\'
  {
    if separator == BackwardSlash then ForwardSlash else BackwardSlash
  }

  /** `string.Replace(char, char)`: every `from` becomes `to`. */
  function Replace(s: string, from: char, to: char): (r: string)
    ensures |r| == |s|
    ensures forall i :: 0 <= i < |s| && s[i] != from ==> r[i] == s[i]
    ensures forall i :: 0 <= i < |s| && s[i] == from ==> r[i] == to
  {
    if s == [] then []
    else [if s[0] == from then to else s[0]] + Replace(s[1..], from, to)
  }

  /** `NormalizeFilePathSeparators` on a platform with directory separator
      `separator`. */
  function NormalizeFilePathSeparators(path: string, separator: char): (r: string)
    ensures |r| == |path|
    ensures forall i :: 0 <= i < |path| && path[i] != NotSeparatorFor(separator) ==> r[i] == path[i]
    ensures forall i :: 0 <= i < |path| && path[i] == NotSeparatorFor(separator) ==> r[i] == separator
  {
    Replace(path, NotSeparatorFor(separator), separator)
  }

  /** When the two separators differ, no `NotSeparator` is left and a second
      normalisation changes nothing. */
  lemma NormalizeRemovesNotSeparatorAndIsIdempotent(path: string, separator: char)
    requires separator != '\\'
    ensures NotSeparatorFor(separator) !in NormalizeFilePathSeparators(path, separator)
    ensures NormalizeFilePathSeparators(NormalizeFilePathSeparators(path, separator), separator)
            == NormalizeFilePathSeparators(path, separator)
  {
    assert NotSeparatorFor(separator) != separator;
    var once := NormalizeFilePathSeparators(path, separator);
    var twice := NormalizeFilePathSeparators(once, separator);
    assert forall i :: 0 <= i < |once| ==> once[i] != NotSeparatorFor(separator);
    assert forall i :: 0 <= i < |once| ==> twice[i] == once[i];
  }

  /** Because `ForwardSlash` is a backslash, a backslash platform has
      `NotSeparator == Separator` and normalisation is the identity: a '/'
      is never turned into '\\'. */
  lemma BackslashPlatformLeavesPathsAlone(path: string)
    ensures NotSeparatorFor('\\') == '\\'
    ensures NormalizeFilePathSeparators(path, '\\') == path
  {
  }

  /** On a '/' platform every backslash becomes '/' and nothing else moves. */
  lemma SlashPlatformTurnsBackslashes(path: string)
    ensures NotSeparatorFor('/') == '\\'
    ensures '\\' !in NormalizeFilePathSeparators(path, '/')
    ensures forall i :: 0 <= i < |path| ==>
      NormalizeFilePathSeparators(path, '/')[i] == if path[i] == '\\' then '/' else path[i]
  {
    NormalizeRemovesNotSeparatorAndIsIdempotent(path, '/');
  }

  /** A concrete witness: on a backslash platform "a/b" keeps its '/'. */
  lemma MixedPathKeepsSlashOnBackslashPlatform()
    ensures NormalizeFilePathSeparators("a/b", '\\') == "a/b"
    ensures '/' in NormalizeFilePathSeparators("a/b", '\\')
  {
    BackslashPlatformLeavesPathsAlone("a/b");
    assert "a/b"[1] == '/';
  }

  // ---------------------------------------------------------------------
  // The evidently intended constants: '/' as the forward slash.

  const IntendedForwardSlash: char := '/'

  /** `NotSeparator` with the forward slash declared as '/': always a slash,
      and never the platform's own separator. */
  function IntendedNotSeparatorFor(separator: char): (r: char)
    ensures r != separator
    ensures r == '/' || r == '\\'
  {
    if separator == BackwardSlash then IntendedForwardSlash else BackwardSlash
  }

  /** Normalisation with the intended constants. */
  function IntendedNormalizeFilePathSeparators(path: string, separator: char): (r: string)
    ensures |r| == |path|
    ensures forall i :: 0 <= i < |path| && path[i] != IntendedNotSeparatorFor(separator) ==> r[i] == path[i]
    ensures forall i :: 0 <= i < |path| && path[i] == IntendedNotSeparatorFor(separator) ==> r[i] == separator
  {
    Replace(path, IntendedNotSeparatorFor(separator), separator)
  }

  /** With the intended constants, on either platform the other slash never
      survives normalisation, and normalising twice equals normalising once. */
  lemma IntendedNormalizeLeavesOnlyPlatformSlash(path: string, separator: char)
    requires separator == '/' || separator == '\\'
    ensures var r := IntendedNormalizeFilePathSeparators(path, separator);
      && (separator == '\\' ==> '/' !in r)
      && (separator == '/' ==> '\\' !in r)
      && IntendedNormalizeFilePathSeparators(r, separator) == r
  {
    var r := IntendedNormalizeFilePathSeparators(path, separator);
    assert IntendedNotSeparatorFor(separator) != separator;
    assert forall i :: 0 <= i < |r| ==> r[i] != IntendedNotSeparatorFor(separator);
    var twice := IntendedNormalizeFilePathSeparators(r, separator);
    assert forall i :: 0 <= i < |r| ==> twice[i] == r[i];
  }
}
