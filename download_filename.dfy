/**
 * `Download.getFilename(extName)`: the name a downloaded file is saved
 * under. The chosen name is `saveName` when set, else the last segment of
 * the URL's path, else `file` followed by the current time; the extension
 * is appended unless the name already ends with it.
 *
 * URL parsing and the clock are parameters: `pathname` is what
 * `url.parse(url).pathname` gives (`None` for `null`), `now` what
 * `Date.now()` gives.
 */
module Downloads {
  import opened Wrappers
  import opened Strings

  /** `pathname.split('/')` and its last part: what follows the last `/`. */
  function LastSegment(pathname: string): (seg: string)
    ensures '/' !in seg
    ensures IsSuffix(seg, pathname)
    ensures |seg| < |pathname| ==> pathname[|pathname| - |seg| - 1] == '/'
  {
    match LastIndexOfChar(pathname, '/')
    case None => pathname
    case Some(i) => pathname[i + 1..]
  }

  /** The name before the extension test: lines 80-94. */
  function BaseName(saveName: Option<string>, pathname: Option<string>, now: nat): (name: string)
    ensures name != ""
    ensures saveName.Some? && saveName.value != "" ==> name == saveName.value
  {
    var fromUrl :=
      if saveName.Some? && saveName.value != "" then saveName.value
      else if pathname.Some? && pathname.value != "" then LastSegment(pathname.value)
      else "";
    if fromUrl != "" then fromUrl else "file" + NatToString(now)
  }

  /** The characters a regular-expression `.` does not match: the line terminators. */
  predicate LineTerminator(c: char) {
    c in {'\n', '\r', '\U{2028}', '\U{2029}'}
  }

  /**
   * `RegExp(`\.${extName}$`).test(name)` as written: inside the template
   * literal `\.` is a plain `.`, which matches any character but a line
   * terminator, so the test asks only for one such character before
   * `extName` at the end. `extName` is a plain extension and is matched
   * literally.
   */
  predicate EndsWithExtAsWritten(name: string, extName: string) {
    |extName| < |name| && IsSuffix(extName, name) && !LineTerminator(name[|name| - |extName| - 1])
  }

  /** The test evidently meant: the name ends with `.` and `extName`. */
  predicate EndsWithExt(name: string, extName: string) {
    IsSuffix("." + extName, name)
  }

  /** `getFilename` as written. */
  function GetFilenameAsWritten(saveName: Option<string>, pathname: Option<string>, extName: string, now: nat): string {
    var name := BaseName(saveName, pathname, now);
    if EndsWithExtAsWritten(name, extName) then name else name + "." + extName
  }

  /** `getFilename` with the extension test matching a literal dot. */
  function GetFilename(saveName: Option<string>, pathname: Option<string>, extName: string, now: nat): string {
    var name := BaseName(saveName, pathname, now);
    if EndsWithExt(name, extName) then name else name + "." + extName
  }

  /** Appending `.` and `extName` makes a name that ends with them. */
  lemma AppendedExt(name: string, extName: string)
    ensures EndsWithExt(name + "." + extName, extName)
  {
    assert (name + "." + extName)[|name|..] == "." + extName;
  }

  /**
   * The file name ends with `.` and the extension, and it is the base name
   * itself or the base name with `.` and the extension appended.
   */
  lemma GetFilenameSpec(saveName: Option<string>, pathname: Option<string>, extName: string, now: nat)
    ensures var r := GetFilename(saveName, pathname, extName, now);
            var name := BaseName(saveName, pathname, now);
            EndsWithExt(r, extName)
            && (r == name <==> EndsWithExt(name, extName))
            && (r != name ==> r == name + "." + extName)
  {
    var name := BaseName(saveName, pathname, now);
    if !EndsWithExt(name, extName) {
      AppendedExt(name, extName);
      assert |name + "." + extName| != |name|;
    }
  }

  /** Naming a file by a name `getFilename` produced gives that name back. */
  lemma GetFilenameIdempotent(saveName: Option<string>, pathname: Option<string>, extName: string, now: nat,
                              pathname2: Option<string>, now2: nat)
    ensures var r := GetFilename(saveName, pathname, extName, now);
            GetFilename(Some(r), pathname2, extName, now2) == r
  {
    GetFilenameSpec(saveName, pathname, extName, now);
    var r := GetFilename(saveName, pathname, extName, now);
    assert r != "";
    assert BaseName(Some(r), pathname2, now2) == r;
  }

  /** With no `saveName`, the name comes from the last segment of the path when it has one. */
  lemma NameFromPath(pathname: string, extName: string, now: nat)
    requires LastSegment(pathname) != ""
    ensures BaseName(None, Some(pathname), now) == LastSegment(pathname)
  {
  }

  /** With no `saveName` and a path that ends in `/`, the name is `file` and the time. */
  lemma NameFromClock(pathname: Option<string>, extName: string, now: nat)
    requires pathname.None? || pathname.value == "" || pathname.value[|pathname.value| - 1] == '/'
    ensures BaseName(None, pathname, now) == "file" + NatToString(now)
  {
  }

  /**
   * As written, a name that ends with the extension after any character
   * other than `.` and a line terminator is kept: `xpng` is the file name for extension
   * `png`, and it does not end with `.png`.
   */
  lemma AsWrittenKeepsMissingDot()
    ensures GetFilenameAsWritten(Some("xpng"), None, "png", 0) == "xpng"
    ensures !EndsWithExt("xpng", "png")
    ensures GetFilename(Some("xpng"), None, "png", 0) == "xpng.png"
  {
    assert "xpng"[1..] == "png";
    assert "xpng"[0..] != ".png" by {
      assert "xpng"[0] == 'x';
    }
  }

  /** Where the name does end with `.` and the extension, both tests agree. */
  lemma AsWrittenAgreesOnDottedNames(saveName: Option<string>, pathname: Option<string>, extName: string, now: nat)
    requires EndsWithExt(BaseName(saveName, pathname, now), extName)
    ensures GetFilenameAsWritten(saveName, pathname, extName, now) == GetFilename(saveName, pathname, extName, now)
  {
    var name := BaseName(saveName, pathname, now);
    assert name[|name| - |extName|..] == ("." + extName)[1..];
  }
}
