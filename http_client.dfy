/**
 * The parts of the C++ `HttpClient` that are not libcurl: the cookie header
 * it builds from a cookie file, and what its write callbacks tell libcurl.
 *
 * The file system is a parameter: `file` is the cookie file's content, or
 * `None` when it cannot be opened.
 */
module HttpClients {
  import opened Wrappers
  import opened Strings
  import opened TextLines

  /** A header that ends a cookie: its last character is `;`, or its last two are `;` and a space. */
  predicate Closed(c: string) {
    c != [] && (c[|c| - 1] == ';' || (|c| >= 2 && c[|c| - 2] == ';' && c[|c| - 1] == ' '))
  }

  /** One kept line as it goes into the header: followed by `; ` unless it already ends with `;`. */
  function CookiePiece(t: string): (p: string)
    requires t != []
    ensures IsPrefix(t, p) && Closed(p)
    ensures p == t <==> t[|t| - 1] == ';'
  {
    if t[|t| - 1] != ';' then t + "; " else t
  }

  /** The cookie header built from `lines`: the pieces of the content lines, in order. */
  function CookieString(lines: seq<string>): string
    decreases |lines|
  {
    if lines == [] then ""
    else
      var rest := CookieString(lines[..|lines| - 1]);
      var l := lines[|lines| - 1];
      if ContentLine(l) then rest + CookiePiece(Trimmed(l)) else rest
  }

  /** The header is empty exactly when the file has no content line. */
  lemma {:induction false} CookieStringEmpty(lines: seq<string>)
    ensures CookieString(lines) == "" <==> forall i :: 0 <= i < |lines| ==> !ContentLine(lines[i])
    decreases |lines|
  {
    if lines != [] {
      var init := lines[..|lines| - 1];
      CookieStringEmpty(init);
      assert forall i :: 0 <= i < |init| ==> init[i] == lines[i];
    }
  }

  /** A non-empty header ends a cookie: the last cookie is always closed. */
  lemma {:induction false} CookieStringClosed(lines: seq<string>)
    ensures CookieString(lines) == "" || Closed(CookieString(lines))
    decreases |lines|
  {
    if lines != [] {
      var init := lines[..|lines| - 1];
      CookieStringClosed(init);
      var l := lines[|lines| - 1];
      if ContentLine(l) {
        var p := CookiePiece(Trimmed(l));
        ClosedAfter(CookieString(init), p);
      }
    }
  }

  /** Closing is decided by the end of the header. */
  lemma ClosedAfter(c: string, p: string)
    requires Closed(p)
    ensures Closed(c + p)
  {
    var s := c + p;
    assert s[|s| - 1] == p[|p| - 1];
    if |p| >= 2 {
      assert s[|s| - 2] == p[|p| - 2];
    }
  }

  /** A line appended to the file adds its piece at the end of the header, or nothing when it is blank or a comment. */
  lemma CookieStringAppend(lines: seq<string>, l: string)
    ensures CookieString(lines + [l]) == CookieString(lines) + (if ContentLine(l) then CookiePiece(Trimmed(l)) else "")
  {
    assert (lines + [l])[..|lines|] == lines;
  }

  /** One more line read: its piece, if any, joins the header. */
  lemma NextLine(lines: seq<string>, i: nat)
    requires i < |lines|
    ensures CookieString(lines[..i + 1]) ==
            CookieString(lines[..i]) + (if ContentLine(lines[i]) then CookiePiece(Trimmed(lines[i])) else "")
  {
    assert lines[..i + 1] == lines[..i] + [lines[i]];
    CookieStringAppend(lines[..i], lines[i]);
  }

  class HttpClient {
    /** The `Cookie` header sent with every request. */
    var cookies: string

    /** A client without cookies. */
    constructor ()
      ensures cookies == ""
    {
      cookies := "";
    }

    /**
     * `set_cookies_from_file`: an unopenable file fails and leaves the
     * cookies alone; otherwise the cookies are rebuilt from the file's
     * content lines and the call succeeds when they are not empty.
     */
    method SetCookiesFromFile(file: Option<string>) returns (ok: bool)
      modifies this
      ensures file.None? ==> !ok && cookies == old(cookies)
      ensures file.Some? ==> cookies == CookieString(Lines(file.value)) && (ok <==> cookies != "")
    {
      if file.None? {
        return false;
      }
      var lines := Lines(file.value);
      cookies := "";
      var i := 0;
      while i < |lines|
        invariant 0 <= i <= |lines|
        invariant cookies == CookieString(lines[..i])
      {
        NextLine(lines, i);
        cookies := AddLine(cookies, lines[i]);
        i := i + 1;
      }
      assert lines[..|lines|] == lines;
      ok := cookies != "";
    }
  }

  /** One turn of the reading loop: trim the line, skip it when blank or a comment, else add it and close it with `; `. */
  method AddLine(cookies: string, raw: string) returns (c: string)
    ensures c == cookies + (if ContentLine(raw) then CookiePiece(Trimmed(raw)) else "")
  {
    var line := Trimmed(raw);
    if line == [] || line[0] == '#' {
      return cookies;
    }
    c := cookies + line;
    if line[|line| - 1] != ';' {
      c := c + "; ";
    }
  }

  /** `set_cookies_from_file` fails exactly for an unopenable file or one without a content line. */
  lemma CookieLoadFails(file: Option<string>)
    ensures (file.None? || CookieString(Lines(file.value)) == "") <==>
            (file.None? || forall i :: 0 <= i < |Lines(file.value)| ==> !ContentLine(Lines(file.value)[i]))
  {
    if file.Some? {
      CookieStringEmpty(Lines(file.value));
    }
  }

  /** `size_t` is 64 bits wide. */
  const SizeLimit: nat := 0x1_0000_0000_0000_0000

  /** libcurl goes on with a transfer only when a write callback returns the number of bytes it was given. */
  predicate CurlContinues(returned: nat, size: nat, nmemb: nat) {
    returned == size * nmemb
  }

  /**
   * `write_callback`: appends the `size * nmemb` bytes to the response
   * buffer and reports all of them taken. libcurl hands over exactly
   * `size * nmemb` bytes, and the product fits in `size_t`.
   */
  function WriteCallback(buffer: string, contents: string, size: nat, nmemb: nat): (r: (string, nat))
    requires size * nmemb < SizeLimit && |contents| == size * nmemb
    ensures IsPrefix(buffer, r.0) && r.0[|buffer|..] == contents
    ensures CurlContinues(r.1, size, nmemb)
  {
    (buffer + contents, |contents|)
  }

  /**
   * `file_write_callback`: writes the bytes to the output file and reports
   * them all taken when the stream is still good afterwards, nothing
   * otherwise; `good` is the stream's state after the write.
   */
  function FileWriteCallback(size: nat, nmemb: nat, good: bool): (returned: nat)
    requires size * nmemb < SizeLimit
    ensures returned <= size * nmemb
  {
    if good then size * nmemb else 0
  }

  /** A file download goes on exactly while the stream stays good, or when there was nothing to write. */
  lemma FileWriteContinues(size: nat, nmemb: nat, good: bool)
    requires size * nmemb < SizeLimit
    ensures CurlContinues(FileWriteCallback(size, nmemb, good), size, nmemb) <==> good || size * nmemb == 0
  {
  }
}
