/**
 * The stand-alone bookmark URL extractor: it reads the command line, takes
 * the user id from a bookmark URL, builds a cookie header from the
 * session's pixiv cookies, and pages through the user's bookmark API 48
 * works at a time, collecting one artwork URL per work.
 *
 * The session's cookie store and the network are parameters: the cookies
 * as a list (`None` when reading them throws) and the API as a function
 * from request path to answer.
 */
module BookmarkExtractor {
  import opened Wrappers
  import opened Strings
  import opened BookmarkCrawl
  import UrlBuilder
  import Providers

  // ---------------------------------------------------------------------
  // Command line

  /** How the command line is settled: help, one of the two refusals, or a run. */
  datatype Launch = Help | BadUrl | BadOutput | Run(bookmarkUrl: string, outputMode: string)

  /** The exit code of a launch that does not run. */
  function LaunchExit(l: Launch): int
    requires !l.Run?
  {
    if l.Help? then 0 else 1
  }

  /** `s.split(c)[1]` when `s` holds `c`: what lies between its first and second `c`. */
  function SecondField(s: string, c: char): (r: string)
    requires c in s
    ensures c !in r
  {
    var i := IndexOfChar(s, c);
    var rest := s[i + 1..];
    if c in rest then rest[..IndexOfChar(rest, c)] else rest
  }

  /** `args.find(arg => arg.startsWith('--output='))`. */
  function OutputArg(args: seq<string>): (r: Option<string>)
    ensures r.Some? ==> r.value in args && IsPrefix("--output=", r.value)
    ensures r.None? ==> forall a :: a in args ==> !IsPrefix("--output=", a)
  {
    if args == [] then None
    else if IsPrefix("--output=", args[0]) then Some(args[0])
    else OutputArg(args[1..])
  }

  /** The output mode: the value of the first `--output=` argument, `console` without one. */
  function OutputMode(args: seq<string>): string {
    match OutputArg(args)
    case None => "console"
    case Some(a) =>
      assert a[8] == '=';
      SecondField(a, '=')
  }

  /** The command-line checks, in the order the script makes them. */
  function ParseLaunch(args: seq<string>): Launch {
    if |args| == 0 || "--help" in args || "-h" in args then Help
    else if args[0] == "" || !Contains(args[0], "pixiv.net") then BadUrl
    else if OutputMode(args) != "console" && OutputMode(args) != "file" then BadOutput
    else Run(args[0], OutputMode(args))
  }

  /**
   * A run has a pixiv URL in first place and a known output mode; help wins
   * over every other check; a pixiv URL with no `--output=` argument runs
   * to the console.
   */
  lemma ParseLaunchSpec(args: seq<string>)
    ensures ParseLaunch(args).Run? ==>
              |args| > 0 && ParseLaunch(args).bookmarkUrl == args[0] && Contains(args[0], "pixiv.net")
              && (ParseLaunch(args).outputMode == "console" || ParseLaunch(args).outputMode == "file")
    ensures "--help" in args || "-h" in args || args == [] ==> ParseLaunch(args) == Help
    ensures |args| > 0 && "--help" !in args && "-h" !in args && Contains(args[0], "pixiv.net")
            && (forall a :: a in args ==> !IsPrefix("--output=", a))
            ==> ParseLaunch(args) == Run(args[0], "console")
  {
  }

  /** `--output=file` selects the file, whatever follows a second `=`. */
  lemma OutputFileSelected(args: seq<string>, tail: string)
    requires |args| > 0 && args[|args| - 1] == "--output=file" + tail && (tail == "" || tail[0] == '=')
    requires forall i :: 0 <= i < |args| - 1 ==> !IsPrefix("--output=", args[i])
    ensures OutputMode(args) == "file"
  {
    OutputArgLast(args);
    var a := "--output=file" + tail;
    assert IndexOfChar(a, '=') == 8 by {
      assert a[..8] == "--output";
    }
    var rest := a[9..];
    assert rest == "file" + tail;
    if tail != "" {
      assert rest[4] == '=';
      assert rest[..4] == "file";
      assert IndexOfChar(rest, '=') == 4 by {
        assert rest[..4] == "file";
      }
    } else {
      assert '=' !in rest;
    }
  }

  lemma {:induction false} OutputArgLast(args: seq<string>)
    requires |args| > 0 && IsPrefix("--output=", args[|args| - 1])
    requires forall i :: 0 <= i < |args| - 1 ==> !IsPrefix("--output=", args[i])
    ensures OutputArg(args) == Some(args[|args| - 1])
    decreases |args|
  {
    if |args| > 1 {
      OutputArgLast(args[1..]);
    }
  }

  // ---------------------------------------------------------------------
  // extractUserId

  /** `url.match(/users\/(\d+)/)`: the digits after the first `users/` that has digits after it. */
  function ExtractUserId(url: string): Option<string> {
    FirstTaggedDigits(url, "users/")
  }

  /**
   * In a bookmark URL the user id is the whole run of digits after the
   * first `users/` that a digit follows.
   */
  lemma ExtractUserIdOf(prefix: string, id: string, rest: string)
    requires id != "" && AllDigits(id) && (rest == "" || !IsDigit(rest[0]))
    requires NoTaggedDigitsBefore(prefix + "users/" + id + rest, "users/", |prefix|)
    ensures ExtractUserId(prefix + "users/" + id + rest) == Some(id)
  {
    FirstTaggedDigitsOf(prefix, "users/", id, rest);
  }


  // ---------------------------------------------------------------------
  // Cookies

  /** A cookie of the session. */
  datatype Cookie = Cookie(name: string, value: string)

  /**
   * The characters `String.prototype.trim` removes: white space (the ASCII
   * ones, no-break space, the byte order mark and the Unicode space
   * separators) and the line terminators.
   */
  const JsWhitespace: set<char> := {
    '\t', '\n', '\U{B}', '\U{C}', '\r', ' ', '\U{A0}', '\U{1680}',
    '\U{2000}', '\U{2001}', '\U{2002}', '\U{2003}', '\U{2004}', '\U{2005}',
    '\U{2006}', '\U{2007}', '\U{2008}', '\U{2009}', '\U{200A}',
    '\U{2028}', '\U{2029}', '\U{202F}', '\U{205F}', '\U{3000}', '\U{FEFF}'}

  /** `name=value; ` for each cookie, in order. */
  function CookiePairs(cookies: seq<Cookie>): string
    decreases |cookies|
  {
    if cookies == [] then ""
    else CookiePairs(cookies[..|cookies| - 1]) + cookies[|cookies| - 1].name + "=" + cookies[|cookies| - 1].value + "; "
  }

  /** `getCookiesFromSession`: the pairs, trimmed; `""` with no cookies or when reading them throws. */
  function CookieHeader(cookies: Option<seq<Cookie>>): string {
    if cookies.None? || |cookies.value| == 0 then "" else Trim(CookiePairs(cookies.value), JsWhitespace)
  }

  /** The loop that builds the cookie string, then trims it. */
  method GetCookiesFromSession(cookies: Option<seq<Cookie>>) returns (cookieString: string)
    ensures cookieString == CookieHeader(cookies)
  {
    if cookies.None? || |cookies.value| == 0 {
      return "";
    }
    var cs := cookies.value;
    cookieString := "";
    var i := 0;
    while i < |cs|
      invariant i <= |cs|
      invariant cookieString == CookiePairs(cs[..i])
    {
      assert cs[..i + 1][..i] == cs[..i];
      cookieString := cookieString + cs[i].name + "=" + cs[i].value + "; ";
      i := i + 1;
    }
    assert cs[..i] == cs;
    cookieString := Trim(cookieString, JsWhitespace);
  }

  /** `name=value` of a cookie. */
  function Pair(c: Cookie): string {
    c.name + "=" + c.value
  }

  /** The pairs open with the first cookie's pair and its `; `. */
  lemma {:induction false} PairsStartWithFirst(cs: seq<Cookie>)
    requires cs != []
    ensures IsPrefix(Pair(cs[0]) + "; ", CookiePairs(cs))
    decreases |cs|
  {
    var init := cs[..|cs| - 1];
    var last := cs[|cs| - 1];
    var tail := last.name + "=" + last.value + "; ";
    assert CookiePairs(cs) == CookiePairs(init) + tail;
    if init == [] {
      assert CookiePairs(cs) == Pair(cs[0]) + "; ";
    } else {
      PairsStartWithFirst(init);
      assert init[0] == cs[0];
      var p := Pair(cs[0]) + "; ";
      assert CookiePairs(cs)[..|p|] == CookiePairs(init)[..|p|];
    }
  }

  /**
   * With at least one cookie the header is not empty and ends with `;`;
   * without cookies it is empty. When the first cookie's name does not
   * open with white space, nothing is trimmed from the front: the header
   * is the pairs less their final space, and so starts with the first
   * cookie's `name=value;`.
   */
  lemma CookieHeaderSpec(cookies: Option<seq<Cookie>>)
    ensures (cookies.None? || cookies.value == []) <==> CookieHeader(cookies) == ""
    ensures CookieHeader(cookies) != "" ==> CookieHeader(cookies)[|CookieHeader(cookies)| - 1] == ';'
    ensures cookies.Some? && cookies.value != [] && (cookies.value[0].name == "" || cookies.value[0].name[0] !in JsWhitespace) ==>
              CookieHeader(cookies) + " " == CookiePairs(cookies.value)
              && IsPrefix(Pair(cookies.value[0]) + ";", CookieHeader(cookies))
  {
    if cookies.Some? && cookies.value != [] {
      var cs := cookies.value;
      var s := CookiePairs(cs);
      var c := cs[|cs| - 1];
      var pre := CookiePairs(cs[..|cs| - 1]) + c.name + "=" + c.value;
      assert s == pre + ";" + " ";
      TrimEndsAtSemicolon(pre);
      if cs[0].name == "" || cs[0].name[0] !in JsWhitespace {
        HeaderIsPairsLessSpace(cs);
      }
    }
  }

  /** Nothing to trim at the front: the header is the pairs less their final space. */
  lemma HeaderIsPairsLessSpace(cs: seq<Cookie>)
    requires cs != [] && (cs[0].name == "" || cs[0].name[0] !in JsWhitespace)
    ensures CookieHeader(Some(cs)) + " " == CookiePairs(cs)
    ensures IsPrefix(Pair(cs[0]) + ";", CookieHeader(Some(cs)))
  {
    var s := CookiePairs(cs);
    var p := Pair(cs[0]) + "; ";
    PairsStartWithFirst(cs);
    PairsEndInSpace(cs);
    assert s[0] !in JsWhitespace by {
      assert s[0] == p[0];
      if cs[0].name == "" {
        assert p[0] == '=';
      } else {
        assert p[0] == cs[0].name[0];
      }
    }
    assert TrimStart(s, JsWhitespace) == s;
    TrimEndOne(s);
    var h := s[..|s| - 1];
    assert CookieHeader(Some(cs)) == h;
    assert h[..|p| - 1] == p[..|p| - 1];
  }

  /** The pairs end with `; `. */
  lemma PairsEndInSpace(cs: seq<Cookie>)
    requires cs != []
    ensures var s := CookiePairs(cs); |s| >= 2 && s[|s| - 2] == ';' && s[|s| - 1] == ' '
  {
  }

  /** Trimming `pre + "; "` leaves a string that ends with `;`. */
  lemma TrimEndsAtSemicolon(pre: string)
    ensures var r := Trim(pre + "; ", JsWhitespace); r != "" && r[|r| - 1] == ';'
  {
    var s := pre + "; ";
    var t := TrimStart(s, JsWhitespace);
    assert s[|s| - 2] == ';' && s[|s| - 1] == ' ';
    assert |t| >= 2 && t[|t| - 2] == ';' && t[|t| - 1] == ' ' by {
      assert s[|s| - 2] !in JsWhitespace;
      assert t == s[|s| - |t|..];
    }
    var r := TrimEnd(t, JsWhitespace);
    assert r == t[..|t| - 1] by {
      TrimEndOne(t);
    }
  }

  /** A string ending `"; "` loses exactly its last space to `TrimEnd`. */
  lemma TrimEndOne(t: string)
    requires |t| >= 2 && t[|t| - 2] == ';' && t[|t| - 1] == ' '
    ensures TrimEnd(t, JsWhitespace) == t[..|t| - 1]
  {
    var u := t[..|t| - 1];
    assert u[|u| - 1] == ';';
    assert ';' !in JsWhitespace;
  }

  // ---------------------------------------------------------------------
  // extractArtworkUrls

  /** Works per request: the `limit` of every bookmark request. */
  const Limit := 48

  /** The offset of request `n`. */
  function Offset(n: nat): nat {
    48 * n
  }

  /** A bookmark API answer: the request or JSON parsing threw, or a parsed response. */
  datatype Answer = Thrown | Answer(error: bool, works: Option<seq<Work>>)

  /** `fetchBookmarks(userId, cookie, offset, 48)`: a request of the bookmark API, sent with the cookie header. */
  datatype ApiRequest = ApiRequest(userId: string, offset: nat)

  /** The path a request is sent to, on `www.pixiv.net`. */
  function ApiPath(r: ApiRequest): string {
    ApiPathHead(r.userId) + IntToString(r.offset) + "&limit=48&rest=show&lang=en"
  }

  function ApiPathHead(userId: string): string {
    "/ajax/user/" + userId + "/illusts/bookmarks?tag=&offset="
  }

  /** For one user, different offsets are requested at different paths. */
  lemma ApiPathInjective(userId: string, o1: nat, o2: nat)
    requires ApiPath(ApiRequest(userId, o1)) == ApiPath(ApiRequest(userId, o2))
    ensures o1 == o2
  {
    Providers.NumberHasNoSeparators(o1);
    Providers.NumberHasNoSeparators(o2);
    var tail := "limit=48&rest=show&lang=en";
    assert ApiPath(ApiRequest(userId, o1)) == ApiPathHead(userId) + IntToString(o1) + ['&'] + tail;
    assert ApiPath(ApiRequest(userId, o2)) == ApiPathHead(userId) + IntToString(o2) + ['&'] + tail;
    Providers.FieldThenRest(ApiPathHead(userId), IntToString(o1), tail, IntToString(o2), tail, '&');
    IntToStringInjective(o1, o2);
  }

  /** `https://www.pixiv.net/artworks/{id}` for each work with a (truthy) id, in order. */
  function UrlsOf(works: seq<Work>): (urls: seq<string>)
    ensures |urls| <= |works|
    decreases |works|
  {
    if works == [] then []
    else UrlsOf(works[..|works| - 1]) + (if works[|works| - 1].id != "" then [UrlBuilder.WorkUrl(works[|works| - 1].id)] else [])
  }

  /** The answer ends the loop: an exception, an API error, no `body.works`, or a page that is not full. */
  predicate Stops(a: Answer) {
    a.Thrown? || a.error || a.works.None? || |a.works.value| < Limit
  }

  /** The works an answer contributes: those of a good, non-empty page. */
  function Gathered(a: Answer): seq<Work> {
    if a.Thrown? || a.error || a.works.None? then [] else a.works.value
  }

  /** The URLs gathered and the number of requests sent. */
  datatype Extraction = Extraction(urls: seq<string>, requests: nat)

  /**
   * The loop from request `n` (offset `48 * n`) on; `last` is a request
   * whose answer ends the loop, which bounds it.
   */
  function ExtractFrom(userId: string, fetch: ApiRequest -> Answer, n: nat, last: nat): Extraction
    decreases if n <= last then last - n + 1 else 0
  {
    if n > last then Extraction([], 0)
    else
      var a := fetch(ApiRequest(userId, Offset(n)));
      var rest := if Stops(a) then Extraction([], 0) else ExtractFrom(userId, fetch, n + 1, last);
      Extraction(UrlsOf(Gathered(a)) + rest.urls, rest.requests + 1)
  }

  /**
   * `extractArtworkUrls(userId, cookie)`: requests offsets 0, 48, 96, …
   * in order (`requested`, each sent to `ApiPath`) and
   * gathers each page's URLs, until an answer ends the loop. `last` is a
   * request whose answer does.
   */
  method ExtractArtworkUrls(userId: string, fetch: ApiRequest -> Answer, ghost last: nat)
    returns (artworkUrls: seq<string>, requested: seq<int>)
    requires Stops(fetch(ApiRequest(userId, Offset(last))))
    ensures var e := ExtractFrom(userId, fetch, 0, last);
            artworkUrls == e.urls && requested == Offsets(e.requests)
  {
    artworkUrls := [];
    requested := [];
    var offset := 0;
    var hasMore := true;
    ghost var n := 0;
    while hasMore
      invariant Progress(userId, fetch, last, artworkUrls, n, hasMore)
      invariant hasMore ==> n <= last
      invariant offset == Offset(n) && requested == Offsets(n)
      decreases if hasMore then last - n + 1 else 0
    {
      var urls, more := FetchBookmarks(userId, fetch, offset);
      Advance(userId, fetch, last, artworkUrls, n, urls, more);
      requested := requested + [offset];
      artworkUrls := artworkUrls + urls;
      offset := offset + Limit;
      hasMore := more;
      n := n + 1;
    }
  }

  /**
   * The loop after `n` requests has gathered `acc`: while it goes on, the
   * rest of it gathers the rest of `ExtractFrom`; once it stops, it has
   * gathered all of it.
   */
  predicate Progress(userId: string, fetch: ApiRequest -> Answer, last: nat, acc: seq<string>, n: nat, hasMore: bool) {
    var e := ExtractFrom(userId, fetch, 0, last);
    if hasMore then n <= last && e.urls == acc + ExtractFrom(userId, fetch, n, last).urls
                    && e.requests == n + ExtractFrom(userId, fetch, n, last).requests
    else e == Extraction(acc, n)
  }

  /** One turn keeps `Progress`. */
  lemma Advance(userId: string, fetch: ApiRequest -> Answer, last: nat, acc: seq<string>, n: nat, urls: seq<string>, more: bool)
    requires Progress(userId, fetch, last, acc, n, true) && Stops(fetch(ApiRequest(userId, Offset(last))))
    requires var a := fetch(ApiRequest(userId, Offset(n))); urls == UrlsOf(Gathered(a)) && more == !Stops(a)
    ensures Progress(userId, fetch, last, acc + urls, n + 1, more)
  {
    ExtractOne(userId, fetch, n, last);
    var e := ExtractFrom(userId, fetch, 0, last);
    var next := ExtractFrom(userId, fetch, n + 1, last);
    if more {
      assert e.urls == (acc + urls) + next.urls;
    } else {
      assert ExtractFrom(userId, fetch, n, last) == Extraction(urls, 1);
    }
  }

  /**
   * One turn of the loop: the request at `offset`; its URLs, and whether
   * the loop goes on. A failed request and an empty page end the loop with
   * nothing; a short page ends it after its URLs.
   */
  method FetchBookmarks(userId: string, fetch: ApiRequest -> Answer, offset: nat) returns (urls: seq<string>, more: bool)
    ensures var a := fetch(ApiRequest(userId, offset));
            urls == UrlsOf(Gathered(a)) && more == !Stops(a)
  {
    var response := fetch(ApiRequest(userId, offset));
    if response.Thrown? || response.error || response.works.None? || |response.works.value| == 0 {
      return [], false;
    }
    var works := response.works.value;
    urls := UrlsOf(works);
    more := true;
    if |works| < Limit {
      more := false;
    }
  }

  /** The offsets of the first `n` requests, in order. */
  function Offsets(n: nat): seq<int> {
    if n == 0 then [] else Offsets(n - 1) + [Offset(n - 1)]
  }

  /** Request `i` asks for offset `48 * i`: 0, 48, 96, … */
  lemma {:induction false} OffsetsSpec(n: nat)
    ensures |Offsets(n)| == n
    ensures forall i :: 0 <= i < n ==> Offsets(n)[i] == 48 * i
  {
    if n > 0 {
      OffsetsSpec(n - 1);
    }
  }

  /** The loop's first request from `n`, unfolded. */
  lemma ExtractOne(userId: string, fetch: ApiRequest -> Answer, n: nat, last: nat)
    requires n <= last
    ensures var a := fetch(ApiRequest(userId, Offset(n)));
            var r := ExtractFrom(userId, fetch, n + 1, last);
            ExtractFrom(userId, fetch, n, last)
              == if Stops(a) then Extraction(UrlsOf(Gathered(a)), 1) else Extraction(UrlsOf(Gathered(a)) + r.urls, r.requests + 1)
  {
    var a := fetch(ApiRequest(userId, Offset(n)));
    assert UrlsOf(Gathered(a)) + [] == UrlsOf(Gathered(a));
  }

  /** A listing of `n` works, served 48 at a time: request `i` answers with the `i`-th slice. */
  ghost predicate Serves(userId: string, fetch: ApiRequest -> Answer, works: seq<Work>) {
    forall i: nat :: ServesPage(userId, fetch, works, i)
  }

  /** Request `i` is answered with the `i`-th slice of the listing. */
  ghost predicate ServesPage(userId: string, fetch: ApiRequest -> Answer, works: seq<Work>, i: nat) {
    fetch(ApiRequest(userId, Offset(i))) == Answer(false, Some(PageOf(works, i + 1)))
  }

  /**
   * Served a listing of `n` works, the extractor sends `n / 48 + 1`
   * requests and returns the URL of every work with an id, in listing
   * order.
   */
  lemma ListingExtracted(userId: string, fetch: ApiRequest -> Answer, works: seq<Work>)
    requires Serves(userId, fetch, works)
    ensures Stops(fetch(ApiRequest(userId, Offset((|works| / Limit)))))
    ensures var e := ExtractFrom(userId, fetch, 0, |works| / Limit);
            e.requests == |works| / Limit + 1 && e.urls == UrlsOf(works)
  {
    assert ServesPage(userId, fetch, works, |works| / Limit);
    PageSizes(works, LastPage(|works|));
    ExtractedFrom(userId, fetch, works, 0, |works| / Limit);
    assert Rest(works, 0) == works;
  }

  lemma {:induction false} ExtractedFrom(userId: string, fetch: ApiRequest -> Answer, works: seq<Work>, n: nat, last: nat)
    requires Serves(userId, fetch, works) && last == |works| / Limit && n <= last
    ensures Extracted(userId, fetch, works, n, last)
    decreases last - n
  {
    if n < last {
      ExtractedFrom(userId, fetch, works, n + 1, last);
      ExtractedBefore(userId, fetch, works, n, last);
    } else {
      ExtractedLast(userId, fetch, works, last);
    }
  }

  /** From request `n` on, the loop sends one request per remaining page and gathers the URLs of the remaining works. */
  ghost predicate Extracted(userId: string, fetch: ApiRequest -> Answer, works: seq<Work>, n: nat, last: nat) {
    var e := ExtractFrom(userId, fetch, n, last);
    e.requests == last - n + 1 && e.urls == UrlsOf(Rest(works, n))
  }

  /** A full page before the last adds its URLs in front of the rest. */
  lemma ExtractedBefore(userId: string, fetch: ApiRequest -> Answer, works: seq<Work>, n: nat, last: nat)
    requires Serves(userId, fetch, works) && last == |works| / Limit && n < last
    requires Extracted(userId, fetch, works, n + 1, last)
    ensures Extracted(userId, fetch, works, n, last)
  {
    var page := PageOf(works, n + 1);
    var tail := Rest(works, n + 1);
    assert ServesPage(userId, fetch, works, n);
    PageSplit(works, n);
    ExtractStep(userId, fetch, n, last, page);
    UrlsOfAppend(page, tail);
  }

  /** The last page is short and ends the loop. */
  lemma ExtractedLast(userId: string, fetch: ApiRequest -> Answer, works: seq<Work>, last: nat)
    requires Serves(userId, fetch, works) && last == |works| / Limit
    ensures Extracted(userId, fetch, works, last, last)
  {
    assert ServesPage(userId, fetch, works, last);
    PageSplit(works, last);
    ExtractStep(userId, fetch, last, last, PageOf(works, last + 1));
  }

  /** One request of the loop: a full page adds its URLs to the rest of the loop; a short page ends it. */
  lemma ExtractStep(userId: string, fetch: ApiRequest -> Answer, n: nat, last: nat, page: seq<Work>)
    requires n <= last && fetch(ApiRequest(userId, Offset(n))) == Answer(false, Some(page))
    requires n < last <==> |page| == Limit
    ensures var r := ExtractFrom(userId, fetch, n + 1, last);
            ExtractFrom(userId, fetch, n, last)
              == if n < last then Extraction(UrlsOf(page) + r.urls, r.requests + 1) else Extraction(UrlsOf(page), 1)
  {
    if n == last {
      assert UrlsOf(page) + [] == UrlsOf(page);
    }
  }

  /** Request `n` of a listing is full before the last one, and holds the rest of the listing at the last one. */
  lemma PageSplit(works: seq<Work>, n: nat)
    requires n <= |works| / Limit
    ensures n < |works| / Limit ==> |PageOf(works, n + 1)| == Limit
                                    && Rest(works, n) == PageOf(works, n + 1) + Rest(works, n + 1)
    ensures n == |works| / Limit ==> PageOf(works, n + 1) == Rest(works, n) && |PageOf(works, n + 1)| < Limit
  {
    var q := |works| / Limit;
    assert q * Limit <= |works| < (q + 1) * Limit;
    assert n * Limit <= q * Limit;
    if n < q {
      assert (n + 1) * Limit <= q * Limit;
      assert PageOf(works, n + 1) == works[n * Limit..(n + 1) * Limit];
      assert works[n * Limit..] == works[n * Limit..(n + 1) * Limit] + works[(n + 1) * Limit..];
    }
  }

  /** The works from request `n` on. */
  function Rest(works: seq<Work>, n: nat): seq<Work> {
    if n * Limit <= |works| then works[n * Limit..] else []
  }


  lemma {:induction false} UrlsOfAppend(a: seq<Work>, b: seq<Work>)
    ensures UrlsOf(a + b) == UrlsOf(a) + UrlsOf(b)
    decreases |b|
  {
    if b == [] {
      assert a + b == a;
    } else {
      assert (a + b)[..|a + b| - 1] == a + b[..|b| - 1];
      UrlsOfAppend(a, b[..|b| - 1]);
    }
  }

  /** A failure on the first request ends the run with no URLs after one request. */
  lemma FirstFailureGathersNothing(userId: string, fetch: ApiRequest -> Answer, last: nat)
    requires var a := fetch(ApiRequest(userId, 0)); a.Thrown? || a.error || a.works.None?
    ensures ExtractFrom(userId, fetch, 0, last) == Extraction([], 1)
  {
  }

  /** Every gathered URL is the artwork page of a work with a non-empty id. */
  lemma {:induction false} UrlsAreArtworkPages(works: seq<Work>)
    ensures forall u :: u in UrlsOf(works) ==> exists w :: w in works && w.id != "" && u == UrlBuilder.WorkUrl(w.id)
    decreases |works|
  {
    if works != [] {
      UrlsAreArtworkPages(works[..|works| - 1]);
    }
  }

  // ---------------------------------------------------------------------
  // main

  /**
   * The exit code of the whole script: the launch's for help and refusals;
   * 1 for a URL without a user id or a session without cookies; 0 when no
   * artwork was found; in file mode, 1 when writing the URL file fails
   * (`written` is whether `fs.writeFileSync` succeeds); otherwise 0 after
   * the output.
   */
  function ExitCode(args: seq<string>, cookies: Option<seq<Cookie>>, urls: seq<string>, written: bool): int {
    var l := ParseLaunch(args);
    if !l.Run? then LaunchExit(l)
    else if ExtractUserId(l.bookmarkUrl).None? then 1
    else if CookieHeader(cookies) == "" then 1
    else if urls == [] then 0
    else if l.outputMode == "file" && !written then 1
    else 0
  }

  /**
   * The script fails exactly for a refused command line, a URL without user
   * id, no cookies, or a failed write of the URLs it found in file mode.
   */
  lemma ExitCodeSpec(args: seq<string>, cookies: Option<seq<Cookie>>, urls: seq<string>, written: bool)
    ensures ExitCode(args, cookies, urls, written) == 1 <==>
              ParseLaunch(args).BadUrl? || ParseLaunch(args).BadOutput?
              || (ParseLaunch(args).Run? && (ExtractUserId(ParseLaunch(args).bookmarkUrl).None?
                                             || cookies.None? || cookies.value == []))
              || (ParseLaunch(args).Run? && ExtractUserId(ParseLaunch(args).bookmarkUrl).Some?
                  && cookies.Some? && cookies.value != [] && urls != []
                  && ParseLaunch(args).outputMode == "file" && !written)
  {
    CookieHeaderSpec(cookies);
  }
}
