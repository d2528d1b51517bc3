/**
 * `DownloadAdapter`: the ordered table that maps a URL to the provider that
 * can download it. Each entry holds a provider and its patterns; the first
 * pattern (in table order, then pattern order) that matches the URL wins,
 * and its named groups become the provider's context. Plugins append
 * entries (`extendMap`) and remove them (`removeProvider`).
 *
 * The regular expressions of the built-in entries are written out as
 * matchers below; a plugin's pattern is given by the inputs it matches.
 */
module DownloadAdapters {
  import opened Wrappers
  import opened Strings

  datatype Provider =
    | PixivUser
    | PixivBookmarkUrl
    | PixivGeneralArtwork
    | PixivNovel
    | PixivNovelSeries
    | PixivComicEpisode
    | PixivComicWork
    | PluginProvider(name: string)

  /** The named groups of a match. */
  type Context = map<string, string>

  /** One pattern of the table: a built-in regular expression, or a plugin's (by the inputs it matches). */
  datatype Pattern =
    | MemberPage
    | UserPage
    /** The user pattern with the end anchor it lacks (see the corrected table). */
    | AnchoredUserPage
    | BookmarksPage
    | ArtworkPage
    | NovelPage
    | NovelSeriesPage
    | ComicStoryPage
    | ComicWorkPage
    | Listed(matches: map<string, Context>)

  datatype MatchEntry = MatchEntry(provider: Provider, patterns: seq<Pattern>)

  /** What `createProvider` is called with: the URL and the match's named groups. */
  datatype Resolved = Resolved(provider: Provider, url: string, context: Context)

  // ---------------------------------------------------------------------
  // Matching
  //
  // Each matcher consumes a prefix of what is left of the input and hands
  // the remainder on, as the regular expression reads it from left to right.
  // The `www.pixiv.net` patterns carry the `i` flag (without `u`), so their
  // literals and their `[a-z]` class compare letters after ASCII case folding.

  function LowerChar(c: char): char {
    if 'A' <= c <= 'Z' then (c as int + 32) as char else c
  }

  /** The input with every ASCII letter folded to lower case. */
  function Lower(s: string): (r: string)
    ensures |r| == |s|
  {
    if s == [] then [] else [LowerChar(s[0])] + Lower(s[1..])
  }

  /** The characters `.` does not match. */
  predicate IsLineTerminator(c: char) {
    c == '\n' || c == '\r' || c == '\U{2028}' || c == '\U{2029}'
  }

  /** `.*$`: the rest of the input holds no line terminator. */
  predicate RestOfLine(u: string) {
    forall i :: 0 <= i < |u| ==> !IsLineTerminator(u[i])
  }

  /** `(?:\?.*)?$`: the end of the input, or a query that runs to it. */
  predicate QueryEnd(u: string) {
    u == [] || (u[0] == '?' && RestOfLine(u[1..]))
  }

  /** `(?:&.*)?$`: the end of the input, or further parameters that run to it. */
  predicate ParamsEnd(u: string) {
    u == [] || (u[0] == '&' && RestOfLine(u[1..]))
  }

  /** `lit` begins `u`, letters compared without case. */
  predicate PrefixIgnoringCase(lit: string, u: string) {
    |lit| <= |u| && forall i :: 0 <= i < |lit| ==> LowerChar(u[i]) == LowerChar(lit[i])
  }

  /** `lit` begins `u`; `ci` is the pattern's `i` flag. */
  predicate StartsWith(u: string, lit: string, ci: bool) {
    if ci then PrefixIgnoringCase(lit, u) else IsPrefix(lit, u)
  }

  const PixivHost := "www.pixiv.net/"
  const ComicHost := "comic.pixiv.net/"

  /** `^https?:\/\/`: what follows the scheme. */
  function AfterScheme(t: string, ci: bool): Option<string> {
    if StartsWith(t, "https://", ci) then Some(t[8..])
    else if StartsWith(t, "http://", ci) then Some(t[7..])
    else None
  }

  /** The scheme, then `host`: what follows the host. */
  function AfterHost(t: string, host: string, ci: bool): Option<string> {
    match AfterScheme(t, ci)
    case None => None
    case Some(u) => if StartsWith(u, host, ci) then Some(u[|host|..]) else None
  }

  /** `\d+` at the start of `u`, greedy: the length of the run, when there is at least one digit. */
  function LeadingDigits(u: string): (r: Option<nat>)
    ensures r.Some? <==> |u| > 0 && IsDigit(u[0])
    ensures r.Some? ==> 0 < r.value <= |u| && IsDigitString(u[..r.value])
                        && (r.value == |u| || !IsDigit(u[r.value]))
  {
    if |u| > 0 && IsDigit(u[0]) then Some(DigitRunEnd(u, 0)) else None
  }

  /** `[a-z]` under the `i` flag. */
  predicate IsLetter(c: char) {
    'a' <= LowerChar(c) <= 'z'
  }

  function LetterRunEnd(u: string, k: nat): (r: nat)
    requires k <= |u|
    ensures k <= r <= |u|
    ensures r == |u| || !IsLetter(u[r])
    ensures forall i :: k <= i < r ==> IsLetter(u[i])
    decreases |u| - k
  {
    if k < |u| && IsLetter(u[k]) then LetterRunEnd(u, k + 1) else k
  }

  /**
   * The optional language segment `(?:[a-z]+\/)?` before `tail`: the segment
   * is tried first, and skipped when `tail` fails after it.
   */
  function WithLanguage(u: string, tail: string -> Option<Context>): Option<Context> {
    var j := LetterRunEnd(u, 0);
    if 0 < j < |u| && u[j] == '/' && tail(u[j + 1..]).Some? then tail(u[j + 1..]) else tail(u)
  }

  /** `(?<id>\d+)` with nothing required after the digits. */
  function IdTail(u: string): Option<Context> {
    match LeadingDigits(u)
    case None => None
    case Some(e) => Some(map["id" := u[..e]])
  }

  /** `users\/(?<id>\d+)(?:\?.*)?`, without an end anchor. */
  function UsersTail(u: string): Option<Context> {
    if StartsWith(u, "users/", true) then IdTail(u[6..]) else None
  }

  /** `users\/(?<id>\d+)(?:\?.*)?$`: the user pattern anchored at the end. */
  function AnchoredUsersTail(u: string): Option<Context> {
    if !StartsWith(u, "users/", true) then None
    else
      var v := u[6..];
      match LeadingDigits(v)
      case None => None
      case Some(e) => if QueryEnd(v[e..]) then Some(map["id" := v[..e]]) else None
  }

  /** `users\/(?<userId>\d+)\/bookmarks\/artworks(?:\?.*)?$`. */
  function BookmarksTail(u: string): Option<Context> {
    if !StartsWith(u, "users/", true) then None
    else
      var v := u[6..];
      match LeadingDigits(v)
      case None => None
      case Some(e) =>
        var w := v[e..];
        if StartsWith(w, "/bookmarks/artworks", true) && QueryEnd(w[19..]) then Some(map["userId" := v[..e]]) else None
  }

  /** `artworks\/(?<id>\d+)(?:\?.*)?$`. */
  function ArtworkTail(u: string): Option<Context> {
    if !StartsWith(u, "artworks/", true) then None
    else
      var v := u[9..];
      match LeadingDigits(v)
      case None => None
      case Some(e) => if QueryEnd(v[e..]) then Some(map["id" := v[..e]]) else None
  }

  /** `(?:_illust)?\.php\?id=(?<id>\d+)(?:&.*)?$`, what follows `member`. */
  function MemberTail(u: string): Option<Context> {
    var v := if StartsWith(u, "_illust", true) then u[7..] else u;
    if !StartsWith(v, ".php?id=", true) then None
    else
      var w := v[8..];
      match LeadingDigits(w)
      case None => None
      case Some(e) => if ParamsEnd(w[e..]) then Some(map["id" := w[..e]]) else None
  }

  /** `^https?:\/{2}www\.pixiv\.net\/member(?:_illust)?\.php\?id=(?<id>\d+)(?:&.*)?$`, case-insensitive. */
  function MemberMatch(t: string): Option<Context> {
    match AfterHost(t, PixivHost + "member", true)
    case None => None
    case Some(u) => MemberTail(u)
  }

  /** A case-insensitive pattern under `www.pixiv.net/` with the optional language segment. */
  function PixivPath(t: string, tail: string -> Option<Context>): Option<Context> {
    match AfterHost(t, PixivHost, true)
    case None => None
    case Some(u) => WithLanguage(u, tail)
  }

  /** A pattern that is `host` followed by `(?<id>\d+)`. */
  function IdAfterHost(t: string, host: string, ci: bool): Option<Context> {
    match AfterHost(t, host, ci)
    case None => None
    case Some(u) => IdTail(u)
  }

  /** `src.match(pattern)`: the named groups of the match, or None when it does not match. */
  function Match(p: Pattern, src: string): Option<Context> {
    match p
    case MemberPage => MemberMatch(src)
    case UserPage => PixivPath(src, UsersTail)
    case AnchoredUserPage => PixivPath(src, AnchoredUsersTail)
    case BookmarksPage => PixivPath(src, BookmarksTail)
    case ArtworkPage => PixivPath(src, ArtworkTail)
    case NovelPage => IdAfterHost(src, PixivHost + "novel/show.php?id=", true)
    case NovelSeriesPage => IdAfterHost(src, PixivHost + "novel/series/", true)
    case ComicStoryPage => IdAfterHost(src, ComicHost + "viewer/stories/", false)
    case ComicWorkPage => IdAfterHost(src, ComicHost + "works/", false)
    case Listed(m) => if src in m then Some(m[src]) else None
  }

  // ---------------------------------------------------------------------
  // Case (in)sensitivity

  /** The patterns of `www.pixiv.net`, which carry the `i` flag. */
  predicate CaseInsensitive(p: Pattern) {
    !p.Listed? && !p.ComicStoryPage? && !p.ComicWorkPage?
  }

  lemma {:induction false} LowerSpec(s: string)
    ensures |Lower(s)| == |s|
    ensures forall i :: 0 <= i < |s| ==> Lower(s)[i] == LowerChar(s[i])
    decreases |s|
  {
    if s != [] {
      LowerSpec(s[1..]);
    }
  }

  lemma {:induction false} LowerDrop(s: string, k: nat)
    requires k <= |s|
    ensures Lower(s)[k..] == Lower(s[k..])
    decreases k
  {
    if k > 0 {
      LowerDrop(s[1..], k - 1);
      assert s[1..][k - 1..] == s[k..];
    }
  }

  lemma {:induction false} LowerTake(s: string, k: nat)
    requires k <= |s|
    ensures Lower(s)[..k] == Lower(s[..k])
    decreases k
  {
    if k > 0 {
      LowerTake(s[1..], k - 1);
      assert s[..k][1..] == s[1..][..k - 1];
    }
  }

  lemma LowerSlices(s: string, k: nat)
    requires k <= |s|
    ensures Lower(s)[k..] == Lower(s[k..]) && Lower(s)[..k] == Lower(s[..k])
  {
    LowerDrop(s, k);
    LowerTake(s, k);
  }

  /** Folding changes no character a pattern compares exactly: digits, punctuation, line terminators. */
  lemma LowerCharKeeps(c: char)
    ensures LowerChar(LowerChar(c)) == LowerChar(c)
    ensures IsDigit(LowerChar(c)) == IsDigit(c) && (IsDigit(c) ==> LowerChar(c) == c)
    ensures IsLineTerminator(LowerChar(c)) == IsLineTerminator(c)
    ensures (LowerChar(c) == '/') == (c == '/') && (LowerChar(c) == '?') == (c == '?')
    ensures (LowerChar(c) == '&') == (c == '&')
    ensures IsLetter(LowerChar(c)) == IsLetter(c)
  {
  }

  lemma PrefixIgnoringCaseLower(lit: string, u: string)
    ensures PrefixIgnoringCase(lit, Lower(u)) == PrefixIgnoringCase(lit, u)
  {
    LowerSpec(u);
    forall i | 0 <= i < |u| {
      LowerCharKeeps(u[i]);
    }
  }

  /** What a case-insensitive prefix match leaves over is the folded rest. */
  lemma StartsWithLower(u: string, lit: string)
    ensures StartsWith(Lower(u), lit, true) == StartsWith(u, lit, true)
    ensures StartsWith(u, lit, true) ==> Lower(u)[|lit|..] == Lower(u[|lit|..])
  {
    PrefixIgnoringCaseLower(lit, u);
    LowerSpec(u);
    if |lit| <= |u| {
      LowerSlices(u, |lit|);
    }
  }

  function LowerOpt(o: Option<string>): Option<string> {
    match o
    case None => None
    case Some(u) => Some(Lower(u))
  }

  lemma AfterHostLower(t: string, host: string)
    ensures AfterHost(Lower(t), host, true) == LowerOpt(AfterHost(t, host, true))
  {
    StartsWithLower(t, "https://");
    StartsWithLower(t, "http://");
    match AfterScheme(t, true)
    case None =>
    case Some(u) =>
      assert AfterScheme(Lower(t), true) == Some(Lower(u));
      StartsWithLower(u, host);
  }

  lemma {:induction false} DigitRunLower(u: string, k: nat)
    requires k <= |u|
    ensures DigitRunEnd(Lower(u), k) == DigitRunEnd(u, k)
    decreases |u| - k
  {
    LowerSpec(u);
    if k < |u| {
      LowerCharKeeps(u[k]);
      DigitRunLower(u, k + 1);
    }
  }

  /** Folding keeps the digit run and the captured digits. */
  lemma LeadingDigitsLower(u: string)
    ensures LeadingDigits(Lower(u)) == LeadingDigits(u)
    ensures LeadingDigits(u).Some? ==> Lower(u)[..LeadingDigits(u).value] == u[..LeadingDigits(u).value]
                                       && Lower(u)[LeadingDigits(u).value..] == Lower(u[LeadingDigits(u).value..])
  {
    LowerSpec(u);
    if |u| > 0 {
      LowerCharKeeps(u[0]);
      DigitRunLower(u, 0);
    }
    if LeadingDigits(u).Some? {
      var e := LeadingDigits(u).value;
      LowerSlices(u, e);
      forall i | 0 <= i < e ensures Lower(u)[i] == u[i] {
        LowerCharKeeps(u[i]);
        assert IsDigit(u[..e][i]);
      }
    }
  }

  lemma IdTailLower(u: string)
    ensures IdTail(Lower(u)) == IdTail(u)
  {
    LeadingDigitsLower(u);
  }

  lemma RestOfLineLower(u: string)
    ensures RestOfLine(Lower(u)) == RestOfLine(u)
  {
    LowerSpec(u);
    forall i | 0 <= i < |u| {
      LowerCharKeeps(u[i]);
    }
  }

  lemma QueryEndLower(u: string)
    ensures QueryEnd(Lower(u)) == QueryEnd(u)
  {
    LowerSpec(u);
    if u != [] {
      LowerCharKeeps(u[0]);
      LowerSlices(u, 1);
      RestOfLineLower(u[1..]);
    }
  }

  lemma ParamsEndLower(u: string)
    ensures ParamsEnd(Lower(u)) == ParamsEnd(u)
  {
    LowerSpec(u);
    if u != [] {
      LowerCharKeeps(u[0]);
      LowerSlices(u, 1);
      RestOfLineLower(u[1..]);
    }
  }

  lemma UsersTailLower(u: string)
    ensures UsersTail(Lower(u)) == UsersTail(u)
  {
    StartsWithLower(u, "users/");
    if StartsWith(u, "users/", true) {
      IdTailLower(u[6..]);
    }
  }

  lemma AnchoredUsersTailLower(u: string)
    ensures AnchoredUsersTail(Lower(u)) == AnchoredUsersTail(u)
  {
    StartsWithLower(u, "users/");
    if StartsWith(u, "users/", true) {
      var v := u[6..];
      LeadingDigitsLower(v);
      if LeadingDigits(v).Some? {
        QueryEndLower(v[LeadingDigits(v).value..]);
      }
    }
  }

  lemma BookmarksTailLower(u: string)
    ensures BookmarksTail(Lower(u)) == BookmarksTail(u)
  {
    StartsWithLower(u, "users/");
    if StartsWith(u, "users/", true) {
      var v := u[6..];
      LeadingDigitsLower(v);
      if LeadingDigits(v).Some? {
        var e := LeadingDigits(v).value;
        var w := v[e..];
        StartsWithLower(w, "/bookmarks/artworks");
        if StartsWith(w, "/bookmarks/artworks", true) {
          QueryEndLower(w[19..]);
        }
      }
    }
  }

  lemma ArtworkTailLower(u: string)
    ensures ArtworkTail(Lower(u)) == ArtworkTail(u)
  {
    StartsWithLower(u, "artworks/");
    if StartsWith(u, "artworks/", true) {
      var v := u[9..];
      LeadingDigitsLower(v);
      if LeadingDigits(v).Some? {
        QueryEndLower(v[LeadingDigits(v).value..]);
      }
    }
  }

  lemma MemberTailLower(u: string)
    ensures MemberTail(Lower(u)) == MemberTail(u)
  {
    StartsWithLower(u, "_illust");
    var v := if StartsWith(u, "_illust", true) then u[7..] else u;
    assert (if StartsWith(Lower(u), "_illust", true) then Lower(u)[7..] else Lower(u)) == Lower(v);
    StartsWithLower(v, ".php?id=");
    if StartsWith(v, ".php?id=", true) {
      var w := v[8..];
      LeadingDigitsLower(w);
      if LeadingDigits(w).Some? {
        ParamsEndLower(w[LeadingDigits(w).value..]);
      }
    }
  }

  lemma {:induction false} LetterRunLower(u: string, k: nat)
    requires k <= |u|
    ensures LetterRunEnd(Lower(u), k) == LetterRunEnd(u, k)
    decreases |u| - k
  {
    LowerSpec(u);
    if k < |u| {
      LowerCharKeeps(u[k]);
      LetterRunLower(u, k + 1);
    }
  }

  lemma WithLanguageLower(u: string, tail: string -> Option<Context>)
    requires forall x :: tail(Lower(x)) == tail(x)
    ensures WithLanguage(Lower(u), tail) == WithLanguage(u, tail)
  {
    LowerSpec(u);
    LetterRunLower(u, 0);
    var j := LetterRunEnd(u, 0);
    if 0 < j < |u| {
      LowerCharKeeps(u[j]);
      LowerSlices(u, j + 1);
      assert tail(Lower(u)[j + 1..]) == tail(u[j + 1..]);
    }
    assert tail(Lower(u)) == tail(u);
  }

  lemma PixivPathLower(t: string, tail: string -> Option<Context>)
    requires forall x :: tail(Lower(x)) == tail(x)
    ensures PixivPath(Lower(t), tail) == PixivPath(t, tail)
  {
    AfterHostLower(t, PixivHost);
    if AfterHost(t, PixivHost, true).Some? {
      WithLanguageLower(AfterHost(t, PixivHost, true).value, tail);
    }
  }

  /** The `www.pixiv.net` patterns ignore the case of the input. */
  lemma CaseInsensitiveMatch(p: Pattern, src: string)
    requires CaseInsensitive(p)
    ensures Match(p, Lower(src)) == Match(p, src)
  {
    match p
    case MemberPage =>
      AfterHostLower(src, PixivHost + "member");
      if AfterHost(src, PixivHost + "member", true).Some? {
        MemberTailLower(AfterHost(src, PixivHost + "member", true).value);
      }
    case UserPage =>
      forall x ensures UsersTail(Lower(x)) == UsersTail(x) { UsersTailLower(x); }
      PixivPathLower(src, UsersTail);
    case AnchoredUserPage =>
      forall x ensures AnchoredUsersTail(Lower(x)) == AnchoredUsersTail(x) { AnchoredUsersTailLower(x); }
      PixivPathLower(src, AnchoredUsersTail);
    case BookmarksPage =>
      forall x ensures BookmarksTail(Lower(x)) == BookmarksTail(x) { BookmarksTailLower(x); }
      PixivPathLower(src, BookmarksTail);
    case ArtworkPage =>
      forall x ensures ArtworkTail(Lower(x)) == ArtworkTail(x) { ArtworkTailLower(x); }
      PixivPathLower(src, ArtworkTail);
    case NovelPage =>
      AfterHostLower(src, PixivHost + "novel/show.php?id=");
      if AfterHost(src, PixivHost + "novel/show.php?id=", true).Some? {
        IdTailLower(AfterHost(src, PixivHost + "novel/show.php?id=", true).value);
      }
    case NovelSeriesPage =>
      AfterHostLower(src, PixivHost + "novel/series/");
      if AfterHost(src, PixivHost + "novel/series/", true).Some? {
        IdTailLower(AfterHost(src, PixivHost + "novel/series/", true).value);
      }
  }

  /** The `comic.pixiv.net` patterns do not: an upper-case scheme defeats them. */
  lemma ComicCaseSensitive(d: string)
    requires IsDigitString(d)
    ensures Match(ComicWorkPage, "HTTPS://" + ComicHost + "works/" + d) == None
    ensures Match(ComicWorkPage, "https://" + ComicHost + "works/" + d) == Some(map["id" := d])
  {
    var upper := "HTTPS://" + ComicHost + "works/" + d;
    assert upper[0] == 'H';
    assert "https://" + ComicHost + "works/" + d == "https://" + (ComicHost + "works/" + d);
    Split("https://", ComicHost + "works/" + d);
    Split(ComicHost + "works/", d);
    DigitRunAt(d, 0, |d|);
    assert d[..|d|] == d;
  }

  /** `a` is a prefix of `a + b`, and `b` is what follows it. */
  lemma Split(a: string, b: string)
    ensures IsPrefix(a, a + b) && (a + b)[|a|..] == b
  {
    assert (a + b)[..|a|] == a;
  }

  /** An exact prefix is also a prefix without case. */
  lemma ExactPrefix(lit: string, u: string)
    requires IsPrefix(lit, u)
    ensures StartsWith(u, lit, true) && StartsWith(u, lit, false)
  {
    assert forall i :: 0 <= i < |lit| ==> u[i] == u[..|lit|][i];
  }

  // ---------------------------------------------------------------------
  // The table and the first-match lookup

  /** The built-in table, in its order. */
  const BuiltinMaps: seq<MatchEntry> := [
    MatchEntry(PixivUser, [MemberPage, UserPage]),
    MatchEntry(PixivBookmarkUrl, [BookmarksPage]),
    MatchEntry(PixivGeneralArtwork, [ArtworkPage]),
    MatchEntry(PixivNovel, [NovelPage]),
    MatchEntry(PixivNovelSeries, [NovelSeriesPage]),
    MatchEntry(PixivComicEpisode, [ComicStoryPage]),
    MatchEntry(PixivComicWork, [ComicWorkPage])
  ]

  /** The groups of the first pattern in `patterns` that matches `src`. */
  function FirstMatch(patterns: seq<Pattern>, src: string): Option<Context> {
    if patterns == [] then None
    else if Match(patterns[0], src).Some? then Match(patterns[0], src)
    else FirstMatch(patterns[1..], src)
  }

  function Lookup(table: seq<MatchEntry>, src: string): Option<Resolved> {
    if table == [] then None
    else match FirstMatch(table[0].patterns, src)
      case Some(c) => Some(Resolved(table[0].provider, src, c))
      case None => Lookup(table[1..], src)
  }

  function NoProvider(src: string): Error {
    Failed("cannot get provider via " + src)
  }

  /** `getProvider`: the first match's provider, or an error when nothing matches. */
  function Resolve(table: seq<MatchEntry>, src: string): Result<Resolved, Error> {
    match Lookup(table, src)
    case Some(r) => Success(r)
    case None => Failure(NoProvider(src))
  }

  /** Pattern `j` of entry `i` matches `src`. */
  predicate MatchesAt(table: seq<MatchEntry>, src: string, i: nat, j: nat) {
    i < |table| && j < |table[i].patterns| && Match(table[i].patterns[j], src).Some?
  }

  /** `(i', j')` is scanned before `(i, j)`. */
  predicate Before(i': nat, j': nat, i: nat, j: nat) {
    i' < i || (i' == i && j' < j)
  }

  lemma {:induction false} FirstMatchSpec(patterns: seq<Pattern>, src: string)
    ensures FirstMatch(patterns, src).None? <==> forall j :: 0 <= j < |patterns| ==> Match(patterns[j], src).None?
    ensures FirstMatch(patterns, src).Some? ==>
              exists j :: 0 <= j < |patterns| && Match(patterns[j], src) == FirstMatch(patterns, src)
                          && forall j' :: 0 <= j' < j ==> Match(patterns[j'], src).None?
    decreases |patterns|
  {
    if patterns != [] {
      FirstMatchSpec(patterns[1..], src);
      if Match(patterns[0], src).None? {
        assert forall j :: 1 <= j < |patterns| ==> patterns[j] == patterns[1..][j - 1];
        if FirstMatch(patterns, src).Some? {
          var j :| 0 <= j < |patterns[1..]| && Match(patterns[1..][j], src) == FirstMatch(patterns, src)
                   && forall j' :: 0 <= j' < j ==> Match(patterns[1..][j'], src).None?;
          assert Match(patterns[j + 1], src) == FirstMatch(patterns, src);
        }
      }
    }
  }

  /**
   * The lookup answers with the first match in scan order: entry by entry,
   * pattern by pattern. It finds nothing exactly when no pattern matches.
   */
  lemma {:induction false} LookupSpec(table: seq<MatchEntry>, src: string)
    ensures Lookup(table, src).None? <==> forall i, j :: !MatchesAt(table, src, i, j)
    ensures Lookup(table, src).Some? ==>
              exists i: nat, j: nat :: MatchesAt(table, src, i, j)
                && Lookup(table, src) == Some(Resolved(table[i].provider, src, Match(table[i].patterns[j], src).value))
                && forall i': nat, j': nat :: Before(i', j', i, j) ==> !MatchesAt(table, src, i', j')
    decreases |table|
  {
    if table != [] {
      FirstMatchSpec(table[0].patterns, src);
      LookupSpec(table[1..], src);
      forall i: nat, j: nat | 1 <= i
        ensures MatchesAt(table, src, i, j) == MatchesAt(table[1..], src, i - 1, j)
      {
      }
      if FirstMatch(table[0].patterns, src).Some? {
        var j :| 0 <= j < |table[0].patterns| && Match(table[0].patterns[j], src) == FirstMatch(table[0].patterns, src)
                 && forall j' :: 0 <= j' < j ==> Match(table[0].patterns[j'], src).None?;
        assert MatchesAt(table, src, 0, j);
      } else {
        assert forall j :: !MatchesAt(table, src, 0, j);
        if Lookup(table, src).Some? {
          var i: nat, j: nat :| MatchesAt(table[1..], src, i, j)
                && Lookup(table[1..], src) == Some(Resolved(table[1..][i].provider, src, Match(table[1..][i].patterns[j], src).value))
                && forall i': nat, j': nat :: Before(i', j', i, j) ==> !MatchesAt(table[1..], src, i', j');
          assert MatchesAt(table, src, i + 1, j);
          forall i': nat, j': nat | Before(i', j', i + 1, j)
            ensures !MatchesAt(table, src, i', j')
          {
            if i' >= 1 {
              assert Before(i' - 1, j', i, j);
            }
          }
        }
      }
    }
  }

  /** `getProvider` fails exactly when no pattern of the table matches. */
  lemma ResolveFails(table: seq<MatchEntry>, src: string)
    ensures Resolve(table, src).Failure? <==> forall i, j :: !MatchesAt(table, src, i, j)
    ensures Resolve(table, src).Failure? ==> Resolve(table, src).error == NoProvider(src)
    ensures Resolve(table, src).Success? ==> Resolve(table, src).value.url == src
  {
    LookupSpec(table, src);
  }

  /** Appending an entry never takes precedence over the entries already there. */
  lemma {:induction false} AppendedEntryIsLast(table: seq<MatchEntry>, e: MatchEntry, src: string)
    ensures Lookup(table, src).Some? ==> Lookup(table + [e], src) == Lookup(table, src)
    ensures Lookup(table, src).None? ==> Lookup(table + [e], src) == Lookup([e], src)
    decreases |table|
  {
    if table != [] {
      assert (table + [e])[0] == table[0];
      assert (table + [e])[1..] == table[1..] + [e];
      AppendedEntryIsLast(table[1..], e, src);
    } else {
      assert table + [e] == [e];
    }
  }

  // ---------------------------------------------------------------------
  // Removing a provider

  /** `findIndex(map => provider === map.provider)`. */
  function FindProvider(table: seq<MatchEntry>, p: Provider): (r: Option<nat>)
    ensures r.Some? ==> r.value < |table| && table[r.value].provider == p
                        && forall i :: 0 <= i < r.value ==> table[i].provider != p
    ensures r.None? ==> forall i :: 0 <= i < |table| ==> table[i].provider != p
  {
    if table == [] then None
    else if table[0].provider == p then Some(0)
    else match FindProvider(table[1..], p)
      case None => None
      case Some(i) => Some(i + 1)
  }

  /** The table after `removeProvider(p)`. */
  function RemoveFirst(table: seq<MatchEntry>, p: Provider): seq<MatchEntry> {
    match FindProvider(table, p)
    case None => table
    case Some(i) => table[..i] + table[i + 1..]
  }

  predicate HasProvider(table: seq<MatchEntry>, p: Provider) {
    exists i :: 0 <= i < |table| && table[i].provider == p
  }

  /**
   * Removing a provider takes out its first entry and keeps every other
   * entry in order; a provider that is not in the table changes nothing.
   */
  lemma RemoveFirstSpec(table: seq<MatchEntry>, p: Provider)
    ensures !HasProvider(table, p) ==> RemoveFirst(table, p) == table
    ensures HasProvider(table, p) ==> |RemoveFirst(table, p)| == |table| - 1
    ensures HasProvider(table, p) ==>
              exists i :: 0 <= i < |table| && table[i].provider == p
                && (forall k :: 0 <= k < i ==> table[k].provider != p)
                && RemoveFirst(table, p) == table[..i] + table[i + 1..]
  {
  }

  /** Extending the table with a new provider and removing it again restores the table. */
  lemma ExtendThenRemove(table: seq<MatchEntry>, p: Provider, patterns: seq<Pattern>)
    requires !HasProvider(table, p)
    ensures RemoveFirst(table + [MatchEntry(p, patterns)], p) == table
  {
    var t := table + [MatchEntry(p, patterns)];
    assert t[|table|].provider == p;
    assert (t)[..|table|] == table;
  }

  // ---------------------------------------------------------------------
  // Facts about the built-in table

  const PixivOrigin := "https://" + PixivHost

  /**
   * The built-in table with the user pattern anchored at the end, so that a
   * bookmark-list URL is left to the bookmark-list entry.
   */
  const CorrectedMaps: seq<MatchEntry> := [
    MatchEntry(PixivUser, [MemberPage, AnchoredUserPage]),
    MatchEntry(PixivBookmarkUrl, [BookmarksPage]),
    MatchEntry(PixivGeneralArtwork, [ArtworkPage]),
    MatchEntry(PixivNovel, [NovelPage]),
    MatchEntry(PixivNovelSeries, [NovelSeriesPage]),
    MatchEntry(PixivComicEpisode, [ComicStoryPage]),
    MatchEntry(PixivComicWork, [ComicWorkPage])
  ]

  /** A URL on `https://www.pixiv.net/`: the member pattern needs `member` next, the others see `path`. */
  lemma PixivUrl(path: string)
    ensures AfterHost(PixivOrigin + path, PixivHost, true) == Some(path)
    ensures path != [] && LowerChar(path[0]) != 'm' ==> AfterHost(PixivOrigin + path, PixivHost + "member", true) == None
  {
    var u := PixivHost + path;
    assert PixivOrigin + path == "https://" + u;
    Split("https://", u);
    ExactPrefix("https://", "https://" + u);
    Split(PixivHost, path);
    ExactPrefix(PixivHost, u);
    if path != [] && LowerChar(path[0]) != 'm' {
      assert u[|PixivHost|] == path[0];
      assert (PixivHost + "member")[|PixivHost|] == 'm';
    }
  }

  /** No literal that begins with something other than a digit begins a run of digits. */
  lemma DigitFirst(u: string, lit: string)
    requires u != [] && IsDigit(u[0]) && lit != [] && !IsDigit(lit[0])
    ensures !StartsWith(u, lit, true)
  {
    LowerCharKeeps(u[0]);
    LowerCharKeeps(lit[0]);
  }

  /** `d` followed by a non-digit: the leading digits are exactly `d`. */
  lemma DigitsThen(d: string, rest: string)
    requires IsDigitString(d)
    requires rest == [] || !IsDigit(rest[0])
    ensures LeadingDigits(d + rest) == Some(|d|)
    ensures (d + rest)[..|d|] == d && (d + rest)[|d|..] == rest
  {
    var v := d + rest;
    assert forall i :: 0 <= i < |d| ==> v[i] == d[i];
    if rest != [] {
      assert v[|d|] == rest[0];
    }
    DigitRunAt(v, 0, |d|);
  }

  /** A path `word/rest` on `www.pixiv.net` whose first segment is `word`: the language segment is `word`. */
  lemma FirstSegment(path: string, word: string, rest: string)
    requires path == word + "/" + rest
    requires word != [] && forall i :: 0 <= i < |word| ==> IsLetter(word[i])
    ensures LetterRunEnd(path, 0) == |word| && path[|word|] == '/' && path[|word| + 1..] == rest
  {
    assert forall i :: 0 <= i < |word| ==> path[i] == word[i];
    assert path[|word|] == '/';
    LetterRunAt(path, 0, |word|);
    assert path[|word| + 1..] == rest;
  }

  /** The user pattern's tail on a bookmark-list path: the language segment `users/` is tried and given up. */
  lemma UsersPathMatch(d: string)
    requires IsDigitString(d)
    ensures WithLanguage("users/" + d + "/bookmarks/artworks", UsersTail) == Some(map["id" := d])
  {
    var v := d + "/bookmarks/artworks";
    var path := "users/" + v;
    assert path == "users/" + d + "/bookmarks/artworks";
    FirstSegment(path, "users", v);
    DigitFirst(v, "users/");
    Split("users/", v);
    ExactPrefix("users/", path);
    DigitsThen(d, "/bookmarks/artworks");
  }

  /**
   * The user pattern has no end anchor and its entry comes first, so a
   * bookmark-list URL goes to the user provider, never the bookmark one.
   */
  lemma BookmarkListGoesToUser(d: string)
    requires IsDigitString(d)
    ensures var src := PixivOrigin + ("users/" + d + "/bookmarks/artworks");
            Resolve(BuiltinMaps, src) == Success(Resolved(PixivUser, src, map["id" := d]))
  {
    var path := "users/" + d + "/bookmarks/artworks";
    var src := PixivOrigin + path;
    assert Match(MemberPage, src) == None && Match(UserPage, src) == Some(map["id" := d]) by {
      assert path[0] == 'u';
      PixivUrl(path);
      UsersPathMatch(d);
    }
    TableShapes();
    EntryOfTwo(BuiltinMaps, 0, MemberPage, UserPage, src, Some(map["id" := d]));
    LookupFirst(BuiltinMaps, src, map["id" := d]);
  }

  /** On a bookmark-list path the anchored user pattern fails and the bookmark-list pattern takes the user id. */
  lemma BookmarkPathTails(d: string)
    requires IsDigitString(d)
    ensures WithLanguage("users/" + d + "/bookmarks/artworks", AnchoredUsersTail) == None
    ensures WithLanguage("users/" + d + "/bookmarks/artworks", BookmarksTail) == Some(map["userId" := d])
  {
    var v := d + "/bookmarks/artworks";
    var path := "users/" + v;
    assert path == "users/" + d + "/bookmarks/artworks";
    FirstSegment(path, "users", v);
    DigitFirst(v, "users/");
    Split("users/", v);
    ExactPrefix("users/", path);
    DigitsThen(d, "/bookmarks/artworks");
    var w := "/bookmarks/artworks";
    ExactPrefix(w, w);
    assert w[19..] == [];
    assert AnchoredUsersTail(path) == None;
    assert BookmarksTail(path) == Some(map["userId" := d]);
  }

  /** The first entries of the two tables. */
  lemma TableShapes()
    ensures |BuiltinMaps| == |CorrectedMaps| == 7
    ensures BuiltinMaps[0] == MatchEntry(PixivUser, [MemberPage, UserPage])
    ensures CorrectedMaps[0] == MatchEntry(PixivUser, [MemberPage, AnchoredUserPage])
    ensures BuiltinMaps[1] == CorrectedMaps[1] == MatchEntry(PixivBookmarkUrl, [BookmarksPage])
    ensures BuiltinMaps[2] == CorrectedMaps[2] == MatchEntry(PixivGeneralArtwork, [ArtworkPage])
  {
  }

  /** Entry `i` holds the one pattern `p`, which answers `r`. */
  lemma EntryOfOne(table: seq<MatchEntry>, i: nat, p: Pattern, src: string, r: Option<Context>)
    requires i < |table| && table[i].patterns == [p]
    requires Match(p, src) == r
    ensures FirstMatch(table[i].patterns, src) == r
  {
  }

  /** Entry `i` holds the patterns `p` and `q`; `p` does not match and `q` answers `r`. */
  lemma EntryOfTwo(table: seq<MatchEntry>, i: nat, p: Pattern, q: Pattern, src: string, r: Option<Context>)
    requires i < |table| && table[i].patterns == [p, q]
    requires Match(p, src).None? && Match(q, src) == r
    ensures FirstMatch(table[i].patterns, src) == r
  {
    assert [p, q][1..] == [q];
    EntryOfOne([MatchEntry(table[i].provider, [q])], 0, q, src, r);
  }

  /** A lookup whose first entries do not match answers with the next one that does. */
  lemma LookupFirst(table: seq<MatchEntry>, src: string, c: Context)
    requires |table| >= 1 && FirstMatch(table[0].patterns, src) == Some(c)
    ensures Resolve(table, src) == Success(Resolved(table[0].provider, src, c))
  {
  }

  lemma LookupSecond(table: seq<MatchEntry>, src: string, c: Context)
    requires |table| >= 2
    requires FirstMatch(table[0].patterns, src).None? && FirstMatch(table[1].patterns, src) == Some(c)
    ensures Resolve(table, src) == Success(Resolved(table[1].provider, src, c))
  {
    assert table[1..][0] == table[1];
    LookupFirst(table[1..], src, c);
    assert Lookup(table, src) == Lookup(table[1..], src);
  }

  lemma LookupThird(table: seq<MatchEntry>, src: string, c: Context)
    requires |table| >= 3
    requires FirstMatch(table[0].patterns, src).None? && FirstMatch(table[1].patterns, src).None?
    requires FirstMatch(table[2].patterns, src) == Some(c)
    ensures Resolve(table, src) == Success(Resolved(table[2].provider, src, c))
  {
    LookupSecond(table[1..], src, c);
  }

  /** On a bookmark-list URL the member and anchored user patterns fail and the bookmark-list pattern matches. */
  lemma BookmarkListMatches(d: string)
    requires IsDigitString(d)
    ensures var src := PixivOrigin + ("users/" + d + "/bookmarks/artworks");
            Match(MemberPage, src) == None && Match(AnchoredUserPage, src) == None
            && Match(BookmarksPage, src) == Some(map["userId" := d])
  {
    var path := "users/" + d + "/bookmarks/artworks";
    assert path[0] == 'u';
    PixivUrl(path);
    BookmarkPathTails(d);
  }

  /** With the anchored user pattern, a bookmark-list URL reaches the bookmark-list provider. */
  lemma BookmarkListResolves(d: string)
    requires IsDigitString(d)
    ensures var src := PixivOrigin + ("users/" + d + "/bookmarks/artworks");
            Resolve(CorrectedMaps, src) == Success(Resolved(PixivBookmarkUrl, src, map["userId" := d]))
  {
    var src := PixivOrigin + ("users/" + d + "/bookmarks/artworks");
    BookmarkListMatches(d);
    TableShapes();
    EntryOfTwo(CorrectedMaps, 0, MemberPage, AnchoredUserPage, src, None);
    EntryOfOne(CorrectedMaps, 1, BookmarksPage, src, Some(map["userId" := d]));
    LookupSecond(CorrectedMaps, src, map["userId" := d]);
  }

  /** The anchored user pattern still takes a user's page. */
  lemma UserUrlResolves(d: string)
    requires IsDigitString(d)
    ensures var src := PixivOrigin + ("users/" + d);
            Resolve(CorrectedMaps, src) == Success(Resolved(PixivUser, src, map["id" := d]))
  {
    var path := "users/" + d;
    var src := PixivOrigin + path;
    assert Match(MemberPage, src) == None && Match(AnchoredUserPage, src) == Some(map["id" := d]) by {
      assert path[0] == 'u';
      PixivUrl(path);
      FirstSegment(path, "users", d);
      DigitFirst(d, "users/");
      Split("users/", d);
      ExactPrefix("users/", path);
      DigitsThen(d, []);
      assert d + [] == d;
      assert AnchoredUsersTail(path) == Some(map["id" := d]);
    }
    TableShapes();
    EntryOfTwo(CorrectedMaps, 0, MemberPage, AnchoredUserPage, src, Some(map["id" := d]));
    LookupFirst(CorrectedMaps, src, map["id" := d]);
  }

  /**
   * `https://www.pixiv.net/artworks/{digits}` goes to the general artwork
   * provider with those digits as its id, under either table.
   */
  lemma ArtworkUrlResolves(table: seq<MatchEntry>, d: string)
    requires table == BuiltinMaps || table == CorrectedMaps
    requires IsDigitString(d)
    ensures var src := PixivOrigin + ("artworks/" + d);
            Resolve(table, src) == Success(Resolved(PixivGeneralArtwork, src, map["id" := d]))
  {
    var src := PixivOrigin + ("artworks/" + d);
    ArtworkUrlMatches(d);
    TableShapes();
    EntryOfTwo(table, 0, MemberPage, table[0].patterns[1], src, None);
    EntryOfOne(table, 1, BookmarksPage, src, None);
    EntryOfOne(table, 2, ArtworkPage, src, Some(map["id" := d]));
    LookupThird(table, src, map["id" := d]);
  }

  /** On an artwork URL only the artwork pattern matches, among the first three entries of either table. */
  lemma ArtworkUrlMatches(d: string)
    requires IsDigitString(d)
    ensures var src := PixivOrigin + ("artworks/" + d);
            Match(MemberPage, src) == None && Match(UserPage, src) == None
            && Match(AnchoredUserPage, src) == None && Match(BookmarksPage, src) == None
            && Match(ArtworkPage, src) == Some(map["id" := d])
  {
    var path := "artworks/" + d;
    assert path[0] == 'a';
    PixivUrl(path);
    FirstSegment(path, "artworks", d);
    DigitFirst(d, "users/");
    DigitFirst(d, "artworks/");
    assert !StartsWith(path, "users/", true) by { assert LowerChar(path[0]) != LowerChar('u'); }
    Split("artworks/", d);
    ExactPrefix("artworks/", path);
    DigitsThen(d, []);
    assert d + [] == d;
    assert ArtworkTail(path) == Some(map["id" := d]);
  }

  lemma {:induction false} LetterRunAt(u: string, k: nat, j: nat)
    requires k <= j < |u|
    requires forall i :: k <= i < j ==> IsLetter(u[i])
    requires !IsLetter(u[j])
    ensures LetterRunEnd(u, k) == j
    decreases j - k
  {
    if k < j {
      LetterRunAt(u, k + 1, j);
    }
  }

  lemma {:induction false} DigitRunAt(u: string, k: nat, j: nat)
    requires k <= j <= |u|
    requires forall i :: k <= i < j ==> IsDigit(u[i])
    requires j == |u| || !IsDigit(u[j])
    ensures DigitRunEnd(u, k) == j
    decreases j - k
  {
    if k < j {
      DigitRunAt(u, k + 1, j);
    }
  }

  // ---------------------------------------------------------------------
  // The adapter object

  /** The adapter with its table, which plugins extend and shrink in place. */
  class DownloadAdapter {
    var matchMaps: seq<MatchEntry>

    /** The adapter starts from the built-in table as written. */
    constructor ()
      ensures matchMaps == BuiltinMaps
    {
      matchMaps := BuiltinMaps;
    }

    /** `getProvider`: scans the entries in order and each entry's patterns in order. */
    method GetProvider(src: string) returns (r: Result<Resolved, Error>)
      ensures r == Resolve(matchMaps, src)
    {
      var i := 0;
      while i < |matchMaps|
        invariant i <= |matchMaps|
        invariant Lookup(matchMaps, src) == Lookup(matchMaps[i..], src)
      {
        var entry := matchMaps[i];
        assert matchMaps[i..][1..] == matchMaps[i + 1..];
        var j := 0;
        while j < |entry.patterns|
          invariant j <= |entry.patterns|
          invariant FirstMatch(entry.patterns, src) == FirstMatch(entry.patterns[j..], src)
        {
          var m := Match(entry.patterns[j], src);
          if m.Some? {
            return Success(Resolved(entry.provider, src, m.value));
          }
          assert entry.patterns[j..][1..] == entry.patterns[j + 1..];
          j := j + 1;
        }
        i := i + 1;
      }
      return Failure(NoProvider(src));
    }

    /** `extendMap`: the entry goes to the end of the table. */
    method ExtendMap(provider: Provider, patterns: seq<Pattern>)
      modifies this
      ensures matchMaps == old(matchMaps) + [MatchEntry(provider, patterns)]
    {
      matchMaps := matchMaps + [MatchEntry(provider, patterns)];
    }

    /** `removeProvider`: splices out the first entry of that provider, if any. */
    method RemoveProvider(provider: Provider)
      modifies this
      ensures matchMaps == RemoveFirst(old(matchMaps), provider)
    {
      var index := FindProvider(matchMaps, provider);
      if index.Some? {
        matchMaps := matchMaps[..index.value] + matchMaps[index.value + 1..];
      }
    }
  }
}
