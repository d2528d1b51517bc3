/**
 * The bookmark providers: what `getProvider` hands a URL to. Each derives
 * the task id the download pool keys on, the API URL its downloader
 * requests, and the arguments it creates that downloader with.
 *
 * `providerName` comes from the providers' common base class, which is not
 * part of this model, so it is a parameter here.
 */
module Providers {
  import opened Wrappers
  import opened Strings
  import opened Tasks
  import opened OrderedMaps
  import opened Scheduling
  import opened PoolRules
  import UrlBuilder

  /** Works per bookmark page, the `limit` of every bookmark request. */
  const PageSize := 48

  /** What a provider's `createDownloader` passes on: the url, the save folder, the options and the provider's id. */
  datatype DownloaderArgs = DownloaderArgs(url: string, saveTo: string, options: Options, providerId: string)

  // ---------------------------------------------------------------------
  // BookmarkPageProvider

  /** The offset of a bookmark page: `(page - 1) * limit`. */
  function PageOffset(page: int): int {
    (page - 1) * PageSize
  }

  const SelfBookmarksBase := "https://www.pixiv.net/ajax/user/self/illusts/bookmarks?tag=&offset="

  /** The query after the offset: the page size, the visibility `rest` and the language. */
  function AfterOffset(rest: string): string {
    "limit=" + IntToString(PageSize) + "&rest=" + rest + "&lang=en"
  }

  /** The bookmark API URL for the signed-in user's bookmarks at `offset`, with visibility `rest`. */
  function SelfBookmarksUrl(offset: int, rest: string): string {
    SelfBookmarksBase + IntToString(offset) + "&" + AfterOffset(rest)
  }

  /** `BookmarkPageProvider.getBookmarkUrl({rest, page})`. */
  function PageBookmarkUrl(rest: string, page: int): string {
    SelfBookmarksUrl(PageOffset(page), rest)
  }

  datatype PageProvider = PageProvider(providerName: string, url: string, rest: string, page: int)

  /** `BookmarkPageProvider.createProvider({rest, page})`: the context is `{rest, page}` and the url is that page's. */
  function CreatePageProvider(providerName: string, rest: string, page: int): (p: PageProvider)
    ensures p.providerName == providerName && p.rest == rest && p.page == page
    ensures p.url == PageBookmarkUrl(rest, page)
  {
    PageProvider(providerName, PageBookmarkUrl(rest, page), rest, page)
  }

  /** The `id` getter: `[providerName, 'bookmark', rest, page].join(':')`. */
  function PageProviderId(p: PageProvider): string {
    Join([p.providerName, "bookmark", p.rest, IntToString(p.page)], ":")
  }

  /** `createDownloader({saveTo})`: the provider's url and options holding exactly `rest` and `page`. */
  function PageDownloaderArgs(p: PageProvider, saveTo: string): DownloaderArgs {
    DownloaderArgs(p.url, saveTo, map["rest" := JStr(p.rest), "page" := JNum(p.page)], PageProviderId(p))
  }

  lemma Join2(a: string, b: string, sep: string)
    ensures Join([a, b], sep) == a + sep + b
  {
    assert [a, b][1..] == [b];
  }

  lemma Join3(a: string, b: string, c: string, sep: string)
    ensures Join([a, b, c], sep) == a + sep + b + sep + c
  {
    assert [a, b, c][1..] == [b, c];
    Join2(b, c, sep);
  }

  lemma Join4(a: string, b: string, c: string, d: string, sep: string)
    ensures Join([a, b, c, d], sep) == a + sep + b + sep + c + sep + d
  {
    assert [a, b, c, d][1..] == [b, c, d];
    Join3(b, c, d, sep);
  }

  /** A rendered number holds no ':' and no '&'. */
  lemma NumberHasNoSeparators(i: int)
    ensures ':' !in IntToString(i) && '&' !in IntToString(i)
  {
    NoSignInDigits(if i < 0 then -i else i, ':');
    NoSignInDigits(if i < 0 then -i else i, '&');
  }

  /**
   * A page provider's id determines its visibility and page: the page is
   * the part after the last ':', and everything between the fixed prefix
   * and it is `rest`, whatever `rest` holds.
   */
  lemma PageIdInjective(p: PageProvider, q: PageProvider)
    requires p.providerName == q.providerName
    requires PageProviderId(p) == PageProviderId(q)
    ensures p.rest == q.rest && p.page == q.page
  {
    var head := p.providerName + ":" + "bookmark" + ":";
    Join4(p.providerName, "bookmark", p.rest, IntToString(p.page), ":");
    Join4(q.providerName, "bookmark", q.rest, IntToString(q.page), ":");
    assert head + (p.rest + [':'] + IntToString(p.page)) == PageProviderId(p);
    assert head + (q.rest + [':'] + IntToString(q.page)) == PageProviderId(q);
    CommonPrefix(head, p.rest + [':'] + IntToString(p.page), q.rest + [':'] + IntToString(q.page));
    NumberHasNoSeparators(p.page);
    NumberHasNoSeparators(q.page);
    SeparatedLast(p.rest, IntToString(p.page), q.rest, IntToString(q.page), ':');
    IntToStringInjective(p.page, q.page);
  }

  /**
   * The self-bookmark URL determines the offset and the visibility: the
   * offset ends at the first '&', and `rest` sits between two fixed pieces.
   */
  lemma SelfBookmarksUrlInjective(o1: int, r1: string, o2: int, r2: string)
    requires SelfBookmarksUrl(o1, r1) == SelfBookmarksUrl(o2, r2)
    ensures o1 == o2 && r1 == r2
  {
    NumberHasNoSeparators(o1);
    NumberHasNoSeparators(o2);
    FieldThenRest(SelfBookmarksBase, IntToString(o1), AfterOffset(r1), IntToString(o2), AfterOffset(r2), '&');
    IntToStringInjective(o1, o2);
    var mid := "limit=" + IntToString(PageSize) + "&rest=";
    assert AfterOffset(r1) == mid + (r1 + "&lang=en");
    assert AfterOffset(r2) == mid + (r2 + "&lang=en");
    CommonPrefix(mid, r1 + "&lang=en", r2 + "&lang=en");
    CommonSuffix(r1, r2, "&lang=en");
  }

  /** After a common head, a field free of `sep` and the separator: the field and the rest are determined. */
  lemma FieldThenRest(head: string, a: string, t: string, c: string, u: string, sep: char)
    requires sep !in a && sep !in c
    requires head + a + [sep] + t == head + c + [sep] + u
    ensures a == c && t == u
  {
    assert head + a + [sep] + t == head + (a + [sep] + t);
    assert head + c + [sep] + u == head + (c + [sep] + u);
    CommonPrefix(head, a + [sep] + t, c + [sep] + u);
    SeparatedParts(a, t, c, u, sep);
  }

  /** Different pages, or different visibilities, are requested at different URLs. */
  lemma PageUrlInjective(r1: string, p1: int, r2: string, p2: int)
    requires PageBookmarkUrl(r1, p1) == PageBookmarkUrl(r2, p2)
    ensures r1 == r2 && p1 == p2
  {
    SelfBookmarksUrlInjective(PageOffset(p1), r1, PageOffset(p2), r2);
  }

  /** Page 1 is offset 0, which is the URL `UrlBuilder.getBookmarkUrl` builds. */
  lemma FirstPageIsUrlBuilders(rest: string)
    ensures PageBookmarkUrl(rest, 1) == UrlBuilder.BookmarkUrl(rest)
  {
    assert IntToString(0) == "0";
    assert IntToString(48) == "48" by {
      assert NatToString(4) == "4";
    }
  }

  /** The downloader gets the provider's url and id, and options holding `rest` and `page` and nothing else. */
  lemma PageDownloaderCarriesContext(p: PageProvider, saveTo: string)
    ensures var a := PageDownloaderArgs(p, saveTo);
            a.url == p.url && a.saveTo == saveTo && a.providerId == PageProviderId(p)
            && a.options.Keys == {"rest", "page"}
            && a.options["rest"] == JStr(p.rest) && a.options["page"] == JNum(p.page)
  {
  }

  // ---------------------------------------------------------------------
  // BookmarkUrlProvider

  /** A bookmark-list provider: the url it was found at and the match's named groups. */
  datatype UrlProvider = UrlProvider(providerName: string, url: string, context: map<string, string>)

  /** `BookmarkUrlProvider.createProvider({url, context})` keeps both as given. */
  function CreateUrlProvider(providerName: string, url: string, context: map<string, string>): (p: UrlProvider)
    ensures p.providerName == providerName && p.url == url && p.context == context
  {
    UrlProvider(providerName, url, context)
  }

  /** `join` writes a missing (`undefined`) element as the empty string. */
  function JoinPart(m: map<string, string>, key: string): string {
    if key in m then m[key] else ""
  }

  /** The `id` getter: `[providerName, 'bookmark-url', userId].join(':')`. */
  function UrlProviderId(p: UrlProvider): string {
    Join([p.providerName, "bookmark-url", JoinPart(p.context, "userId")], ":")
  }

  /** `context.rest || 'show'`: a missing or empty `rest` means the public bookmarks. */
  function RestOrShow(context: map<string, string>): string {
    if "rest" in context && context["rest"] != "" then context["rest"] else "show"
  }

  /** `{...options, userId: context.userId, rest: context.rest || 'show'}`. */
  function UrlDownloaderOptions(options: Options, context: map<string, string>): Options {
    var userId := if "userId" in context then JStr(context["userId"]) else JUndefined;
    options["userId" := userId]["rest" := JStr(RestOrShow(context))]
  }

  /** `createDownloader({saveTo, options})`: the provider's own url and id, and the overlaid options. */
  function UrlDownloaderArgs(p: UrlProvider, saveTo: string, options: Options): DownloaderArgs {
    DownloaderArgs(p.url, saveTo, UrlDownloaderOptions(options, p.context), UrlProviderId(p))
  }

  /** The id of a bookmark-list provider depends on its user id only, and tells user ids apart. */
  lemma UrlIdByUser(p: UrlProvider, q: UrlProvider)
    requires p.providerName == q.providerName
    ensures JoinPart(p.context, "userId") == JoinPart(q.context, "userId") ==> UrlProviderId(p) == UrlProviderId(q)
    ensures UrlProviderId(p) == UrlProviderId(q) ==> JoinPart(p.context, "userId") == JoinPart(q.context, "userId")
  {
    var head := p.providerName + ":" + "bookmark-url" + ":";
    Join3(p.providerName, "bookmark-url", JoinPart(p.context, "userId"), ":");
    Join3(q.providerName, "bookmark-url", JoinPart(q.context, "userId"), ":");
    if UrlProviderId(p) == UrlProviderId(q) {
      CommonPrefix(head, JoinPart(p.context, "userId"), JoinPart(q.context, "userId"));
    }
  }

  /**
   * The overlay keeps every caller option except `userId` and `rest`, which
   * come from the context (the context wins); `rest` is never empty.
   */
  lemma UrlOptionsOverlay(options: Options, context: map<string, string>)
    ensures var o := UrlDownloaderOptions(options, context);
            o.Keys == options.Keys + {"userId", "rest"}
            && (forall k :: k in options && k != "userId" && k != "rest" ==> o[k] == options[k])
            && o["userId"] == (if "userId" in context then JStr(context["userId"]) else JUndefined)
            && o["rest"].JStr? && o["rest"].s != ""
            && ("rest" in context && context["rest"] != "" ==> o["rest"] == JStr(context["rest"]))
  {
  }

  /** The downloader is created with the provider's url and id, whatever options the caller passes. */
  lemma UrlDownloaderKeepsProvider(p: UrlProvider, saveTo: string, options: Options)
    ensures var a := UrlDownloaderArgs(p, saveTo, options);
            a.url == p.url && a.saveTo == saveTo && a.providerId == UrlProviderId(p)
  {
  }

  // ---------------------------------------------------------------------
  // BookmarkProvider

  /** A provider of the signed-in user's bookmarks, with context `{rest, pages}`. */
  datatype BookmarkProvider = BookmarkProvider(providerName: string, url: string, rest: string, pages: int)

  /** `BookmarkProvider.getBookmarkUrl({rest = 'show', page = 1})`; `None` is an argument left undefined. */
  function DefaultBookmarkUrl(rest: Option<string>, page: Option<int>): string {
    PageBookmarkUrl(rest.GetOr("show"), page.GetOr(1))
  }

  /** `BookmarkProvider.createProvider({rest = 'show', pages = 1})`: the url is built from `rest` alone. */
  function CreateBookmarkProvider(providerName: string, rest: Option<string>, pages: Option<int>): BookmarkProvider {
    BookmarkProvider(providerName, DefaultBookmarkUrl(rest, None), rest.GetOr("show"), pages.GetOr(1))
  }

  /** The `id` getter: `[providerName, 'bookmark'].join(':')`. */
  function BookmarkProviderId(p: BookmarkProvider): string {
    Join([p.providerName, "bookmark"], ":")
  }

  /** `createDownloader({saveTo, options})` passes the caller's options on unchanged. */
  function BookmarkDownloaderArgs(p: BookmarkProvider, saveTo: string, options: Options): DownloaderArgs {
    DownloaderArgs(p.url, saveTo, options, BookmarkProviderId(p))
  }

  /** The defaults: visibility `show` and page 1, so offset 0. */
  lemma DefaultsAreFirstPublicPage()
    ensures DefaultBookmarkUrl(None, None) == PageBookmarkUrl("show", 1)
    ensures PageOffset(1) == 0
  {
  }

  /**
   * `createProvider` always builds the first page's URL, whatever `pages`
   * says, and keeps the defaulted `rest` and `pages` as its context.
   */
  lemma CreatedBookmarkProvider(providerName: string, rest: Option<string>, pages: Option<int>)
    ensures var p := CreateBookmarkProvider(providerName, rest, pages);
            p.url == UrlBuilder.BookmarkUrl(rest.GetOr("show"))
            && p.rest == rest.GetOr("show") && p.pages == pages.GetOr(1)
  {
    FirstPageIsUrlBuilders(rest.GetOr("show"));
  }

  /** The downloader gets the provider's url and id and exactly the caller's options. */
  lemma BookmarkDownloaderForwards(p: BookmarkProvider, saveTo: string, options: Options)
    ensures var a := BookmarkDownloaderArgs(p, saveTo, options);
            a.url == p.url && a.options == options && a.providerId == BookmarkProviderId(p)
  {
  }

  /**
   * Every bookmark provider of one provider name has the same id, so once
   * one of its downloaders is in the pool, adding another (whatever its
   * `rest` or `pages`) leaves the pool unchanged.
   */
  lemma BookmarkDownloadsShareOneId(p: BookmarkProvider, q: BookmarkProvider, pool: PoolView, v: TaskView)
    requires p.providerName == q.providerName
    requires HasKey(pool, Some(BookmarkProviderId(p)))
    ensures BookmarkProviderId(q) == BookmarkProviderId(p)
    ensures AddTask(pool, Entry(Some(BookmarkProviderId(q)), v)) == pool
  {
    Join2(p.providerName, "bookmark", ":");
    Join2(q.providerName, "bookmark", ":");
  }

  // ---------------------------------------------------------------------
  // The three kinds side by side

  /** For one provider name, the three kinds of bookmark provider never share an id. */
  lemma ProviderIdsDistinct(p: PageProvider, u: UrlProvider, b: BookmarkProvider)
    requires p.providerName == u.providerName == b.providerName
    ensures PageProviderId(p) != BookmarkProviderId(b)
    ensures UrlProviderId(u) != BookmarkProviderId(b)
    ensures PageProviderId(p) != UrlProviderId(u)
  {
    var n := p.providerName;
    var userId := JoinPart(u.context, "userId");
    var page := IntToString(p.page);
    Join4(n, "bookmark", p.rest, page, ":");
    Join3(n, "bookmark-url", userId, ":");
    Join2(n, "bookmark", ":");
    assert |PageProviderId(p)| > |BookmarkProviderId(b)|;
    assert |UrlProviderId(u)| > |BookmarkProviderId(b)|;
    var i := |n| + 9;
    assert PageProviderId(p)[i] == ':';
    assert UrlProviderId(u)[i] == '-';
  }
}
