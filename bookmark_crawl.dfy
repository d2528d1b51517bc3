/**
 * What the two bookmark downloaders do, stated on the pool's view: the
 * bookmark-list downloader (`BookmarkUrlDownloader`) walks a user's
 * bookmark pages 1, 2, 3, ... and offers one child task per work, going on
 * while a page is full; the bookmark-page downloader (`BookmarkDownloader`)
 * offers the works of one page, stopping at the first work it cannot
 * resolve.
 *
 * The network, the JSON parser, the adapter's lookup and the artwork
 * provider's `createDownloader` (which is not part of this model) are the
 * parameters of a `World`. The network answers a bookmark `Request`, whose
 * URL is `RequestUrl`.
 */
module BookmarkCrawl {
  import opened Wrappers
  import opened Strings
  import opened Tasks
  import opened OrderedMaps
  import opened Scheduling
  import opened PoolRules
  import opened DownloadAdapters
  import UrlBuilder
  import Providers

  // ---------------------------------------------------------------------
  // Responses

  /** One item of `body.works`; an `id` of "" stands for a missing or empty (falsy) id. */
  datatype Work = Work(id: string)

  /** A parsed bookmark response: its `error` flag and its `body.works`, if there is one. */
  datatype ApiResponse = ApiResponse(error: bool, works: Option<seq<Work>>)

  /** A response body after `JSON.parse`: `None` when it is not JSON or parses to a falsy value. */
  type Content = Option<ApiResponse>

  /** `getItems`: the works of a parsed, error-free response that has `body.works`, else `null`. */
  function GetItems(c: Content): Option<seq<Work>> {
    if c.Some? && !c.value.error && c.value.works.Some? then c.value.works else None
  }

  /** `getItems` yields a list exactly for a parsed, error-free response with `body.works`, and that list is it. */
  lemma ItemsOnlyFromGoodResponse(c: Content)
    ensures GetItems(c).Some? <==> c.Some? && !c.value.error && c.value.works.Some?
    ensures GetItems(c).Some? ==> GetItems(c).value == c.value.works.value
  {
  }

  /** `works && works.length > 0`: there is something to offer. */
  predicate HasWorks(works: Option<seq<Work>>) {
    works.Some? && |works.value| > 0
  }

  /** What `createGeneralArtworkDownloaders` walks: the works when there are any, else nothing. */
  function WorksOf(works: Option<seq<Work>>): seq<Work> {
    if HasWorks(works) then works.value else []
  }

  /** The `hasMorePages` a page leaves behind: only a full page of 48 asks for the next one. */
  predicate MorePages(works: Option<seq<Work>>) {
    HasWorks(works) && |works.value| == Providers.PageSize
  }

  /**
   * What the model leaves to the environment: the network, the parser, the
   * adapter's `getProvider` on a work's artwork URL (keyed by the work's
   * id), as the adapter stands during the walk, and the artwork provider's
   * `createDownloader`.
   */
  datatype World = World(
    fetch: Request -> Result<string, Error>,
    parse: string -> Content,
    provider: string -> Result<Resolved, Error>,
    create: Resolved -> Result<Child, Error>)

  /** The world's `getProvider` is the adapter's lookup in `table` of each work's artwork URL. */
  ghost predicate ResolvesBy(world: World, table: seq<MatchEntry>) {
    forall id :: world.provider(id) == Resolve(table, UrlBuilder.WorkUrl(id))
  }

  /** What an artwork provider's `createDownloader` gives the pool: the new task's id and shape. */
  datatype Child = Child(key: Key, shape: Shape)

  /** A created child as the scheduler first sees it: pending and not flagged for recycling. */
  function ChildView(c: Child): TaskView {
    TaskView(Pending, c.shape, false)
  }

  // ---------------------------------------------------------------------
  // Request URLs

  function UserBookmarksBase(userId: string): string {
    "https://www.pixiv.net/ajax/user/" + userId + "/illusts/bookmarks?tag=&offset="
  }

  /** The bookmark API URL of `userId`'s page `page` with visibility `rest`, 48 works per page. */
  function UserBookmarksUrl(userId: string, page: int, rest: string): string {
    UserBookmarksBase(userId) + IntToString(Providers.PageOffset(page)) + "&" + Providers.AfterOffset(rest)
  }

  /** `this.options.rest || 'show'`. */
  function RestOrShow(options: Options): string {
    if Truthy(Prop(options, "rest")) then Text(Prop(options, "rest")) else "show"
  }

  /** `BookmarkUrlDownloader.getBookmarkUrl(this.options.userId, page)`. */
  function UserPageUrl(options: Options, page: int): string {
    UserBookmarksUrl(Text(Prop(options, "userId")), page, RestOrShow(options))
  }

  /**
   * `(this.options.page - 1) * limit` as it reads in the URL: a boolean
   * counts as 1 or 0; `undefined` gives `NaN`, and so does any string here
   * (JavaScript would convert a numeric string; the model does not).
   */
  function OffsetText(page: JsValue): string {
    match page
    case JNum(n) => IntToString(Providers.PageOffset(n))
    case JBool(b) => IntToString(Providers.PageOffset(if b then 1 else 0))
    case _ => "NaN"
  }

  /** `BookmarkDownloader.getBookmarkUrl()`: the signed-in user's page `options.page` with visibility `options.rest`. */
  function PageDownloaderUrl(options: Options): string {
    Providers.SelfBookmarksBase + OffsetText(Prop(options, "page")) + "&" + Providers.AfterOffset(Text(Prop(options, "rest")))
  }

  /**
   * A request to the bookmark API: a user's list or the signed-in user's
   * own, the offset as it reads in the URL, and the visibility.
   */
  datatype Request =
    | UserList(user: string, offset: string, rest: string)
    | SelfList(offset: string, rest: string)

  /** The URL a request is sent to. */
  function RequestUrl(r: Request): string {
    match r
    case UserList(user, offset, rest) => UserBookmarksBase(user) + offset + "&" + Providers.AfterOffset(rest)
    case SelfList(offset, rest) => Providers.SelfBookmarksBase + offset + "&" + Providers.AfterOffset(rest)
  }

  /** What `requestBookmarkPage(page)` of the bookmark-list downloader sends. */
  function UserPageRequest(options: Options, page: int): Request {
    UserList(Text(Prop(options, "userId")), IntToString(Providers.PageOffset(page)), RestOrShow(options))
  }

  /** What `requestBookmarkContent()` of the bookmark-page downloader sends. */
  function PageDownloaderRequest(options: Options): Request {
    SelfList(OffsetText(Prop(options, "page")), Text(Prop(options, "rest")))
  }

  /** The list downloader's request for `page` goes to `getBookmarkUrl(userId, page)`. */
  lemma UserPageRequestUrl(options: Options, page: int)
    ensures RequestUrl(UserPageRequest(options, page)) == UserPageUrl(options, page)
  {
    var r := UserPageRequest(options, page);
    assert RequestUrl(r) == UserBookmarksBase(r.user) + r.offset + ("&" + Providers.AfterOffset(r.rest));
  }

  /** The page downloader's request goes to its `getBookmarkUrl()`. */
  lemma PageDownloaderRequestUrl(options: Options)
    ensures RequestUrl(PageDownloaderRequest(options)) == PageDownloaderUrl(options)
  {
    var r := PageDownloaderRequest(options);
    assert RequestUrl(r) == Providers.SelfBookmarksBase + r.offset + ("&" + Providers.AfterOffset(r.rest));
  }

  /** For one user and visibility, different pages are requested at different URLs. */
  lemma UserPagesDistinct(userId: string, rest: string, p1: int, p2: int)
    requires UserBookmarksUrl(userId, p1, rest) == UserBookmarksUrl(userId, p2, rest)
    ensures p1 == p2
  {
    var o1 := Providers.PageOffset(p1);
    var o2 := Providers.PageOffset(p2);
    Providers.NumberHasNoSeparators(o1);
    Providers.NumberHasNoSeparators(o2);
    Providers.FieldThenRest(UserBookmarksBase(userId), IntToString(o1), Providers.AfterOffset(rest),
      IntToString(o2), Providers.AfterOffset(rest), '&');
    IntToStringInjective(o1, o2);
  }

  /**
   * The bookmark-list downloader created by `BookmarkUrlProvider` requests
   * the context's user (the text "undefined" when the match had none) with
   * the provider's visibility.
   */
  lemma UrlDownloaderRequestsContextUser(options: Options, context: map<string, string>, page: int)
    ensures var o := Providers.UrlDownloaderOptions(options, context);
            UserPageUrl(o, page)
            == UserBookmarksUrl(if "userId" in context then context["userId"] else "undefined", page, Providers.RestOrShow(context))
  {
  }

  /** The bookmark-page downloader requests exactly the URL its provider was created with. */
  lemma PageDownloaderRequestsProviderUrl(p: Providers.PageProvider, saveTo: string)
    requires p == Providers.CreatePageProvider(p.providerName, p.rest, p.page)
    ensures PageDownloaderUrl(Providers.PageDownloaderArgs(p, saveTo).options) == p.url
  {
    var o := Providers.PageDownloaderArgs(p, saveTo).options;
    assert Prop(o, "page") == JNum(p.page);
    assert Prop(o, "rest") == JStr(p.rest);
  }

  // ---------------------------------------------------------------------
  // The parent's own entry

  /** The parent task (under `k`) changes state in place; a pool without `k` is unchanged. */
  function MarkOwn(p: PoolView, k: Key, s: State): PoolView {
    match Find(p, k)
    case None => p
    case Some(i) => p[i := Entry(k, p[i].value.(state := s))]
  }

  /** Marking the parent changes no key. */
  lemma MarkOwnKeys(p: PoolView, k: Key, s: State)
    ensures |MarkOwn(p, k, s)| == |p| && Keys(MarkOwn(p, k, s)) == Keys(p)
  {
  }

  /** A finished parent that deletes its own id leaves the pool, and the delete reports no error. */
  lemma FinishedLeaves(p: PoolView, k: Key)
    requires DistinctKeys(p) && HasKey(p, k)
    ensures DistinctKeys(MarkOwn(p, k, Finish))
    ensures var o := DeleteTask(MarkOwn(p, k, Finish), k);
            o.result.None? && !HasKey(o.pool, k)
            && Keys(o.pool) == Keys(Delete(MarkOwn(p, k, Finish), k))
  {
    var q := MarkOwn(p, k, Finish);
    MarkOwnKeys(p, k, Finish);
    SameKeys(p, q, k);
    DeleteTaskSpec(q, k);
  }

  /**
   * What a parent that failed leaves behind: it is marked `error`, and the
   * manager's error listener runs `downloadNext`.
   */
  function AfterError(p: PoolView, k: Key): (r: PoolView)
    requires DistinctKeys(p)
    ensures DistinctKeys(r) && Keys(r) == Keys(p)
    ensures HasKey(p, k) ==> Get(r, k) == Some(Get(p, k).value.(state := Error))
  {
    MarkOwnKeys(p, k, Error);
    var q := MarkOwn(p, k, Error);
    SameKeys(p, q, k);
    DownloadNextSpec(q);
    SameKeys(q, DownloadNext(q), k);
    if HasKey(p, k) then
      var i := Find(q, k).value;
      assert DownloadNext(q)[i] == q[i];
      DownloadNext(q)
    else DownloadNext(q)
  }

  /**
   * What a parent that succeeded leaves behind: it is marked `finish`, the
   * finish listener runs `downloadNext`, and the parent deletes its own id.
   */
  function AfterFinish(p: PoolView, k: Key): (r: PoolView)
    requires DistinctKeys(p) && HasKey(p, k)
    ensures DistinctKeys(r) && !HasKey(r, k)
  {
    FinishedLeavesAfterNext(p, k);
    DeleteTask(DownloadNext(MarkOwn(p, k, Finish)), k).pool
  }

  /**
   * The manager's `downloadNext` after the parent finished leaves it
   * finished, so its self-delete still takes it out and reports no error.
   */
  lemma FinishedLeavesAfterNext(p: PoolView, k: Key)
    requires DistinctKeys(p) && HasKey(p, k)
    ensures DistinctKeys(MarkOwn(p, k, Finish)) && DistinctKeys(DownloadNext(MarkOwn(p, k, Finish)))
    ensures var o := DeleteTask(DownloadNext(MarkOwn(p, k, Finish)), k);
            o.result.None? && !HasKey(o.pool, k) && DistinctKeys(o.pool)
  {
    var q := MarkOwn(p, k, Finish);
    FinishedLeaves(p, k);
    MarkOwnKeys(p, k, Finish);
    SameKeys(p, q, k);
    var i := Find(q, k).value;
    var r := DownloadNext(q);
    DownloadNextSpec(q);
    SameKeys(q, r, k);
    assert r[i] == q[i];
    DeleteTaskSpec(r, k);
  }

  // ---------------------------------------------------------------------
  // Offering children

  /** getProvider on the work's artwork URL, then that provider's `createDownloader`. */
  function ChildFor(world: World, id: string): Result<Child, Error> {
    match world.provider(id)
    case Failure(e) => Failure(e)
    case Success(r) => world.create(r)
  }

  /**
   * With the built-in table (as written or corrected) a numeric work id goes
   * to the general artwork provider, with the id as its context.
   */
  lemma NumericWorkIsArtwork(table: seq<MatchEntry>, world: World, id: string)
    requires ResolvesBy(world, table)
    requires table == BuiltinMaps || table == CorrectedMaps
    requires IsDigitString(id)
    ensures ChildFor(world, id)
            == world.create(Resolved(PixivGeneralArtwork, UrlBuilder.WorkUrl(id), map["id" := id]))
  {
    assert world.provider(id) == Resolve(table, UrlBuilder.WorkUrl(id));
    UrlBuilder.WorkUrlResolves(table, id);
  }

  /** One work in `BookmarkUrlDownloader`: a falsy id is skipped, and a failure is logged and skipped. */
  function OfferWork(world: World, p: PoolView, w: Work): PoolView {
    if w.id == "" then p
    else match ChildFor(world, w.id)
      case Failure(_) => p
      case Success(c) => AddTask(p, Entry(c.key, ChildView(c)))
  }

  /** `works.forEach(...)` of `addArtworkDownloaders`. */
  function OfferAll(world: World, p: PoolView, ws: seq<Work>): PoolView
    decreases |ws|
  {
    if ws == [] then p
    else OfferWork(world, OfferAll(world, p, ws[..|ws| - 1]), ws[|ws| - 1])
  }

  /** One work in `BookmarkDownloader`: a falsy id is skipped, and a failure escapes. */
  function OfferStrict(world: World, p: PoolView, w: Work): Result<PoolView, Error> {
    if w.id == "" then Success(p)
    else match ChildFor(world, w.id)
      case Failure(e) => Failure(e)
      case Success(c) => Success(AddTask(p, Entry(c.key, ChildView(c))))
  }

  /** How far the promise chain of `createGeneralArtworkDownloaders` got: the pool, the error that ended it, the works done. */
  datatype Chain = Chain(pool: PoolView, failure: Option<Error>, done: nat)

  /** The chain over `ws`: each work after the previous one, and nothing after a failure. */
  function ChainAll(world: World, p: PoolView, ws: seq<Work>): Chain
    decreases |ws|
  {
    if ws == [] then Chain(p, None, 0)
    else
      var c := ChainAll(world, p, ws[..|ws| - 1]);
      if c.failure.Some? then c
      else match OfferStrict(world, c.pool, ws[|ws| - 1])
        case Failure(e) => Chain(c.pool, Some(e), c.done)
        case Success(q) => Chain(q, None, c.done + 1)
  }

  /**
   * The chain offers the works in order exactly as the bookmark-list
   * downloader would, up to the first work whose provider lookup or
   * creation fails; that failure ends the chain and no later work is offered.
   */
  lemma {:induction false} ChainAllSpec(world: World, p: PoolView, ws: seq<Work>)
    ensures var c := ChainAll(world, p, ws);
            c.done <= |ws|
            && (c.failure.None? <==> c.done == |ws|)
            && (c.failure.None? ==> c.pool == OfferAll(world, p, ws))
            && (c.failure.Some? ==>
                  c.pool == OfferAll(world, p, ws[..c.done])
                  && ws[c.done].id != ""
                  && ChildFor(world, ws[c.done].id) == Failure(c.failure.value))
    decreases |ws|
  {
    if ws != [] {
      var init := ws[..|ws| - 1];
      ChainAllSpec(world, p, init);
      var c := ChainAll(world, p, init);
      if c.failure.Some? {
        assert ws[..c.done] == init[..c.done];
        assert ws[c.done] == init[c.done];
      } else {
        assert init == ws[..c.done];
      }
    }
  }

  /** Once the chain has failed on a prefix, the later works change nothing. */
  lemma {:induction false} ChainAfterFailure(world: World, p: PoolView, ws: seq<Work>, j: nat)
    requires j <= |ws| && ChainAll(world, p, ws[..j]).failure.Some?
    ensures ChainAll(world, p, ws) == ChainAll(world, p, ws[..j])
    decreases |ws|
  {
    if j == |ws| {
      assert ws[..j] == ws;
    } else {
      var init := ws[..|ws| - 1];
      assert init[..j] == ws[..j];
      ChainAfterFailure(world, p, init, j);
    }
  }

  /**
   * `start` of `BookmarkDownloader` after `setStart`: the works of the
   * stored response body when there is one; otherwise
   * `requestBookmarkContent` marks the parent (under `k`) processing and
   * requests the page, whose failure ends the run before any work.
   */
  function PageChain(world: World, options: Options, k: Key, p: PoolView, body: string): Chain {
    if body != "" then ChainAll(world, p, WorksOf(GetItems(world.parse(body))))
    else
      var p1 := MarkOwn(p, k, Processing);
      match world.fetch(PageDownloaderRequest(options))
      case Failure(e) => Chain(p1, Some(e), 0)
      case Success(b) => ChainAll(world, p1, WorksOf(GetItems(world.parse(b))))
  }

  // ---------------------------------------------------------------------
  // Walking the bookmark pages

  /** What `requestBookmarkPage(page)` and `getItems` yield: the request's error, or the page's works (if any). */
  datatype Fetched = Fetched(failure: Option<Error>, works: Option<seq<Work>>)

  function FetchPage(world: World, options: Options, page: int): Fetched {
    match world.fetch(UserPageRequest(options, page))
    case Failure(e) => Fetched(Some(e), None)
    case Success(body) => Fetched(None, GetItems(world.parse(body)))
  }

  /** The walk goes on after a page exactly when it was fetched and full. */
  predicate Continues(f: Fetched) {
    f.failure.None? && MorePages(f.works)
  }

  /** Page `page` of the listing fails or is not full: the walk ends there. */
  predicate PageEnds(world: World, options: Options, page: int) {
    !Continues(FetchPage(world, options, page))
  }

  /**
   * How `processAllPages` ends: the number of pages requested, the error
   * that ended the walk, and `currentPage` and `hasMorePages` afterwards.
   */
  datatype Walk = Walk(requested: nat, failure: Option<Error>, page: int, more: bool)

  /**
   * `processAllPages` from `page` while `more`: a failed request ends the
   * walk with its error, leaving `currentPage` and `hasMorePages` as they
   * were; a fetched page moves on to the next page, and the walk goes on
   * exactly when that page was full. `last` is a page at which the listing
   * ends, which bounds the walk.
   */
  function Pages(world: World, options: Options, page: int, more: bool, last: int): Walk
    decreases if more && page <= last then last - page + 1 else 0
  {
    if !more || page > last then Walk(0, None, page, more)
    else
      var f := FetchPage(world, options, page);
      if f.failure.Some? then Walk(1, f.failure, page, true)
      else if MorePages(f.works) then
        var w := Pages(world, options, page + 1, true, last);
        w.(requested := w.requested + 1)
      else Walk(1, None, page + 1, false)
  }

  /** The requests for `n` consecutive pages from `page`, in order. */
  function PageRequests(options: Options, page: int, n: nat): seq<Request>
    decreases n
  {
    if n == 0 then [] else [UserPageRequest(options, page)] + PageRequests(options, page + 1, n - 1)
  }

  /** `addArtworkDownloaders` for one page's works. */
  function OfferPage(world: World, p: PoolView, works: Option<seq<Work>>): PoolView {
    if HasWorks(works) then OfferAll(world, p, works.value) else p
  }

  /**
   * The state `processAllPages` works on: the pool's view, `currentPage`,
   * `hasMorePages`, the error that ended the walk (if any), and the
   * requests sent so far.
   */
  datatype Crawl = Crawl(pool: PoolView, page: int, more: bool, failure: Option<Error>, requests: seq<Request>)

  /**
   * One turn of the loop: the parent (under `k`) is marked processing and
   * page `c.page` is requested; a failed request records its error and
   * leaves the page as it was, a fetched page has its works offered and
   * moves on, with more pages exactly when it was full.
   */
  function Turn(world: World, options: Options, k: Key, c: Crawl): Crawl {
    var f := FetchPage(world, options, c.page);
    var p1 := MarkOwn(c.pool, k, Processing);
    var rs := c.requests + [UserPageRequest(options, c.page)];
    if f.failure.Some? then Crawl(p1, c.page, c.more, f.failure, rs)
    else Crawl(OfferPage(world, p1, f.works), c.page + 1, MorePages(f.works), None, rs)
  }

  /** The loop run from `c` while there are more pages and no error; `last` is a page at which the listing ends. */
  function Walked(world: World, options: Options, k: Key, c: Crawl, last: int): Crawl
    decreases if c.more && c.failure.None? && c.page <= last then last - c.page + 1 else 0
  {
    if !c.more || c.failure.Some? || c.page > last then c
    else Walked(world, options, k, Turn(world, options, k, c), last)
  }

  /** What a turn does to everything but the pool. */
  lemma TurnControl(world: World, options: Options, k: Key, c: Crawl)
    ensures var f := FetchPage(world, options, c.page);
            var t := Turn(world, options, k, c);
            t.failure == f.failure && t.requests == c.requests + [UserPageRequest(options, c.page)]
            && t.page == (if f.failure.Some? then c.page else c.page + 1)
            && t.more == (if f.failure.Some? then c.more else MorePages(f.works))
  {
  }

  /** A turn within a listing that ends at `last` goes on only while it stays within it; the loop goes on through it. */
  lemma TurnWithin(world: World, options: Options, k: Key, c: Crawl, last: int)
    requires c.more && c.failure.None? && c.page <= last && PageEnds(world, options, last)
    ensures var t := Turn(world, options, k, c);
            (t.failure.None? && t.more ==> t.page <= last)
            && Walked(world, options, k, c, last) == Walked(world, options, k, t, last)
  {
    TurnControl(world, options, k, c);
  }

  /**
   * The loop, with its pool, follows the walk: it ends with the walk's
   * error, page and `hasMorePages`.
   */
  lemma {:induction false} WalkedFollowsPages(world: World, options: Options, k: Key, c: Crawl, last: int)
    requires c.failure.None?
    ensures var w := Pages(world, options, c.page, c.more, last);
            var r := Walked(world, options, k, c, last);
            r.failure == w.failure && r.page == w.page && r.more == w.more
    decreases if c.more && c.page <= last then last - c.page + 1 else 0
  {
    if c.more && c.page <= last {
      var f := FetchPage(world, options, c.page);
      var c1 := Turn(world, options, k, c);
      TurnControl(world, options, k, c);
      assert Walked(world, options, k, c, last) == Walked(world, options, k, c1, last);
      if f.failure.None? {
        WalkedFollowsPages(world, options, k, c1, last);
        var w := Pages(world, options, c.page, c.more, last);
        var w1 := Pages(world, options, c1.page, c1.more, last);
        assert w.failure == w1.failure && w.page == w1.page && w.more == w1.more;
      }
    }
  }

  /** The loop sends the walk's requests, one per page from where it started. */
  lemma {:induction false} WalkedRequests(world: World, options: Options, k: Key, c: Crawl, last: int)
    requires c.failure.None?
    ensures Walked(world, options, k, c, last).requests
            == c.requests + PageRequests(options, c.page, Pages(world, options, c.page, c.more, last).requested)
    decreases if c.more && c.page <= last then last - c.page + 1 else 0, 1
  {
    if !c.more || c.page > last {
      assert c.requests + [] == c.requests;
    } else {
      TurnRequests(world, options, k, c, last);
    }
  }

  /** Sending page `page`'s request, then those of the `n` pages after it, sends those of `n + 1` pages from `page`. */
  lemma RequestsStep(sent: seq<Request>, options: Options, page: int, n: nat)
    ensures (sent + [UserPageRequest(options, page)]) + PageRequests(options, page + 1, n)
            == sent + PageRequests(options, page, n + 1)
  {
    var rest := PageRequests(options, page + 1, n);
    assert PageRequests(options, page, n + 1) == [UserPageRequest(options, page)] + rest;
  }

  /** `WalkedRequests` for a walk that takes a turn. */
  lemma {:induction false} TurnRequests(world: World, options: Options, k: Key, c: Crawl, last: int)
    requires c.failure.None? && c.more && c.page <= last
    ensures Walked(world, options, k, c, last).requests
            == c.requests + PageRequests(options, c.page, Pages(world, options, c.page, c.more, last).requested)
    decreases last - c.page + 1, 0
  {
    var f := FetchPage(world, options, c.page);
    var c1 := Turn(world, options, k, c);
    TurnControl(world, options, k, c);
    var rq := UserPageRequest(options, c.page);
    assert c1.requests == c.requests + [rq];
    if f.failure.None? {
      WalkedRequests(world, options, k, c1, last);
      var n := Pages(world, options, c1.page, c1.more, last).requested;
      assert Pages(world, options, c.page, c.more, last).requested == n + 1;
      RequestsStep(c.requests, options, c.page, n);
    } else {
      assert Pages(world, options, c.page, c.more, last).requested == 1;
    }
  }

  /**
   * Started at a page `page <= last` of a listing that ends at `last`, the
   * walk ends either with an error or with `hasMorePages` false, having
   * requested the pages from `page` up to at most `last`.
   */
  lemma {:induction false} PagesEnd(world: World, options: Options, page: int, last: int)
    requires page <= last && PageEnds(world, options, last)
    ensures var w := Pages(world, options, page, true, last);
            1 <= w.requested <= last - page + 1
            && (w.failure.None? ==> !w.more && w.page == page + w.requested)
            && (w.failure.Some? ==> w.more && w.page == page + w.requested - 1)
    decreases last - page + 1
  {
    var f := FetchPage(world, options, page);
    if f.failure.None? && MorePages(f.works) {
      PagesEnd(world, options, page + 1, last);
    }
  }

  // ---------------------------------------------------------------------
  // A listing of n works, 48 per page

  /** The works a listing of `works` serves on page `page`: the 48 from `(page - 1) * 48`, fewer at the end. */
  function PageOf(works: seq<Work>, page: int): seq<Work>
    requires page >= 1
  {
    var from := if (page - 1) * Providers.PageSize <= |works| then (page - 1) * Providers.PageSize else |works|;
    var to := if page * Providers.PageSize <= |works| then page * Providers.PageSize else |works|;
    works[from..to]
  }

  /** The server answers every page of the user's listing with that page's slice of `works`. */
  ghost predicate Serves(world: World, options: Options, works: seq<Work>) {
    forall page: int :: page >= 1 ==> FetchPage(world, options, page) == Fetched(None, Some(PageOf(works, page)))
  }

  /** The last page of a listing of `n` works: a full last page is followed by an empty one. */
  function LastPage(n: nat): int {
    n / Providers.PageSize + 1
  }

  lemma PageSizes(works: seq<Work>, page: int)
    requires 1 <= page <= LastPage(|works|)
    ensures page < LastPage(|works|) ==> |PageOf(works, page)| == Providers.PageSize
    ensures page == LastPage(|works|) ==> |PageOf(works, page)| < Providers.PageSize
  {
  }

  /**
   * Served a listing of `n` works, the walk from page 1 makes exactly
   * `n / 48 + 1` requests, never fails, and ends with `hasMorePages` false
   * and `currentPage` one past the last page.
   */
  lemma ListingRequests(world: World, options: Options, works: seq<Work>)
    requires Serves(world, options, works)
    ensures PageEnds(world, options, LastPage(|works|))
    ensures var w := Pages(world, options, 1, true, LastPage(|works|));
            w.requested == |works| / Providers.PageSize + 1
            && w.failure.None? && !w.more && w.page == LastPage(|works|) + 1
  {
    PageSizes(works, LastPage(|works|));
    ListingFrom(world, options, works, 1);
  }

  lemma {:induction false} ListingFrom(world: World, options: Options, works: seq<Work>, page: int)
    requires Serves(world, options, works) && 1 <= page <= LastPage(|works|)
    ensures var w := Pages(world, options, page, true, LastPage(|works|));
            w.requested == LastPage(|works|) - page + 1
            && w.failure.None? && !w.more && w.page == LastPage(|works|) + 1
    decreases LastPage(|works|) - page
  {
    assert FetchPage(world, options, page) == Fetched(None, Some(PageOf(works, page)));
    PageSizes(works, page);
    if page < LastPage(|works|) {
      ListingFrom(world, options, works, page + 1);
    }
  }
}
