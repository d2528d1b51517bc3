/**
 * The two bookmark downloaders as objects: each wraps its own task record
 * (which sits in the download pool under the task's id) and adds children
 * to the pool through the download manager. The manager is passed to each
 * method as a parameter: no shown code assigns the `downloadManager` field
 * these downloaders read. Every method is tied to the walk and the chain of
 * module BookmarkCrawl on the pool's view.
 */
module BookmarkDownloaders {
  import opened Wrappers
  import opened Tasks
  import opened OrderedMaps
  import opened Scheduling
  import opened PoolRules
  import opened DownloadManagers
  import opened DownloadAdapters
  import opened BookmarkCrawl
  import Providers
  import UrlBuilder

  /** The status message `requestBookmarkPage` and `requestBookmarkContent` set. */
  const ResolvingArtworks := "_resolving_artworks"

  /** The message `setError(error)` records. */
  function ErrorText(e: Error): string {
    match e
    case TypeError(m) => m
    case ReferenceError(m) => m
    case Unstoppable => "Unstoppable"
    case Failed(m) => m
  }

  /** A key of the pool is a key of its view, at the same position, and the view's keys are distinct. */
  lemma InView(m: DownloadManager, k: Key)
    requires m.Valid() && HasKey(m.pool, k)
    ensures DistinctKeys(m.Views()) && HasKey(m.Views(), k) && Find(m.Views(), k) == Find(m.pool, k)
  {
    SameKeys(m.pool, m.Views(), k);
  }

  /** Appending an entry under a new key keeps what a known key maps to. */
  lemma GetAfterAppend(pool: seq<PoolEntry>, e: PoolEntry, k: Key)
    requires HasKey(pool, k)
    ensures Get(pool + [e], k) == Get(pool, k)
  {
    var i := Find(pool, k).value;
    FindFirst(pool + [e], k, i);
  }

  /**
   * The parent `w` changes its own state with `setStart`, `setProcessing`,
   * `setFinish` or `setError`; in the pool, only its own entry changes.
   */
  method Become(m: DownloadManager, w: WorkDownloader, s: State, message: string)
    requires m.Valid() && Get(m.pool, w.id) == Some(w)
    requires s == Downloading || s == Processing || s == Finish || s == Error
    modifies w
    ensures m.Valid() && Get(m.pool, w.id) == Some(w)
    ensures w.id == old(w.id) && w.options == old(w.options) && w.state == s
    ensures s == Processing || s == Error ==> w.statusMessage == message
    ensures m.Views() == MarkOwn(old(m.Views()), w.id, s)
  {
    ghost var i := Find(m.pool, w.id).value;
    InView(m, w.id);
    DistinctObjects(m.pool);
    if s == Downloading {
      w.Start();
    } else if s == Processing {
      w.SetProcessing(message);
    } else if s == Finish {
      w.SetFinish();
    } else {
      w.SetError(message);
    }
    forall j | 0 <= j < |m.pool| && j != i ensures m.Views()[j] == old(m.Views())[j] {
      assert m.pool[j].value != w;
    }
    UpdatedAt(m.Views(), old(m.Views()), i);
  }

  /** `getProvider` on a work's artwork URL: the world's lookup, which is the adapter's. */
  method ProviderOf(adapter: DownloadAdapter, world: World, id: string) returns (r: Result<Resolved, Error>)
    requires ResolvesBy(world, adapter.matchMaps)
    ensures r == world.provider(id)
  {
    r := adapter.GetProvider(UrlBuilder.WorkUrl(id));
  }

  /**
   * `getProvider` on a work's artwork URL, then the provider's
   * `createDownloader` with the parent's options: a new task shaped as the
   * provider says, or the error of either step.
   */
  method NewChild(adapter: DownloadAdapter, world: World, id: string, options: Options)
    returns (r: Result<WorkDownloader, Error>)
    requires ResolvesBy(world, adapter.matchMaps)
    ensures r.Failure? <==> ChildFor(world, id).Failure?
    ensures r.Failure? ==> r.error == ChildFor(world, id).error
    ensures r.Success? ==> fresh(r.value) && r.value.options == options
                           && r.value.id == ChildFor(world, id).value.key
                           && r.value.View() == ChildView(ChildFor(world, id).value)
  {
    var p := ProviderOf(adapter, world, id);
    if p.Failure? {
      return Failure(p.error);
    }
    var c := world.create(p.value);
    if c.Failure? {
      return Failure(c.error);
    }
    var child := WorkDownloader.CreateDownloader(c.value.key, options);
    child.shape := c.value.shape;
    return Success(child);
  }

  /**
   * One work: a falsy id is skipped; otherwise `getProvider` on its artwork
   * URL, the provider's `createDownloader` (with the parent's options), and
   * `addDownloader`. A failure of either step is returned and adds nothing.
   */
  method OfferChild(m: DownloadManager, adapter: DownloadAdapter, world: World, work: Work, options: Options, ghost k: Key,
                    ghost parent: WorkDownloader)
    returns (err: Option<Error>)
    requires m.Valid() && Get(m.pool, k) == Some(parent)
    requires ResolvesBy(world, adapter.matchMaps)
    modifies m, Objects(m.pool)
    ensures m.Valid() && Get(m.pool, k) == Some(parent)
    ensures fresh(Objects(m.pool) - old(Objects(m.pool)))
    ensures OfferStrict(world, old(m.Views()), work) == if err.None? then Success(m.Views()) else Failure(err.value)
    ensures m.Views() == OfferWork(world, old(m.Views()), work)
  {
    if work.id == "" {
      return None;
    }
    var r := NewChild(adapter, world, work.id, options);
    if r.Failure? {
      return Some(r.error);
    }
    var child := r.value;
    ghost var e := Entry(child.id, child.View());
    assert OfferStrict(world, old(m.Views()), work) == Success(AddTask(old(m.Views()), e));
    assert OfferWork(world, old(m.Views()), work) == AddTask(old(m.Views()), e);
    assert m.Views() == old(m.Views());
    if !HasKey(m.pool, child.id) {
      GetAfterAppend(m.pool, Entry(child.id, child), k);
    }
    ViewsOfAppend(m.pool, Entry(child.id, child));
    m.AddDownloader(child);
    return None;
  }

  /** `works.forEach(...)`: every work is offered in order, each failure skipped. */
  method OfferEach(m: DownloadManager, adapter: DownloadAdapter, world: World, ws: seq<Work>, options: Options,
                   ghost k: Key, ghost parent: WorkDownloader)
    requires m.Valid() && Get(m.pool, k) == Some(parent)
    requires ResolvesBy(world, adapter.matchMaps)
    modifies m, Objects(m.pool)
    ensures m.Valid() && Get(m.pool, k) == Some(parent)
    ensures fresh(Objects(m.pool) - old(Objects(m.pool)))
    ensures m.Views() == OfferAll(world, old(m.Views()), ws)
  {
    ghost var p0 := m.Views();
    var i := 0;
    while i < |ws|
      invariant 0 <= i <= |ws|
      invariant m.Valid() && Get(m.pool, k) == Some(parent)
      invariant m.Views() == OfferAll(world, p0, ws[..i])
      invariant fresh(Objects(m.pool) - old(Objects(m.pool)))
    {
      var _ := OfferChild(m, adapter, world, ws[i], options, k, parent);
      assert ws[..i + 1][..i] == ws[..i];
      i := i + 1;
    }
    assert ws[..i] == ws;
  }

  /**
   * Work `i` of a promise chain that has got through works `0..i-1`: it is
   * offered, and a failure of its lookup or creation ends the chain.
   */
  method ChainOne(m: DownloadManager, adapter: DownloadAdapter, world: World, ws: seq<Work>, i: nat, options: Options,
                  ghost k: Key, ghost parent: WorkDownloader, ghost p0: PoolView)
    returns (err: Option<Error>)
    requires i < |ws| && m.Valid() && Get(m.pool, k) == Some(parent)
    requires ResolvesBy(world, adapter.matchMaps)
    requires ChainAll(world, p0, ws[..i]) == Chain(m.Views(), None, i)
    modifies m, Objects(m.pool)
    ensures m.Valid() && Get(m.pool, k) == Some(parent)
    ensures fresh(Objects(m.pool) - old(Objects(m.pool)))
    ensures ChainAll(world, p0, ws[..i + 1]) == Chain(m.Views(), err, if err.None? then i + 1 else i)
  {
    assert ws[..i + 1][..i] == ws[..i];
    err := OfferChild(m, adapter, world, ws[i], options, k, parent);
  }

  /** The pause count after work `i` of `n`: one more unless it was the last. */
  function Pause(delays: nat, i: nat, n: nat): nat {
    if i < n - 1 then delays + 1 else delays
  }

  /**
   * The promise chain of `createGeneralArtworkDownloaders` over `ws`: each
   * work after the previous one, up to the first failure; a 2-second pause
   * (counted in `delays`) follows every work handled except the last.
   */
  method ChainEach(m: DownloadManager, adapter: DownloadAdapter, world: World, ws: seq<Work>, options: Options,
                   ghost k: Key, ghost parent: WorkDownloader)
    returns (failure: Option<Error>, delays: nat)
    requires m.Valid() && Get(m.pool, k) == Some(parent)
    requires ResolvesBy(world, adapter.matchMaps)
    modifies m, Objects(m.pool)
    ensures m.Valid() && Get(m.pool, k) == Some(parent)
    ensures fresh(Objects(m.pool) - old(Objects(m.pool)))
    ensures var c := ChainAll(world, old(m.Views()), ws);
            m.Views() == c.pool && failure == c.failure
            && delays == (if c.failure.Some? then c.done else if c.done > 0 then c.done - 1 else 0)
  {
    ghost var p0 := m.Views();
    var i := 0;
    delays := 0;
    while i < |ws|
      invariant 0 <= i <= |ws|
      invariant m.Valid() && Get(m.pool, k) == Some(parent)
      invariant fresh(Objects(m.pool) - old(Objects(m.pool)))
      invariant ChainAll(world, p0, ws[..i]) == Chain(m.Views(), None, i)
      invariant delays == if i < |ws| || i == 0 then i else i - 1
    {
      var err := ChainOne(m, adapter, world, ws, i, options, k, parent, p0);
      if err.Some? {
        ChainAfterFailure(world, p0, ws, i + 1);
        return err, delays;
      }
      delays := Pause(delays, i, |ws|);
      i := i + 1;
    }
    assert ws[..i] == ws;
    failure := None;
  }

  /**
   * The manager's `error` and `finish` listeners: once the parent has
   * settled (it is not pending), `downloadNext` offers the pending tasks a
   * start; the parent itself keeps its state and its message.
   */
  method HandleSettled(m: DownloadManager, w: WorkDownloader)
    requires m.Valid() && Get(m.pool, w.id) == Some(w) && w.state != Pending
    modifies Objects(m.pool)
    ensures m.Valid() && m.pool == old(m.pool) && Get(m.pool, w.id) == Some(w)
    ensures DistinctKeys(old(m.Views())) && m.Views() == DownloadNext(old(m.Views()))
    ensures w.id == old(w.id) && w.state == old(w.state) && w.statusMessage == old(w.statusMessage)
  {
    InView(m, w.id);
    ghost var p := m.Views();
    ghost var i := Find(m.pool, w.id).value;
    assert p[i].value == w.View();
    m.DownloadNext();
    DownloadNextSpec(p);
    assert m.Views()[i] == p[i];
    assert m.pool[i].value == w && m.pool[i].key == old(w.id);
  }

  /** `setError(error)`: the parent records the error and stays in the pool; the error listener schedules the next tasks. */
  method Fail(m: DownloadManager, w: WorkDownloader, e: Error)
    requires m.Valid() && Get(m.pool, w.id) == Some(w)
    modifies w, Objects(m.pool)
    ensures m.Valid() && Get(m.pool, w.id) == Some(w) && w.id == old(w.id)
    ensures DistinctKeys(old(m.Views())) && m.Views() == AfterError(old(m.Views()), w.id) && HasKey(m.Views(), w.id)
    ensures w.state == Error && w.statusMessage == ErrorText(e)
  {
    Become(m, w, Error, ErrorText(e));
    InView(m, w.id);
    HandleSettled(m, w);
    InView(m, w.id);
  }

  /**
   * `setFinish`; the finish listener schedules the next tasks; then
   * `deleteDownload` of the parent's own id: it leaves the pool, recycled
   * and stopped.
   */
  method Leave(m: DownloadManager, w: WorkDownloader)
    requires m.Valid() && Get(m.pool, w.id) == Some(w)
    modifies m, Objects(m.pool)
    ensures m.Valid()
    ensures var k := old(w.id);
            DistinctKeys(old(m.Views())) && HasKey(old(m.Views()), k)
            && m.Views() == AfterFinish(old(m.Views()), k)
            && !HasKey(m.Views(), k) && w.recycled && w.state == State.Stop
  {
    InView(m, w.id);
    FinishedLeavesAfterNext(m.Views(), w.id);
    Become(m, w, Finish, "");
    HandleSettled(m, w);
    var _ := m.DeleteDownload(w.id);
  }

  // ---------------------------------------------------------------------
  // BookmarkUrlDownloader

  /** `BookmarkUrlDownloader`: a user's bookmark list, walked page by page. */
  class BookmarkUrlDownloader {
    const task: WorkDownloader
    var url: string
    var saveTo: string
    var currentPage: int
    var hasMorePages: bool

    /** A new downloader over a fresh task: page 1, with more pages to come. */
    constructor ()
      ensures fresh(task) && task.id == None && task.state == Pending && task.typeName == Some("Pixiv User Bookmark")
      ensures currentPage == 1 && hasMorePages
    {
      var t := new WorkDownloader();
      t.typeName := Some("Pixiv User Bookmark");
      task := t;
      url := "";
      saveTo := "";
      currentPage := 1;
      hasMorePages := true;
    }

    /** `createDownloader`: the provider's id, url, save folder and options. */
    static method CreateDownloader(args: Providers.DownloaderArgs) returns (d: BookmarkUrlDownloader)
      ensures fresh(d) && fresh(d.task)
      ensures d.task.id == Some(args.providerId) && d.url == args.url && d.saveTo == args.saveTo
      ensures d.task.options == args.options && d.task.state == Pending
      ensures d.currentPage == 1 && d.hasMorePages
    {
      d := new BookmarkUrlDownloader();
      d.task.id := Some(args.providerId);
      d.url := args.url;
      d.saveTo := args.saveTo;
      d.task.options := args.options;
    }

    /**
     * `addArtworkDownloaders(content)`: every work of the page is offered
     * in order, each failure skipped; `hasMorePages` becomes whether the
     * page was a full one.
     */
    method AddArtworkDownloaders(m: DownloadManager, adapter: DownloadAdapter, world: World, options: Options,
                                 content: string, ghost k: Key)
      requires m.Valid() && Get(m.pool, k) == Some(task)
      requires ResolvesBy(world, adapter.matchMaps)
      modifies this, m, Objects(m.pool)
      ensures m.Valid() && Get(m.pool, k) == Some(task)
      ensures fresh(Objects(m.pool) - old(Objects(m.pool)))
      ensures m.Views() == OfferPage(world, old(m.Views()), GetItems(world.parse(content)))
      ensures hasMorePages == MorePages(GetItems(world.parse(content)))
      ensures currentPage == old(currentPage)
    {
      var works := GetItems(world.parse(content));
      if works.Some? && |works.value| > 0 {
        OfferEach(m, adapter, world, works.value, options, k, task);
        hasMorePages := |works.value| == Providers.PageSize;
      } else {
        hasMorePages := false;
      }
    }

    /**
     * One turn of `processAllPages`: mark the task processing, request
     * `currentPage`; a failed request is returned, a fetched page has its
     * works offered and the walk moves to the next page. `rs` are the
     * requests sent before.
     */
    method VisitPage(m: DownloadManager, adapter: DownloadAdapter, world: World, options: Options, ghost k: Key,
                     ghost rs: seq<Request>)
      returns (failure: Option<Error>, request: Request)
      requires m.Valid() && Get(m.pool, k) == Some(task) && task.id == k
      requires ResolvesBy(world, adapter.matchMaps)
      modifies this, m, Objects(m.pool)
      ensures m.Valid() && Get(m.pool, k) == Some(task) && task.id == k
      ensures fresh(Objects(m.pool) - old(Objects(m.pool)))
      ensures Crawl(m.Views(), currentPage, hasMorePages, failure, rs + [request])
              == Turn(world, options, k, Crawl(old(m.Views()), old(currentPage), old(hasMorePages), None, rs))
    {
      Become(m, task, Processing, ResolvingArtworks);
      failure, request := RequestPage(m, adapter, world, options, k);
    }

    /** `requestBookmarkPage(currentPage)`, then `addArtworkDownloaders` and `currentPage++` when it succeeds. */
    method RequestPage(m: DownloadManager, adapter: DownloadAdapter, world: World, options: Options, ghost k: Key)
      returns (failure: Option<Error>, request: Request)
      requires m.Valid() && Get(m.pool, k) == Some(task) && task.id == k
      requires ResolvesBy(world, adapter.matchMaps)
      modifies this, m, Objects(m.pool)
      ensures m.Valid() && Get(m.pool, k) == Some(task) && task.id == k
      ensures fresh(Objects(m.pool) - old(Objects(m.pool)))
      ensures request == UserPageRequest(options, old(currentPage))
      ensures var f := FetchPage(world, options, old(currentPage));
              failure == f.failure
              && (f.failure.Some? ==> m.Views() == old(m.Views()) && currentPage == old(currentPage)
                                      && hasMorePages == old(hasMorePages))
              && (f.failure.None? ==> m.Views() == OfferPage(world, old(m.Views()), f.works)
                                      && currentPage == old(currentPage) + 1 && hasMorePages == MorePages(f.works))
    {
      request := UserPageRequest(options, currentPage);
      var response := world.fetch(request);
      if response.Failure? {
        return Some(response.error), request;
      }
      AddArtworkDownloaders(m, adapter, world, options, response.value, k);
      currentPage := currentPage + 1;
      failure := None;
    }

    /**
     * `processAllPages`: while there are more pages, mark the task
     * processing, request `currentPage`, offer its works and move on; a
     * failed request ends the loop with its error. `last` is a page at
     * which the listing ends.
     */
    method ProcessAllPages(m: DownloadManager, adapter: DownloadAdapter, world: World, ghost last: int)
      returns (failure: Option<Error>, requests: seq<Request>)
      requires m.Valid() && Get(m.pool, task.id) == Some(task)
      requires hasMorePages ==> currentPage <= last && PageEnds(world, task.options, last)
      requires ResolvesBy(world, adapter.matchMaps)
      modifies this, m, Objects(m.pool)
      ensures m.Valid() && Get(m.pool, old(task.id)) == Some(task) && task.id == old(task.id)
      ensures fresh(Objects(m.pool) - old(Objects(m.pool)))
      ensures Crawl(m.Views(), currentPage, hasMorePages, failure, requests)
              == Walked(world, old(task.options), old(task.id),
                        Crawl(old(m.Views()), old(currentPage), old(hasMorePages), None, []), last)
    {
      var options := task.options;
      ghost var k := task.id;
      ghost var start := Crawl(m.Views(), currentPage, hasMorePages, None, []);
      failure := None;
      requests := [];
      while hasMorePages
        invariant m.Valid() && Get(m.pool, k) == Some(task) && task.id == k
        invariant fresh(Objects(m.pool) - old(Objects(m.pool)))
        invariant failure.None?
        invariant hasMorePages ==> currentPage <= last && PageEnds(world, options, last)
        invariant Walked(world, options, k, start, last)
                  == Walked(world, options, k, Crawl(m.Views(), currentPage, hasMorePages, None, requests), last)
        decreases if hasMorePages then last - currentPage + 1 else 0
      {
        TurnWithin(world, options, k, Crawl(m.Views(), currentPage, hasMorePages, None, requests), last);
        var request;
        failure, request := VisitPage(m, adapter, world, options, k, requests);
        requests := requests + [request];
        if failure.Some? {
          return;
        }
      }
    }

    /**
     * `start`: `setStart`, walk the pages; when the walk succeeds the task
     * finishes and deletes its own id from the pool (which recycles and
     * stops it); when a request fails the task records the error and stays
     * in the pool.
     */
    method Start(m: DownloadManager, adapter: DownloadAdapter, world: World, ghost last: int)
      returns (failure: Option<Error>, requests: seq<Request>)
      requires m.Valid() && Get(m.pool, task.id) == Some(task)
      requires hasMorePages ==> currentPage <= last && PageEnds(world, task.options, last)
      requires ResolvesBy(world, adapter.matchMaps)
      modifies this, m, Objects(m.pool)
      ensures m.Valid()
      ensures var k := old(task.id);
              var r := Walked(world, old(task.options), k,
                              Crawl(MarkOwn(old(m.Views()), k, Downloading), old(currentPage), old(hasMorePages), None, []),
                              last);
              failure == r.failure && currentPage == r.page && hasMorePages == r.more && requests == r.requests
              && (failure.Some? ==> DistinctKeys(r.pool) && m.Views() == AfterError(r.pool, k) && HasKey(m.Views(), k)
                                    && task.state == Error && task.statusMessage == ErrorText(failure.value))
              && (failure.None? ==> DistinctKeys(r.pool) && HasKey(r.pool, k)
                                    && m.Views() == AfterFinish(r.pool, k) && !HasKey(m.Views(), k)
                                    && task.recycled && task.state == State.Stop)
    {
      ghost var k := task.id;
      Become(m, task, Downloading, "");
      failure, requests := ProcessAllPages(m, adapter, world, last);
      if failure.Some? {
        Fail(m, task, failure.value);
        return;
      }
      Leave(m, task);
    }
  }

  // ---------------------------------------------------------------------
  // BookmarkDownloader (one page of the signed-in user's bookmarks)

  /** `BookmarkDownloader`: the works of one bookmark page, from a stored response or a request. */
  class BookmarkPageDownloader {
    const task: WorkDownloader
    var url: string
    var saveTo: string
    var responseBody: string

    /** A new downloader over a fresh task, with no stored response. */
    constructor ()
      ensures fresh(task) && task.id == None && task.state == Pending && task.typeName == Some("Pixiv Bookmark Page")
      ensures responseBody == ""
    {
      var t := new WorkDownloader();
      t.typeName := Some("Pixiv Bookmark Page");
      task := t;
      url := "";
      saveTo := "";
      responseBody := "";
    }

    /** `createDownloader`: the provider's id, url, save folder and options. */
    static method CreateDownloader(args: Providers.DownloaderArgs) returns (d: BookmarkPageDownloader)
      ensures fresh(d) && fresh(d.task)
      ensures d.task.id == Some(args.providerId) && d.url == args.url && d.saveTo == args.saveTo
      ensures d.task.options == args.options && d.task.state == Pending && d.responseBody == ""
    {
      d := new BookmarkPageDownloader();
      d.task.id := Some(args.providerId);
      d.url := args.url;
      d.saveTo := args.saveTo;
      d.task.options := args.options;
    }

    /** `setResponseBody(body)`: only the stored response changes. */
    method SetResponseBody(body: string)
      modifies this
      ensures responseBody == body && url == old(url) && saveTo == old(saveTo)
    {
      responseBody := body;
    }

    /** `canDownload`: the stored response has works. */
    predicate CanDownload(world: World)
      reads this
    {
      HasWorks(GetItems(world.parse(responseBody)))
    }

    /**
     * Started on its stored response, a downloader that cannot download
     * adds nothing and fails nothing, and one that can either handles at
     * least one work or fails on its first.
     */
    lemma CanDownloadMeans(world: World, options: Options, k: Key, p: PoolView)
      requires responseBody != ""
      ensures var c := PageChain(world, options, k, p, responseBody);
              (!CanDownload(world) ==> c == Chain(p, None, 0))
              && (CanDownload(world) ==> c.done > 0 || c.failure.Some?)
    {
      ChainAllSpec(world, p, WorksOf(GetItems(world.parse(responseBody))));
    }

    /**
     * `requestBookmarkContent`: the task becomes processing, then the
     * signed-in user's bookmark page named by the options is requested.
     */
    method RequestBookmarkContent(m: DownloadManager, world: World, ghost k: Key)
      returns (r: Result<string, Error>, request: Request)
      requires m.Valid() && Get(m.pool, k) == Some(task) && task.id == k
      modifies task
      ensures m.Valid() && Get(m.pool, k) == Some(task) && task.id == k && task.options == old(task.options)
      ensures m.Views() == MarkOwn(old(m.Views()), k, Processing) && task.statusMessage == ResolvingArtworks
      ensures request == PageDownloaderRequest(task.options) && r == world.fetch(request)
    {
      Become(m, task, Processing, ResolvingArtworks);
      request := PageDownloaderRequest(task.options);
      r := world.fetch(request);
    }

    /**
     * `createGeneralArtworkDownloaders(content)`: the works of the page in
     * order, one after the other; a falsy id is skipped and the first
     * failure of a provider lookup or creation ends the chain. A 2-second
     * pause (counted in `delays`) follows every work handled except the last.
     */
    method CreateGeneralArtworkDownloaders(m: DownloadManager, adapter: DownloadAdapter, world: World, options: Options,
                                           content: string, ghost k: Key)
      returns (failure: Option<Error>, delays: nat)
      requires m.Valid() && Get(m.pool, k) == Some(task)
      requires ResolvesBy(world, adapter.matchMaps)
      modifies m, Objects(m.pool)
      ensures m.Valid() && Get(m.pool, k) == Some(task)
      ensures fresh(Objects(m.pool) - old(Objects(m.pool)))
      ensures var c := ChainAll(world, old(m.Views()), WorksOf(GetItems(world.parse(content))));
              m.Views() == c.pool && failure == c.failure
              && delays == (if c.failure.Some? then c.done else if c.done > 0 then c.done - 1 else 0)
    {
      var works := GetItems(world.parse(content));
      if !(works.Some? && |works.value| > 0) {
        return None, 0;
      }
      failure, delays := ChainEach(m, adapter, world, works.value, options, k, task);
    }

    /**
     * What `start` chains over: the stored response as it is, or (with none
     * stored) the outcome of `requestBookmarkContent`.
     */
    method Content(m: DownloadManager, world: World, ghost k: Key)
      returns (r: Result<string, Error>, request: Option<Request>)
      requires m.Valid() && Get(m.pool, k) == Some(task) && task.id == k
      modifies task
      ensures m.Valid() && Get(m.pool, k) == Some(task) && task.id == k && task.options == old(task.options)
      ensures responseBody != "" ==> r == Success(responseBody) && request == None && m.Views() == old(m.Views())
      ensures responseBody == "" ==> request == Some(PageDownloaderRequest(task.options)) && r == world.fetch(request.value)
                                     && m.Views() == MarkOwn(old(m.Views()), k, Processing)
    {
      if responseBody != "" {
        return Success(responseBody), None;
      }
      var q;
      r, q := RequestBookmarkContent(m, world, k);
      request := Some(q);
    }

    /** The chain of `start` and what follows it: finish and leave the pool, or record the error. */
    method Run(m: DownloadManager, adapter: DownloadAdapter, world: World, ghost k: Key)
      returns (failure: Option<Error>, request: Option<Request>)
      requires m.Valid() && Get(m.pool, k) == Some(task) && task.id == k
      requires ResolvesBy(world, adapter.matchMaps)
      modifies m, Objects(m.pool)
      ensures m.Valid()
      ensures request == if responseBody != "" then None else Some(PageDownloaderRequest(old(task.options)))
      ensures var c := PageChain(world, old(task.options), k, old(m.Views()), responseBody);
              failure == c.failure
              && (failure.Some? ==> DistinctKeys(c.pool) && m.Views() == AfterError(c.pool, k) && HasKey(m.Views(), k)
                                    && task.state == Error && task.statusMessage == ErrorText(failure.value))
              && (failure.None? ==> DistinctKeys(c.pool) && HasKey(c.pool, k)
                                    && m.Views() == AfterFinish(c.pool, k) && !HasKey(m.Views(), k)
                                    && task.recycled && task.state == State.Stop)
    {
      ghost var c := PageChain(world, task.options, k, m.Views(), responseBody);
      var options := task.options;
      var r;
      r, request := Content(m, world, k);
      if r.Failure? {
        assert c == Chain(m.Views(), Some(r.error), 0);
        failure := Some(r.error);
        Fail(m, task, r.error);
        return;
      }
      ghost var p1 := m.Views();
      assert c == ChainAll(world, p1, WorksOf(GetItems(world.parse(r.value))));
      var delays;
      failure, delays := CreateGeneralArtworkDownloaders(m, adapter, world, options, r.value, k);
      assert m.Views() == c.pool && failure == c.failure;
      if failure.Some? {
        Fail(m, task, failure.value);
        return;
      }
      Leave(m, task);
    }

    /**
     * `start`: `setStart`; the works of the stored response, or (with none
     * stored) of the requested page; when the chain succeeds the task
     * finishes and deletes its own id from the pool, otherwise it records
     * the error and stays.
     */
    method Start(m: DownloadManager, adapter: DownloadAdapter, world: World)
      returns (failure: Option<Error>, request: Option<Request>)
      requires m.Valid() && Get(m.pool, task.id) == Some(task)
      requires ResolvesBy(world, adapter.matchMaps)
      modifies m, Objects(m.pool)
      ensures m.Valid()
      ensures request == if responseBody != "" then None else Some(PageDownloaderRequest(old(task.options)))
      ensures var k := old(task.id);
              var c := PageChain(world, old(task.options), k, MarkOwn(old(m.Views()), k, Downloading), responseBody);
              failure == c.failure
              && (failure.Some? ==> DistinctKeys(c.pool) && m.Views() == AfterError(c.pool, k) && HasKey(m.Views(), k)
                                    && task.state == Error && task.statusMessage == ErrorText(failure.value))
              && (failure.None? ==> DistinctKeys(c.pool) && HasKey(c.pool, k)
                                    && m.Views() == AfterFinish(c.pool, k) && !HasKey(m.Views(), k)
                                    && task.recycled && task.state == State.Stop)
    {
      ghost var k := task.id;
      Become(m, task, Downloading, "");
      failure, request := Run(m, adapter, world, k);
    }
  }
}
