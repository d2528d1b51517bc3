# pixiv-omina, modelled in Dafny

pixiv-omina is a desktop downloader for pixiv artworks. This project models the core of three parts of it.

- The Electron application's download core:
  - the work-downloader pool and its scheduler (`DownloadManager`, `WorkDownloader`);
  - the URL-to-provider table (`DownloadAdapter`);
  - the bookmark downloaders and the providers that create them;
  - the pixiv URL builder (`UrlBuilder`);
  - the file-name formatter (`FormatName`);
  - the settings store (`SettingStorage`);
  - the download file name (`Download.getFilename`);
  - the plugin registry (`PluginManager`).
- The bookmark URL extractor script (`bookmark-url-extractor.js`): argument handling, user-id extraction, the cookie header and the paged bookmark listing.
- The command-line C++ downloader (`cpp-downloader`): argument parsing, cookie loading, the curl write callbacks, the URL file, id extraction, file-name sanitising, the per-artwork download and the counters of `run()`, and `main`.

Each part keeps the form of its source:
- Objects whose fields the source updates are classes, with `modifies` and `reads` frames: the manager, the work downloaders, the adapter table, the settings store, the plugin manager, the HTTP client and the C++ downloader.
- Loops are methods with invariants. Each is proved against a specification function, and the lemmas about that function state what the source promises.
- Pure code is functions and lemmas.

The outside world enters as parameters:
- the network is a function from a request to an answer, or to nothing when the request fails;
- the clock is a number;
- the file system is a function from a path to the file's text;
- the SQLite store is a map from artwork id to the recorded path;
- helpers the model cannot see are functions passed in: md5 and `ensureDir`;
- the settings store calls `FormatName.replaceIllegalChars`, which `FormatName` does not define; the cleaner is an optional parameter, where none is the system as it stands (the call throws a TypeError) and a given cleaner is the intended behaviour.

Asynchronous steps run one after another, and timer delays are counted rather than waited for.

## Model

| member | source | states |
|---|---|---|
| Strings.NatToString | cpp-downloader/src/pixiv_downloader.cpp:187 | the decimal rendering of a number is all digits |
| Strings.ReplaceFirst | src/main/modules/Utils/FormatName.js:86 | a string without the pattern is unchanged; otherwise one occurrence of the pattern is replaced and the rest is kept |
| Strings.LastIndexOfChar | cpp-downloader/src/pixiv_downloader.cpp:184 | the position found holds the character and no later one does; none when the character is absent |
| Strings.TrimStart | cpp-downloader/src/http_client.cpp:32 | only leading characters of the set are dropped, and the rest starts with another character |
| Strings.TrimEnd | cpp-downloader/src/http_client.cpp:33 | only trailing characters of the set are dropped, and the rest ends with another character |
| Strings.FirstTaggedDigits | cpp-downloader/src/pixiv_downloader.cpp:65-72 | the search finds nothing exactly when no tag is followed by a digit, and the captured id is all digits |
| OrderedMaps.Find | src/main/modules/Downloader/DownloadManager.js:535 | the position found holds the key and no earlier entry does; none exactly when the key is absent |
| OrderedMaps.Set | src/main/modules/Downloader/DownloadManager.js:85 | a known key keeps the size; a new key is appended at the end |
| OrderedMaps.Delete | src/main/modules/Downloader/DownloadManager.js:435 | the key is gone and the map does not grow |
| DownloadAdapters.FirstMatchSpec | src/main/modules/Downloader/DownloadAdapter.js:66-73 | an entry answers with its first matching pattern, and with nothing exactly when none matches |
| DownloadAdapters.Match | src/main/modules/Downloader/DownloadAdapter.js:67 | `src.match(pattern)`: the named groups of a match, or nothing |
| Tasks.WorkDownloader.constructor | src/main/modules/Downloader/WorkDownloader.js:22-56 | a new task has a null id, is pending, has an empty status message, empty options and no type |
| Tasks.WorkDownloader.CreateDownloader | src/main/modules/Downloader/WorkDownloader.js:64-71 | the new task carries the given id and options and is pending |
| Tasks.WorkDownloader.Start | src/main/modules/Downloader/WorkDownloader/Pixiv/BookmarkUrlDownloader.js:198 | `setStart` makes the task downloading and changes no other field |
| Tasks.WorkDownloader.SetPending | src/main/modules/Downloader/DownloadManager.js:405 | the task becomes pending, every other field unchanged |
| Tasks.WorkDownloader.Reset | src/main/modules/Downloader/DownloadManager.js:398-400 | a reset task is pending again, every other field unchanged |
| Tasks.WorkDownloader.WillRecycle | src/main/modules/Downloader/DownloadManager.js:437 | the task is flagged for recycling and keeps its state |
| Tasks.WorkDownloader.SetProcessing | src/main/modules/Downloader/WorkDownloader/Pixiv/BookmarkUrlDownloader.js:80 | the task is processing with the given status message |
| Tasks.WorkDownloader.SetFinish | src/main/modules/Downloader/WorkDownloader/Pixiv/BookmarkUrlDownloader.js:202 | the task is finished, nothing else changes |
| Tasks.WorkDownloader.SetError | src/main/modules/Downloader/WorkDownloader/Pixiv/BookmarkUrlDownloader.js:206 | the task is in error with the error's message |
| Tasks.WorkDownloader.Stop | src/main/modules/Downloader/DownloadManager.js:496-509 | `stop` throws `Unstoppable` exactly when the task is stopping or processing, and then leaves it alone; otherwise it ends stopped |
| OrderedMaps.Get | src/main/modules/Downloader/DownloadManager.js:534-541 | `get` yields the value of the first entry under the key, none when the key is absent |
| OrderedMaps.SetGet | src/main/modules/Downloader/DownloadManager.js:85 | after `set`, `get` of that key gives the new value and every other key keeps its value |
| OrderedMaps.SetKeys | src/main/modules/Downloader/DownloadManager.js:98 | `set` keeps the keys where they were and appends a new key at the end; keys stay distinct |
| OrderedMaps.DeleteSpec | src/main/modules/Downloader/DownloadManager.js:435 | `delete` removes exactly the entry under the key and keeps every other entry in order |
| OrderedMaps.Concat | src/main/modules/Downloader/DownloadManager.js:163-166 | a map spread from two maps without a common key is the one followed by the other |
| OrderedMaps.FromEntriesSpec | src/main/modules/Downloader/DownloadManager.js:157-161 | a map built from entries has distinct keys, exactly the keys of the entries, and only entries taken from them |
| OrderedMaps.FromEntriesLast | src/main/modules/Downloader/DownloadManager.js:157-161 | in a map built from entries, the later entry for a key wins |
| OrderedMaps.AdmitKeys | src/main/modules/Downloader/DownloadManager.js:138-144 | the gathered downloaders hold exactly the candidate ids the pool lacks |
| OrderedMaps.AdmitGet | src/main/modules/Downloader/DownloadManager.js:138-144 | for an id the pool lacks, the gathered map keeps the last downloader given under it |
| OrderedMaps.AddBatchShape | src/main/modules/Downloader/DownloadManager.js:146-170 | the rebuilt pool is the entries before the replaced one, the gathered ones and the entries after it (or the old pool followed by the gathered ones), with distinct keys |
| OrderedMaps.AddBatchSpec | src/main/modules/Downloader/DownloadManager.js:132-170 | the rebuilt pool keeps every old entry except the replaced one, drops the replaced id, adds only gathered downloaders and adds every id the pool lacked |
| Scheduling.FirstPending | src/main/modules/Downloader/DownloadManager.js:239-245 | the position found holds a pending task and no earlier task is pending; none exactly when no task is pending |
| Scheduling.StartedUnlessFull | src/main/modules/Downloader/DownloadManager.js:393-408 | a task is set pending instead of started only when its class is full, and then `reachMaxDownloading` holds |
| Scheduling.SpecificIgnoresTarget | src/main/modules/Downloader/DownloadManager.js:364-387 | whether a task may start does not depend on the task's own state, only on the others and its class |
| Scheduling.StartPreservesCeilings | src/main/modules/Downloader/DownloadManager.js:364-408 | starting a task never takes a class's running count over its ceiling |
| Scheduling.StartChangesOnlyTarget | src/main/modules/Downloader/DownloadManager.js:393-409 | a start changes at most the task under the id: a task that may start becomes downloading when its class has room and pending otherwise; keys, order, shapes and all other tasks stay |
| Scheduling.DownloadNextStep | src/main/modules/Downloader/DownloadManager.js:234-259 | one round of `downloadNext` offers a start to the first pending task and keeps keys and ceilings |
| Scheduling.DownloadNextSpec | src/main/modules/Downloader/DownloadManager.js:234-259 | `downloadNext` keeps keys and order, only moves pending tasks to downloading, never breaks a ceiling, and ends only when no task is pending or a class is full |
| Scheduling.DownloadNextInOrder | src/main/modules/Downloader/DownloadManager.js:239-253 | `downloadNext` starts pending tasks in insertion order: a task started later was never ahead of a pending one left behind |
| Scheduling.StartTask | src/main/modules/Downloader/DownloadManager.js:393-409 | starting one task: downloading when its class has room, else pending |
| Scheduling.DownloadNext | src/main/modules/Downloader/DownloadManager.js:234-259 | `downloadNext`: each pending task in order offered a start |
| PoolRules.DeleteRunning | src/main/modules/Downloader/DownloadManager.js:435 | taking a task out of the pool never adds to a class's running count |
| PoolRules.DeletePreservesCeilings | src/main/modules/Downloader/DownloadManager.js:435 | `delete` keeps the ceilings and distinct keys |
| PoolRules.AddTaskSpec | src/main/modules/Downloader/DownloadManager.js:94-101 | a task under a new id is appended and a known id's entry is left as it was; keys stay distinct; a task that is not running keeps the ceilings |
| PoolRules.SetTaskSpec | src/main/modules/Downloader/DownloadManager.js:84-88 | the task goes under its id, in place of a known id's task or at the end; every other entry stays; a non-running task keeps the ceilings |
| PoolRules.StoppedCounts | src/main/modules/Downloader/DownloadManager.js:416-421 | stopping tasks keeps keys and never adds to a running count |
| PoolRules.StopTaskPointwise | src/main/modules/Downloader/DownloadManager.js:419-420 | a stop changes the task under the id, if known, and no other entry |
| PoolRules.StopTaskSpec | src/main/modules/Downloader/DownloadManager.js:416-421 | a stop leaves a stoppable task stopped, changes nothing else and keeps the ceilings |
| PoolRules.DeleteTaskSpec | src/main/modules/Downloader/DownloadManager.js:431-447 | deleting an unknown id fails and changes nothing; a task that is not stopping is taken out for good, with `Unstoppable` exactly when it was processing; a stopping task stays; keys distinct and ceilings kept |
| PoolRules.DeleteBatchAborted | src/main/modules/Downloader/DownloadManager.js:464-483 | once a delete batch has thrown, the ids after the failing one are not looked at |
| PoolRules.DeleteBatchShrinks | src/main/modules/Downloader/DownloadManager.js:461-486 | a delete batch only removes entries: every entry left was in the pool, unchanged |
| PoolRules.DeleteBatchReport | src/main/modules/Downloader/DownloadManager.js:461-486 | reported ids were requested and are gone; after a batch that did not throw every requested id still present is a stopping task; the only error is `Unstoppable` |
| PoolRules.StopBatchPool | src/main/modules/Downloader/DownloadManager.js:490-512 | a stop batch stops exactly the requested tasks that are stoppable |
| PoolRules.StopBatchReport | src/main/modules/Downloader/DownloadManager.js:490-512 | a stop batch reports exactly the requested ids of known, stoppable tasks |
| PoolRules.StopBatchSpec | src/main/modules/Downloader/DownloadManager.js:490-518 | a stop batch keeps the keys and the ceilings, changes only requested tasks and reports only requested ids whose tasks now stand stopped, and every requested stoppable one |
| PoolRules.StopTask | src/main/modules/Downloader/DownloadManager.js:416-421 | a stop of the task under the id, when known |
| PoolRules.DeleteTask | src/main/modules/Downloader/DownloadManager.js:431-447 | a delete: the task removed, or the error thrown |
| PoolRules.DeleteBatch | src/main/modules/Downloader/DownloadManager.js:461-486 | a delete batch: the ids deleted in order until one throws |
| PoolRules.StopBatch | src/main/modules/Downloader/DownloadManager.js:490-512 | a stop batch: every requested task stopped, the stopped ids reported |
| DownloadManagers.CandidatesSpec | src/main/modules/Downloader/DownloadManager.js:138-144 | the candidates are the given downloaders, each keyed by its own id |
| DownloadManagers.BatchFacts | src/main/modules/Downloader/DownloadManager.js:146-170 | the rebuilt pool keeps tasks keyed by their ids and holds only old tasks and given ones |
| DownloadManagers.DownloadManager.constructor | src/main/modules/Downloader/DownloadManager.js:13-53 | a new manager has an empty pool and the two ceilings |
| DownloadManagers.DownloadManager.GetWorkDownloader | src/main/modules/Downloader/DownloadManager.js:534-541 | the task under the id, null exactly when the id is unknown |
| DownloadManagers.DownloadManager.ReachMaxDownloading | src/main/modules/Downloader/DownloadManager.js:211-231 | the loop's answer is true exactly when the multi-image or single-image running count reaches its ceiling |
| DownloadManagers.DownloadManager.CanStartSpecificDownload | src/main/modules/Downloader/DownloadManager.js:364-387 | true exactly when the task's class has room among the running tasks other than the task itself |
| DownloadManagers.DownloadManager.FindNextPending | src/main/modules/Downloader/DownloadManager.js:239-245 | the loop finds the first pending task in insertion order |
| DownloadManagers.DownloadManager.StartWorkDownloader | src/main/modules/Downloader/DownloadManager.js:393-409 | the pool's new view is the start rule applied to the old one: a known task that may start is started when its class has room, set pending otherwise |
| DownloadManagers.DownloadManager.ResetAt | src/main/modules/Downloader/DownloadManager.js:398-400 | only the task at the position changes, and it becomes pending |
| DownloadManagers.DownloadManager.StartOrHoldAt | src/main/modules/Downloader/DownloadManager.js:402-407 | only the task at the position changes: downloading when there is room, pending otherwise |
| DownloadManagers.DownloadManager.DownloadNext | src/main/modules/Downloader/DownloadManager.js:234-259 | the pool's new view is the `downloadNext` rule applied to the old one |
| DownloadManagers.DownloadManager.AddDownloader | src/main/modules/Downloader/DownloadManager.js:94-101 | a new id joins the end of the pool and is offered a start; a known id changes nothing |
| DownloadManagers.DownloadManager.AddWorkDownloader | src/main/modules/Downloader/DownloadManager.js:84-88 | the task goes under its id, in place or at the end, and is offered a start |
| DownloadManagers.DownloadManager.TransformWorkDownloader | src/main/modules/Downloader/DownloadManager.js:107-123 | an unknown id throws before anything changes; a known id's task is replaced in place and the new task offered a start |
| DownloadManagers.DownloadManager.GatherAdded | src/main/modules/Downloader/DownloadManager.js:138-144 | the loop gathers exactly the admitted candidates: the downloaders whose ids the pool lacks, later ones replacing earlier ones under a repeated id |
| DownloadManagers.DownloadManager.SplitAround | src/main/modules/Downloader/DownloadManager.js:150-162 | the loop yields the entries before the replaced id and those after it |
| DownloadManagers.DownloadManager.AddDownloaders | src/main/modules/Downloader/DownloadManager.js:132-182 | the new pool is the batch rule applied to the old one, followed by `downloadNext` when auto-start is asked for |
| DownloadManagers.DownloadManager.PlaceBatch | src/main/modules/Downloader/DownloadManager.js:146-170 | the pool becomes the rebuilt pool and stays well keyed |
| DownloadManagers.DownloadManager.BatchPool | src/main/modules/Downloader/DownloadManager.js:146-170 | the rebuilt pool equals the batch rule on the current pool, with distinct keys, tasks keyed by their ids and only old or given tasks |
| DownloadManagers.DownloadManager.Install | src/main/modules/Downloader/DownloadManager.js:157-170 | the pool becomes the given one and no task changes |
| DownloadManagers.DownloadManager.StopAt | src/main/modules/Downloader/DownloadManager.js:419-420 | only the task at the position changes; `Unstoppable` exactly when it is stopping or processing |
| DownloadManagers.DownloadManager.StopWorkDownloader | src/main/modules/Downloader/DownloadManager.js:416-424 | a known stoppable task is stopped, then the pool is scheduled as `downloadNext` says |
| DownloadManagers.DownloadManager.RemoveAndStop | src/main/modules/Downloader/DownloadManager.js:434-440 | the task leaves the pool, is flagged for recycling and stopped, throwing `Unstoppable` exactly when it was processing |
| DownloadManagers.DownloadManager.DeleteWorkDownloader | src/main/modules/Downloader/DownloadManager.js:431-447 | the pool's new view and the error are those of the delete rule: an unknown id throws, a stopping task stays, any other task leaves |
| DownloadManagers.DownloadManager.DeleteDownload | src/main/modules/Downloader/DownloadManager.js:453-455 | same result as `deleteWorkDownloader` |
| DownloadManagers.DownloadManager.DeleteOne | src/main/modules/Downloader/DownloadManager.js:465-482 | one id of the batch is handled as the batch rule's step says |
| DownloadManagers.DownloadManager.DeleteDownloads | src/main/modules/Downloader/DownloadManager.js:461-486 | the new pool, the reported ids and the error are those of the delete-batch rule |
| DownloadManagers.DownloadManager.StopDownloads | src/main/modules/Downloader/DownloadManager.js:490-518 | the tasks and the reported ids are those of the stop-batch rule, followed by `downloadNext` |
| DownloadAdapters.LeadingDigits | src/main/modules/Downloader/DownloadAdapter.js:16 | a run is found exactly when the input starts with a digit, and the run found is non-empty and all digits |
| DownloadAdapters.CaseInsensitiveMatch | src/main/modules/Downloader/DownloadAdapter.js:16-41 | the patterns with the `i` flag give the same answer, with the same captures, on an input and on its lower-cased form |
| DownloadAdapters.ComicCaseSensitive | src/main/modules/Downloader/DownloadAdapter.js:47 | the `comic.pixiv.net` patterns have no `i` flag: an upper-case scheme defeats them |
| DownloadAdapters.LookupSpec | src/main/modules/Downloader/DownloadAdapter.js:63-78 | the lookup answers with the first match in scan order, entry by entry and pattern by pattern, and finds nothing exactly when no pattern matches |
| DownloadAdapters.Lookup | src/main/modules/Downloader/DownloadAdapter.js:63-78 | the provider and context of the first match in scan order, or nothing |
| DownloadAdapters.ResolveFails | src/main/modules/Downloader/DownloadAdapter.js:77 | `getProvider` throws exactly when no pattern of the table matches |
| DownloadAdapters.Resolve | src/main/modules/Downloader/DownloadAdapter.js:63-78 | `getProvider`: the first match, or the error thrown when none matches |
| DownloadAdapters.AppendedEntryIsLast | src/main/modules/Downloader/DownloadAdapter.js:87-92 | an appended entry never takes precedence over the entries already there |
| DownloadAdapters.FindProvider | src/main/modules/Downloader/DownloadAdapter.js:100 | the index found holds the provider and no earlier entry does; none when no entry does |
| DownloadAdapters.RemoveFirstSpec | src/main/modules/Downloader/DownloadAdapter.js:99-105 | removing a provider takes out its first entry and keeps every other in order; an absent provider changes nothing |
| DownloadAdapters.RemoveFirst | src/main/modules/Downloader/DownloadAdapter.js:99-105 | the table without the first entry of the provider |
| DownloadAdapters.ExtendThenRemove | src/main/modules/Downloader/DownloadAdapter.js:87-105 | extending the table with a new provider and removing it again restores the table |
| DownloadAdapters.UsersPathMatch | src/main/modules/Downloader/DownloadAdapter.js:17 | on a bookmark-list path the user pattern's optional language segment is tried with `users` and given up, and the user id is captured |
| DownloadAdapters.BookmarkListGoesToUser | src/main/modules/Downloader/DownloadAdapter.js:14-24 | as written, a bookmark-list URL is taken by the unanchored user pattern of the first entry and never reaches the bookmark-list provider |
| DownloadAdapters.BookmarkPathTails | src/main/modules/Downloader/DownloadAdapter.js:23 | on a bookmark-list path the anchored user pattern fails and the bookmark-list pattern captures the user id |
| DownloadAdapters.BookmarkListMatches | src/main/modules/Downloader/DownloadAdapter.js:16-23 | on a bookmark-list URL the member and anchored user patterns fail and the bookmark-list pattern matches |
| DownloadAdapters.BookmarkListResolves | src/main/modules/Downloader/DownloadAdapter.js:21-24 | with the user pattern anchored, a bookmark-list URL reaches the bookmark-list provider with its user id |
| DownloadAdapters.UserUrlResolves | src/main/modules/Downloader/DownloadAdapter.js:17 | the anchored user pattern still takes a user's page, with its id |
| DownloadAdapters.ArtworkUrlResolves | src/main/modules/Downloader/DownloadAdapter.js:27-30 | an artwork URL goes to the general artwork provider with its digits as the id, under either table |
| DownloadAdapters.ArtworkUrlMatches | src/main/modules/Downloader/DownloadAdapter.js:16-29 | on an artwork URL only the artwork pattern matches among the first three entries |
| DownloadAdapters.DownloadAdapter.constructor | src/main/modules/Downloader/DownloadAdapter.js:12-56 | the adapter starts from the built-in table as written, including its unanchored user pattern |
| DownloadAdapters.DownloadAdapter.GetProvider | src/main/modules/Downloader/DownloadAdapter.js:63-78 | the nested loop's answer is the lookup over the table: the first matching entry's provider with the captures, or the error |
| DownloadAdapters.DownloadAdapter.ExtendMap | src/main/modules/Downloader/DownloadAdapter.js:87-92 | the entry is appended to the table |
| DownloadAdapters.DownloadAdapter.RemoveProvider | src/main/modules/Downloader/DownloadAdapter.js:99-105 | the table loses the first entry of the provider, if any |
| UrlBuilder.InfoUrlExtensions | src/utils/UrlBuilder.js:19-48 | the pages and animation-metadata URLs extend the work-info URL of the same id |
| UrlBuilder.WorkUrlInjective | src/utils/UrlBuilder.js:10-12 | different ids give different artwork URLs |
| UrlBuilder.WorkUrlResolves | src/utils/UrlBuilder.js:10-12 | the artwork URL of a numeric id resolves to the general artwork provider with that id |
| UrlBuilder.WorkUrl | src/utils/UrlBuilder.js:10-12 | the artwork page `https://www.pixiv.net/artworks/{id}` |
| UrlBuilder.WorkInfoUrl | src/utils/UrlBuilder.js:19-21 | the artwork description in the web API, `/ajax/illust/{id}` |
| UrlBuilder.WorkPagesUrl | src/utils/UrlBuilder.js:31-33 | the work-info URL followed by `/pages` |
| UrlBuilder.UgoiraMetaUrl | src/utils/UrlBuilder.js:46-48 | the work-info URL followed by `/ugoira_meta` |
| UrlBuilder.UserProfileAllUrl | src/utils/UrlBuilder.js:50-52 | the user profile URL `/ajax/user/{id}/profile/all` |
| UrlBuilder.UserProfileAllUrlInjective | src/utils/UrlBuilder.js:50-52 | different user ids give different profile URLs: the id sits between two fixed pieces |
| UrlBuilder.BookmarkUrl | src/utils/UrlBuilder.js:60-62 | the first page (offset 0, 48 works) of the signed-in user's bookmarks with the visibility given |
| Providers.CreatePageProvider | src/main/modules/Downloader/Providers/Pixiv/BookmarkPageProvider.js:33-41 | the context is the given visibility and page and the URL is that page's |
| Providers.NumberHasNoSeparators | src/main/modules/Downloader/Providers/Pixiv/BookmarkPageProvider.js:47 | a rendered number holds no `:` and no `&` |
| Providers.PageIdInjective | src/main/modules/Downloader/Providers/Pixiv/BookmarkPageProvider.js:46-48 | a page provider's id determines its visibility and page |
| Providers.SelfBookmarksUrlInjective | src/main/modules/Downloader/Providers/Pixiv/BookmarkPageProvider.js:21-26 | the page URL determines the offset and the visibility |
| Providers.PageUrlInjective | src/main/modules/Downloader/Providers/Pixiv/BookmarkPageProvider.js:21-26 | different pages or visibilities are requested at different URLs |
| Providers.FirstPageIsUrlBuilders | src/main/modules/Downloader/Providers/Pixiv/BookmarkPageProvider.js:21-26 | page 1 is offset 0, the URL `UrlBuilder.getBookmarkUrl` builds |
| Providers.PageDownloaderCarriesContext | src/main/modules/Downloader/Providers/Pixiv/BookmarkPageProvider.js:55-65 | the downloader gets the provider's URL and id and options holding only the visibility and page |
| Providers.CreateUrlProvider | src/main/modules/Downloader/Providers/Pixiv/BookmarkUrlProvider.js:24-26 | the provider keeps the URL and context as given |
| Providers.UrlIdByUser | src/main/modules/Downloader/Providers/Pixiv/BookmarkUrlProvider.js:31-33 | a bookmark-list provider's id depends only on its user id and tells user ids apart |
| Providers.UrlOptionsOverlay | src/main/modules/Downloader/Providers/Pixiv/BookmarkUrlProvider.js:44-48 | the options keep every caller option except the user id and visibility, which come from the context; the visibility is never empty |
| Providers.UrlDownloaderKeepsProvider | src/main/modules/Downloader/Providers/Pixiv/BookmarkUrlProvider.js:40-51 | the downloader is created with the provider's URL and id whatever the caller's options |
| Providers.DefaultsAreFirstPublicPage | src/main/modules/Downloader/Providers/Pixiv/BookmarkProvider.js:17-22 | the defaults are visibility `show` and page 1, so offset 0 |
| Providers.CreatedBookmarkProvider | src/main/modules/Downloader/Providers/Pixiv/BookmarkProvider.js:28-35 | the provider always gets the first page's URL whatever `pages` says, and keeps the defaulted visibility and page count as context |
| Providers.BookmarkDownloaderForwards | src/main/modules/Downloader/Providers/Pixiv/BookmarkProvider.js:42-49 | the downloader gets the provider's URL and id and exactly the caller's options |
| Providers.BookmarkDownloadsShareOneId | src/main/modules/Downloader/Providers/Pixiv/BookmarkProvider.js:9-11 | every bookmark provider of one name has the same id, so a second of its downloaders leaves the pool unchanged |
| Providers.ProviderIdsDistinct | src/main/modules/Downloader/Providers/Pixiv/BookmarkProvider.js:9-11 | for one provider name the three kinds of bookmark provider never share an id |
| BookmarkCrawl.ItemsOnlyFromGoodResponse | src/main/modules/Downloader/WorkDownloader/Pixiv/BookmarkUrlDownloader.js:129-139 | `getItems` yields a list exactly for a parsed, error-free response with `body.works`, and then that list |
| BookmarkCrawl.UserPageRequestUrl | src/main/modules/Downloader/WorkDownloader/Pixiv/BookmarkUrlDownloader.js:58-63 | the list downloader's request for a page goes to that user's bookmark URL with offset (page-1)*48 and the visibility, `show` by default |
| BookmarkCrawl.PageDownloaderRequestUrl | src/main/modules/Downloader/WorkDownloader/Pixiv/BookmarkPageDownloader.js:55-60 | the page downloader requests the signed-in user's bookmark URL for its page and visibility |
| BookmarkCrawl.UserPagesDistinct | src/main/modules/Downloader/WorkDownloader/Pixiv/BookmarkUrlDownloader.js:58-63 | for one user and visibility, different pages are requested at different URLs |
| BookmarkCrawl.UrlDownloaderRequestsContextUser | src/main/modules/Downloader/WorkDownloader/Pixiv/BookmarkUrlDownloader.js:83 | the list downloader created by the bookmark-list provider requests the context's user with the provider's visibility |
| BookmarkCrawl.PageDownloaderRequestsProviderUrl | src/main/modules/Downloader/WorkDownloader/Pixiv/BookmarkPageDownloader.js:139 | the page downloader requests exactly the URL its provider was created with |
| BookmarkCrawl.MarkOwnKeys | src/main/modules/Downloader/WorkDownloader/Pixiv/BookmarkUrlDownloader.js:198-206 | the parent changing its own state changes no key of the pool |
| BookmarkCrawl.FinishedLeaves | src/main/modules/Downloader/WorkDownloader/Pixiv/BookmarkUrlDownloader.js:202-203 | a finished parent that deletes its own id leaves the pool, and the delete reports no error |
| BookmarkCrawl.NumericWorkIsArtwork | src/main/modules/Downloader/WorkDownloader/Pixiv/BookmarkUrlDownloader.js:151-155 | a numeric work id goes to the general artwork provider with the id as its context |
| BookmarkCrawl.ChainAllSpec | src/main/modules/Downloader/WorkDownloader/Pixiv/BookmarkPageDownloader.js:94-118 | the chain offers the works in order as the list downloader would, up to the first work whose lookup or creation fails, after which no work is offered |
| BookmarkCrawl.ChainAfterFailure | src/main/modules/Downloader/WorkDownloader/Pixiv/BookmarkPageDownloader.js:94-118 | once the chain has failed, the later works change nothing |
| BookmarkCrawl.TurnWithin | src/main/modules/Downloader/WorkDownloader/Pixiv/BookmarkUrlDownloader.js:182-191 | a turn within a listing that ends at a known page goes on only while it stays within it |
| BookmarkCrawl.WalkedFollowsPages | src/main/modules/Downloader/WorkDownloader/Pixiv/BookmarkUrlDownloader.js:181-192 | the loop ends with the walk's error, page and more-pages flag |
| BookmarkCrawl.WalkedRequests | src/main/modules/Downloader/WorkDownloader/Pixiv/BookmarkUrlDownloader.js:181-192 | the loop sends one user-page request per page the walk requests, for consecutive pages from where it started |
| BookmarkCrawl.PagesEnd | src/main/modules/Downloader/WorkDownloader/Pixiv/BookmarkUrlDownloader.js:181-192 | started within a listing, the walk ends with an error or with no more pages, having requested pages only up to the listing's end |
| BookmarkCrawl.ListingRequests | src/main/modules/Downloader/WorkDownloader/Pixiv/BookmarkUrlDownloader.js:145-192 | served a listing of n works, the walk from page 1 makes exactly n/48+1 requests, never fails, and ends one past the last page with no more pages |
| BookmarkDownloaders.Become | src/main/modules/Downloader/WorkDownloader/Pixiv/BookmarkUrlDownloader.js:198-206 | the parent changes its own state; in the pool only its own entry changes |
| BookmarkDownloaders.ProviderOf | src/main/modules/Downloader/WorkDownloader/Pixiv/BookmarkUrlDownloader.js:151-155 | the provider of a work's artwork URL is the adapter's lookup |
| BookmarkDownloaders.NewChild | src/main/modules/Downloader/WorkDownloader/Pixiv/BookmarkUrlDownloader.js:151-162 | a new task shaped as the provider says, created with the parent's options, or the error of the lookup or the creation |
| BookmarkDownloaders.OfferChild | src/main/modules/Downloader/WorkDownloader/Pixiv/BookmarkUrlDownloader.js:150-166 | a work with a falsy id is skipped; otherwise its downloader is looked up, created and added, and a failure adds nothing |
| BookmarkDownloaders.OfferEach | src/main/modules/Downloader/WorkDownloader/Pixiv/BookmarkUrlDownloader.js:148-169 | the pool afterwards is the works offered in order, each failure skipped |
| BookmarkDownloaders.ChainOne | src/main/modules/Downloader/WorkDownloader/Pixiv/BookmarkPageDownloader.js:95-117 | one work of the chain is offered, and a lookup or creation failure ends the chain |
| BookmarkDownloaders.ChainEach | src/main/modules/Downloader/WorkDownloader/Pixiv/BookmarkPageDownloader.js:94-118 | the chain's pool, error and count of 2-second pauses are those of the chain rule: each work after the previous one up to the first failure, a pause after every work handled but the last |
| BookmarkDownloaders.Fail | src/main/modules/Downloader/WorkDownloader/Pixiv/BookmarkUrlDownloader.js:205-207 | the parent records the error and stays in the pool, and the manager's error listener then offers the pending tasks a start (`downloadNext`) |
| BookmarkDownloaders.HandleSettled | src/main/modules/Downloader/DownloadManager.js:294-309 | the error and finish listeners: the pool becomes the `downloadNext` rule applied to it, and the settled parent keeps its state and message |
| BookmarkCrawl.AfterError | src/main/modules/Downloader/DownloadManager.js:294-298 | a failed parent is marked `error` with its keys kept, and `downloadNext` follows |
| BookmarkCrawl.AfterFinish | src/main/modules/Downloader/DownloadManager.js:304-310 | a finished parent, after the finish listener's `downloadNext`, deletes its own id and is gone |
| BookmarkCrawl.FinishedLeavesAfterNext | src/main/modules/Downloader/WorkDownloader/Pixiv/BookmarkUrlDownloader.js:200-204 | `downloadNext` leaves the finished parent finished, so its self-delete still removes it without error |
| BookmarkDownloaders.Leave | src/main/modules/Downloader/WorkDownloader/Pixiv/BookmarkUrlDownloader.js:200-204 | the parent finishes, the finish listener runs `downloadNext`, and the parent deletes its own id: it leaves the pool, recycled and stopped |
| BookmarkDownloaders.BookmarkUrlDownloader.constructor | src/main/modules/Downloader/WorkDownloader/Pixiv/BookmarkUrlDownloader.js:12-34 | a new downloader starts at page 1 with more pages to come, over a fresh pending task |
| BookmarkDownloaders.BookmarkUrlDownloader.CreateDownloader | src/main/modules/Downloader/WorkDownloader/Pixiv/BookmarkUrlDownloader.js:41-50 | the downloader takes the provider's id, the URL, the save folder and the options |
| BookmarkDownloaders.BookmarkUrlDownloader.AddArtworkDownloaders | src/main/modules/Downloader/WorkDownloader/Pixiv/BookmarkUrlDownloader.js:145-175 | every work of the page is offered in order, and more pages remain exactly when the page held 48 works |
| BookmarkDownloaders.BookmarkUrlDownloader.VisitPage | src/main/modules/Downloader/WorkDownloader/Pixiv/BookmarkUrlDownloader.js:182-191 | one turn: the task becomes processing and the current page is requested; a failure is returned, a page has its works offered and the walk moves on |
| BookmarkDownloaders.BookmarkUrlDownloader.RequestPage | src/main/modules/Downloader/WorkDownloader/Pixiv/BookmarkUrlDownloader.js:184-186 | the request, then the works offered and the page advanced when it succeeds |
| BookmarkDownloaders.BookmarkUrlDownloader.ProcessAllPages | src/main/modules/Downloader/WorkDownloader/Pixiv/BookmarkUrlDownloader.js:181-192 | the pool, requests, page and error afterwards are those of the page walk |
| BookmarkDownloaders.BookmarkUrlDownloader.Start | src/main/modules/Downloader/WorkDownloader/Pixiv/BookmarkUrlDownloader.js:197-208 | on success the task finishes and deletes its own id, so it leaves the pool; on a failed request it records the error and stays |
| BookmarkDownloaders.BookmarkPageDownloader.constructor | src/main/modules/Downloader/WorkDownloader/Pixiv/BookmarkPageDownloader.js:8-25 | a new downloader has no stored response, over a fresh pending task |
| BookmarkDownloaders.BookmarkPageDownloader.CreateDownloader | src/main/modules/Downloader/WorkDownloader/Pixiv/BookmarkPageDownloader.js:32-41 | the downloader takes the provider's id, the URL, the save folder and the options |
| BookmarkDownloaders.BookmarkPageDownloader.SetResponseBody | src/main/modules/Downloader/WorkDownloader/Pixiv/BookmarkPageDownloader.js:47-49 | only the stored response changes |
| BookmarkDownloaders.BookmarkPageDownloader.CanDownloadMeans | src/main/modules/Downloader/WorkDownloader/Pixiv/BookmarkPageDownloader.js:126-129 | with a stored response, a downloader that cannot download adds and fails nothing; one that can handles at least one work or fails on its first |
| BookmarkDownloaders.BookmarkPageDownloader.RequestBookmarkContent | src/main/modules/Downloader/WorkDownloader/Pixiv/BookmarkPageDownloader.js:134-175 | the task becomes processing and the page named by the options is requested |
| BookmarkDownloaders.BookmarkPageDownloader.CreateGeneralArtworkDownloaders | src/main/modules/Downloader/WorkDownloader/Pixiv/BookmarkPageDownloader.js:88-121 | the pool, error and pauses are those of the chain over the page's works, or nothing for a page without works |
| BookmarkDownloaders.BookmarkPageDownloader.Content | src/main/modules/Downloader/WorkDownloader/Pixiv/BookmarkPageDownloader.js:183-192 | the chain runs over the stored response, or over the requested page when none is stored |
| BookmarkDownloaders.BookmarkPageDownloader.Run | src/main/modules/Downloader/WorkDownloader/Pixiv/BookmarkPageDownloader.js:184-198 | after the chain the task finishes and leaves the pool, or records the error and stays |
| BookmarkDownloaders.BookmarkPageDownloader.Start | src/main/modules/Downloader/WorkDownloader/Pixiv/BookmarkPageDownloader.js:180-199 | `start` runs the chain over the stored or requested works, then finishes and leaves the pool, or records the error |
| FormatNames.FirstDefined | src/main/modules/Utils/FormatName.js:61-69 | the value of the first possible key the context defines, or the text `undefined` when it defines none |
| FormatNames.LookUpKeys | src/main/modules/Utils/FormatName.js:63-69 | the loop over the possible keys returns the first defined value, as the lookup rule says |
| FormatNames.GetContextMetaValue | src/main/modules/Utils/FormatName.js:31-70 | an unknown key gives nothing; a known key gives its first defined context value or `undefined` |
| FormatNames.MetaOf | src/main/modules/Utils/FormatName.js:33-56 | the meta table: the context keys each placeholder key stands for |
| FormatNames.ReplaceStringPlain | src/main/modules/Utils/FormatName.js:86 | with no `$` in the value, `replace` substitutes the first occurrence of the placeholder and nothing else |
| FormatNames.DollarAmpersandKeepsMatch | src/main/modules/Utils/FormatName.js:86 | a value holding `$&` re-inserts the placeholder it replaces |
| FormatNames.ReplaceString | src/main/modules/Utils/FormatName.js:86 | `replace` with a string pattern: the first occurrence replaced by the value with its `$` patterns expanded |
| FormatNames.PlaceholdersFrom | src/main/modules/Utils/FormatName.js:77 | every match of the global search is a placeholder, found leftmost first |
| FormatNames.NoPercentNoPlaceholders | src/main/modules/Utils/FormatName.js:77 | a template without `%` has no placeholder |
| FormatNames.LetterPlaceholders | src/main/modules/Utils/FormatName.js:77 | the matches of `/%[a-z]+%/ig` as written, leftmost first; every match is a placeholder whose key holds letters only |
| FormatNames.Placeholders | src/main/modules/Utils/FormatName.js:77 | the matches of the corrected `/%[a-z_]+%/ig` (the FormatName.js:77 finding), leftmost first; every match is a placeholder whose key holds letters and `_` |
| FormatNames.UnderscoreKeyMissed | src/main/modules/Utils/FormatName.js:77 | as written, a placeholder whose key holds `_` is not matched |
| FormatNames.UnderscoreKeysMissed | src/main/modules/Utils/FormatName.js:33-77 | as written, `%user_name%`, `%user_id%` and `%page_num%` are never found |
| FormatNames.TableKeyFound | src/main/modules/Utils/FormatName.js:77 | with `_` allowed in the pattern, a key of letters and `_` is found whole |
| FormatNames.TableKeysFound | src/main/modules/Utils/FormatName.js:33-77 | with `_` allowed, every key of the meta table is found whole |
| FormatNames.UnknownKeyVerbatim | src/main/modules/Utils/FormatName.js:57-85 | a placeholder whose key is not in the table stays verbatim |
| FormatNames.KnownKeyValue | src/main/modules/Utils/FormatName.js:63-87 | a known key is written as its first defined context value, or as `undefined` |
| FormatNames.SubstitutePlaceholders | src/main/modules/Utils/FormatName.js:80-89 | the loop over the matches gives the substitution rule's name |
| FormatNames.FailureSticks | src/main/modules/Utils/FormatName.js:81-88 | a failure on some placeholders is the failure of them all |
| FormatNames.SubstituteAll | src/main/modules/Utils/FormatName.js:80-89 | each match replaced in order by its value, or the first lookup error |
| FormatNames.ReplaceCharShape | src/main/modules/Utils/FormatName.js:101 | replacing the first occurrence of a character by `_` keeps the length and changes only that one position |
| FormatNames.ReplaceCharCount | src/main/modules/Utils/FormatName.js:101 | such a replacement removes one occurrence, when there is one, and changes no other character's count but `_`'s |
| FormatNames.SanitizeCounts | src/main/modules/Utils/FormatName.js:97-102 | each illegal character loses as many occurrences as the merged list names it, no more; the length is kept and every changed character was illegal and is now `_` |
| FormatNames.IllegalCounts | src/main/modules/Utils/FormatName.js:4-27 | `/` is on all three lists, so up to three are replaced; `<` only once |
| FormatNames.SanitizeClears | src/main/modules/Utils/FormatName.js:97-102 | a name holding no illegal character more often than the list names it comes out with none |
| FormatNames.SanitizeWith | src/main/modules/Utils/FormatName.js:97-102 | the first occurrence of each listed character replaced by `_`, in list order |
| FormatNames.SecondOccurrenceKept | src/main/modules/Utils/FormatName.js:101 | only the first `<` is replaced: of `a<b<c` the second stays |
| FormatNames.Sanitize | src/main/modules/Utils/FormatName.js:100-102 | the loop gives the illegal-character pass |
| FormatNames.Truncate | src/main/modules/Utils/FormatName.js:104 | the name is a prefix of the input of at most 200 UTF-16 code units, the whole input when it fits, and otherwise at least 199 units long |
| FormatNames.TakeUnits | src/main/modules/Utils/FormatName.js:104 | the longest prefix that fits in the budget of UTF-16 code units: it fits, it is the whole input when that fits, and the next character would not fit |
| FormatNames.FormatAsWritten | src/main/modules/Utils/FormatName.js:72 | as written every call throws, because `fallback` is not declared |
| FormatNames.Format | src/main/modules/Utils/FormatName.js:2-107 | with the fallback declared and `_` admitted in keys (the FormatName.js:72 and :77 findings), the name is the substituted, cleaned and truncated template, or the cleaned fallback for an empty one, and has at most 200 UTF-16 code units |
| FormatNames.FormatSpec | src/main/modules/Utils/FormatName.js:72-106 | the name of a template: substituted with `_` admitted in keys (or the fallback), cleaned, cut |
| FormatNames.FormatPlain | src/main/modules/Utils/FormatName.js:74-106 | a template without `%` is only cleaned and cut; an empty one gives the cleaned fallback |
| Settings.CollapseHead | src/main/modules/SettingStorage.js:234-236 | the collapsed folder starts with `/` exactly when the folder does |
| Settings.CollapseSlashesSpec | src/main/modules/SettingStorage.js:234-236 | the rebuilt folder has no `//`, keeps every other character in order, holds `/` exactly when the folder does, and rebuilding again changes nothing |
| Settings.CollapseSlashes | src/main/modules/SettingStorage.js:234-236 | the download folder with every run of `/` made one |
| Settings.StripSlashesSpec | src/main/modules/SettingStorage.js:251 | at most one `/` is removed at each end, and nothing else |
| Settings.StripSlashes | src/main/modules/SettingStorage.js:251 | the rule with one leading and one trailing `/` removed |
| Settings.AppendedPageNum | src/main/modules/SettingStorage.js:257-259 | a rule with `p%page_num%` appended holds `%page_num%` |
| Settings.RuleOrIdHasPercent | src/main/modules/SettingStorage.js:253-255 | the rule after the `%id%` fallback always holds `%` |
| Settings.WorkRenameRuleSpec | src/main/modules/SettingStorage.js:250-262 | a rebuilt rename rule always holds `%`; the illustration and manga rules hold `%page_num%`; the ugoira rule never gets it appended |
| Settings.WorkImageRenameRuleSpec | src/main/modules/SettingStorage.js:272-284 | a rebuilt image rename rule always holds `%page_num%` |
| Settings.ImageRuleKept | src/main/modules/SettingStorage.js:272-284 | a rule that already holds `%page_num%` only loses its end slashes |
| Settings.Rebuild | src/main/modules/SettingStorage.js:191-207 | the value a known key is set to: the folder collapsed, a rename rule cleaned and rebuilt (a TypeError with no cleaner), any other value as given |
| Settings.KeptErrorIsTypeError | src/main/modules/SettingStorage.js:191-207 | every error the rebuild loop ends with is a TypeError |
| Settings.SetSettingsThrowsWithoutCleaner | src/main/modules/SettingStorage.js:250-273 | as written, with no `replaceIllegalChars`, an input naming a known rename or image rename rule makes `setSettings` throw a TypeError |
| Settings.KeptSpec | src/main/modules/SettingStorage.js:191-207 | the kept entries are exactly the known keys of the input, in order, each with its rebuilt value; with no cleaner a rename rule's rebuild throws |
| Settings.Kept | src/main/modules/SettingStorage.js:191-207 | the loop of `setSettings`: the known keys of the input with their rebuilt values, or the first error |
| Settings.AssignOther | src/main/modules/SettingStorage.js:209 | after `Object.assign`, a key no kept entry names is unchanged |
| Settings.AssignKept | src/main/modules/SettingStorage.js:209 | after `Object.assign`, each kept key holds its kept value |
| Settings.Assign | src/main/modules/SettingStorage.js:209 | `Object.assign`: the kept entries written over the settings in order |
| Settings.SetSettingsEffect | src/main/modules/SettingStorage.js:188-224 | after a successful call a known key of the input holds its rebuilt value and every other key keeps its value |
| Settings.SettingStorage.constructor | src/main/modules/SettingStorage.js:126-162 | the settings are the user-data file's when it declares multi-user mode, else the installation file's when it declares single-user mode, each over the defaults, else the defaults |
| Settings.SettingStorage.GetUserMode | src/main/modules/SettingStorage.js:176-182 | single-user mode (2) exactly when `singleUserMode` is truthy, else multi-user mode (1) |
| Settings.SettingStorage.GetSetting | src/main/modules/SettingStorage.js:164-166 | the value of a setting, `undefined` for an unknown key |
| Settings.SettingStorage.SetSettings | src/main/modules/SettingStorage.js:188-224 | the result is the kept entries and the old values of their keys; the settings change on the kept keys only; when a rebuild throws nothing changes |
| Settings.CollectKept | src/main/modules/SettingStorage.js:191-207 | the loop yields the known keys of the input with their rebuilt values, in input order, and their old values; a rebuild that throws makes its error the result |
| Settings.FailureStops | src/main/modules/SettingStorage.js:191-207 | a rebuild that throws ends the whole loop with that error |
| Settings.InitialMode | src/main/modules/SettingStorage.js:126-162 | settings loaded from a file run in the mode of the folder they came from |
| Downloads.LastSegment | src/main/modules/Download.js:86-90 | the part after the last `/` of the path, with no `/` in it |
| Downloads.BaseName | src/main/modules/Download.js:80-94 | the save name, else the path's last segment, else `file` and the time; never empty |
| Downloads.AppendedExt | src/main/modules/Download.js:102 | the name with `.` and the extension appended ends with them |
| Downloads.GetFilenameSpec | src/main/modules/Download.js:79-103 | the file name ends with `.` and the extension, and is the base name or the base name with them appended |
| Downloads.GetFilenameIdempotent | src/main/modules/Download.js:96-100 | a name the function produced comes back unchanged |
| Downloads.NameFromPath | src/main/modules/Download.js:82-90 | with no save name, the name comes from the path's last segment when it has one |
| Downloads.NameFromClock | src/main/modules/Download.js:94 | with no save name and a path ending in `/`, the name is `file` and the time |
| Downloads.AsWrittenKeepsMissingDot | src/main/modules/Download.js:96 | as written the pattern `.` matches any character but a line terminator: `xpng` is kept for `png` and does not end with `.png` |
| Downloads.AsWrittenAgreesOnDottedNames | src/main/modules/Download.js:96-100 | where the name ends with `.` and the extension, both tests agree |
| Downloads.EndsWithExtAsWritten | src/main/modules/Download.js:96 | the extension test as written: the name ends with the extension after one character that is not a line terminator |
| Downloads.EndsWithExt | src/main/modules/Download.js:96 | the extension test as intended: the name ends with `.` and the extension |
| Downloads.GetFilenameAsWritten | src/main/modules/Download.js:79-103 | `getFilename` as written: the base name, with `.` and the extension appended unless the as-written test accepts it |
| Downloads.GetFilename | src/main/modules/Download.js:79-103 | `getFilename` with the intended extension test |
| Plugins.Dirname | src/main/modules/PluginManager.js:160 | the folder of an entry file is a prefix of its path, and `.` for a path without `/` |
| Plugins.Booted | src/main/modules/PluginManager.js:159-164 | the booted plugin's id comes from its folder, its provider name and entry file are the file, its title defaults to the file |
| Plugins.BootedPatternsComeLast | src/main/modules/PluginManager.js:166-169 | a plugin's patterns come after every entry already in the table: links already resolved keep their provider |
| Plugins.PluginManager.constructor | src/main/modules/PluginManager.js:30-57 | an empty, valid registry, before the plugin folder is loaded |
| Plugins.PluginManager.InitalPlugins | src/main/modules/PluginManager.js:84-97 | the scope and the adapter's table are those of the loading rule over the folder's entries; it throws exactly when an entry does not boot, with that entry's error; the registry stays valid |
| Plugins.NewPluginManager | src/main/modules/PluginManager.js:30-97 | a registry exactly when every entry of the plugin folder boots, holding the loading rule's internal scope; otherwise the first failing entry's error, with the patterns of the plugins booted before it left in the adapter's table |
| Plugins.LoadPlugin | src/main/modules/PluginManager.js:89-117 | a booting entry gives its plugin and appends its patterns to the table; any other entry gives its error (no `main.js`, a failing `require`, or the `id` of `undefined` after a throwing factory) and the table is unchanged |
| Plugins.BootAllFailure | src/main/modules/PluginManager.js:84-97 | loading fails exactly when some entry does not boot, with the first such entry's error, after the entries before it |
| Plugins.BootAllStaysFailed | src/main/modules/PluginManager.js:88-95 | once an entry has thrown, the later entries change nothing |
| Plugins.BootAllRegisters | src/main/modules/PluginManager.js:88-95 | when every entry boots, each booted plugin is stored under its own id, each id with the last plugin booted under it, and no other id |
| Plugins.BootAllTable | src/main/modules/PluginManager.js:166-169 | when every entry boots, the adapter's table gains one entry per plugin, in folder order, after the ones it had |
| Plugins.FirstUnbooted | src/main/modules/PluginManager.js:88-95 | the first entry that does not boot, every entry before it booting |
| Plugins.PluginManager.GetPlugin | src/main/modules/PluginManager.js:229-237 | the internal scope first, then the external one, none for an unknown id |
| Plugins.PluginManager.GetPluginKeyed | src/main/modules/PluginManager.js:229-237 | in a valid registry a plugin found under an id has that id |
| Plugins.PluginManager.IsExternalPlugin | src/main/modules/PluginManager.js:204-206 | a plugin is external when its id is in the external scope |
| Plugins.PluginManager.UpdatePluginInstance | src/main/modules/PluginManager.js:309-321 | a registered id stays in its scope; a new id goes to the scope named; any other scope changes nothing; a plugin stored under its own id keeps the registry valid |
| Plugins.PluginManager.RemovePlugin | src/main/modules/PluginManager.js:269-284 | an internal plugin leaves its scope and its folder is deleted, an external one leaves its scope; an unknown id throws; the registry stays valid |
| Plugins.PluginManager.ReloadPlugin | src/main/modules/PluginManager.js:244-262 | a plugin found under a string id is booted again from its entry file and replaces itself in its scope; otherwise the call throws; the registry stays valid |
| Plugins.RegisterOne | src/main/modules/PluginManager.js:88-95 | loading one more plugin keeps each id stored with the last plugin loaded under it |
| Plugins.BootPlugin | src/main/modules/PluginManager.js:139-198 | a throwing factory gives nothing; an instance gets its id, entry file and title, and its patterns join the end of the table |
| Plugins.CreatePlugin | src/main/modules/PluginManager.js:123-137 | the exported factory of the file, booted |
| Plugins.UpdateScopesSpec | src/main/modules/PluginManager.js:309-321 | the id lands in one scope only, where the lookup then finds it, and every other id is untouched |
| Plugins.UpdateScopes | src/main/modules/PluginManager.js:309-321 | `updatePluginInstance` on the two scopes |
| Plugins.ReloadKeepsIdentity | src/main/modules/PluginManager.js:244-262 | reloading keeps a plugin's id, entry file and scope |
| Plugins.RemovedIsGone | src/main/modules/PluginManager.js:269-284 | a removed id is in neither scope |
| BookmarkExtractor.SecondField | bookmark-url-extractor.js:69 | `split(c)[1]` holds no separator |
| BookmarkExtractor.OutputArg | bookmark-url-extractor.js:68 | the argument found starts with `--output=` and no earlier argument does; none when no argument does |
| BookmarkExtractor.ParseLaunchSpec | bookmark-url-extractor.js:41-81 | help wins over every other check; a run has a pixiv URL first and a known output mode; a pixiv URL without `--output=` runs to the console |
| BookmarkExtractor.ParseLaunch | bookmark-url-extractor.js:41-81 | the command line read as help, a refusal, or a run with its URL and output choice |
| BookmarkExtractor.OutputFileSelected | bookmark-url-extractor.js:68-69 | `--output=file` selects the file, whatever follows a second `=` |
| BookmarkExtractor.OutputArgLast | bookmark-url-extractor.js:68 | the first `--output=` argument decides, whatever follows it |
| BookmarkExtractor.ExtractUserIdOf | bookmark-url-extractor.js:86-89 | in a bookmark URL where no earlier `users/` is followed by a digit, the user id is the whole run of digits after `users/` |
| BookmarkExtractor.ExtractUserId | bookmark-url-extractor.js:86-89 | the run of digits after the first `users/` that a digit follows, else nothing |
| BookmarkExtractor.GetCookiesFromSession | bookmark-url-extractor.js:113-118 | the loop builds the cookie header the header rule gives |
| BookmarkExtractor.CookieHeaderSpec | bookmark-url-extractor.js:105-118 | with cookies the header is not empty and ends with `;`; without cookies it is empty; when the first cookie's name does not open with white space, the header is the `name=value; ` pairs less their final space, so it starts with the first cookie's `name=value;` |
| BookmarkExtractor.HeaderIsPairsLessSpace | bookmark-url-extractor.js:105-118 | trimming the joined pairs removes only their final space when the first name opens with no white space |
| BookmarkExtractor.PairsStartWithFirst | bookmark-url-extractor.js:105-118 | the joined pairs open with the first cookie's `name=value; ` |
| BookmarkExtractor.CookieHeader | bookmark-url-extractor.js:94-118 | the session cookies as `name=value; ` pairs, trimmed; empty with no cookies or when reading them throws |
| BookmarkExtractor.TrimEndsAtSemicolon | bookmark-url-extractor.js:115-118 | trimming a header that ends in `; ` leaves one that ends with `;` |
| BookmarkExtractor.ApiPathInjective | bookmark-url-extractor.js:131 | for one user, different offsets are requested at different paths |
| BookmarkExtractor.UrlsOf | bookmark-url-extractor.js:203-207 | at most one URL per work |
| BookmarkExtractor.ExtractArtworkUrls | bookmark-url-extractor.js:170-229 | the loop requests offsets 0, 48, 96, ... in order and returns the URLs of the pages it gathered, as the extraction rule says |
| BookmarkExtractor.Advance | bookmark-url-extractor.js:178-226 | one turn keeps the loop's progress invariant |
| BookmarkExtractor.FetchBookmarks | bookmark-url-extractor.js:179-225 | a failed request, an error answer or an empty page ends the loop with nothing; a short page ends it after its URLs; a full page goes on |
| BookmarkExtractor.OffsetsSpec | bookmark-url-extractor.js:211 | request i asks for offset 48*i |
| BookmarkExtractor.ListingExtracted | bookmark-url-extractor.js:170-229 | served a listing of n works, the extractor sends n/48+1 requests and returns the URL of every work with an id, in listing order |
| BookmarkExtractor.ExtractFrom | bookmark-url-extractor.js:170-229 | the extraction loop from request n: each answer's URLs, until an answer ends it |
| BookmarkExtractor.ExtractStep | bookmark-url-extractor.js:196-216 | a full page adds its URLs to the rest of the loop; a short page ends it |
| BookmarkExtractor.FirstFailureGathersNothing | bookmark-url-extractor.js:182-225 | a failure on the first request ends the run with no URL after one request |
| BookmarkExtractor.UrlsAreArtworkPages | bookmark-url-extractor.js:203-207 | every gathered URL is the artwork page of a work with a non-empty id |
| BookmarkExtractor.ExitCodeSpec | bookmark-url-extractor.js:234-290 | the script fails exactly for a refused command line, a URL without user id, no cookies, or, in file mode, a failed write of the URLs it found |
| BookmarkExtractor.ExitCode | bookmark-url-extractor.js:234-290 | the exit code of `main` for the command line, the cookies, the URLs gathered (none exits 0 before any output) and whether the file write succeeded |
| TextLines.Lines | cpp-downloader/src/http_client.cpp:30 | the lines `getline` reads hold no newline |
| TextLines.LinesRoundTrip | cpp-downloader/src/http_client.cpp:30 | writing the lines back with a newline after each gives the file, with a final newline added when it had none |
| TextLines.UnlinesRoundTrip | cpp-downloader/src/http_client.cpp:30 | reading back lines written one per newline gives those lines |
| TextLines.Trimmed | cpp-downloader/src/http_client.cpp:32-33 | a trimmed line is empty or starts and ends with a character other than space, tab, carriage return or newline |
| TextLines.TrimmedIsFixed | cpp-downloader/src/http_client.cpp:32-33 | trimming a trimmed line changes nothing |
| HttpClients.CookiePiece | cpp-downloader/src/http_client.cpp:41-44 | a kept line goes into the header followed by `; `, unless it already ends with `;`; either way the header piece is closed |
| HttpClients.CookieStringEmpty | cpp-downloader/src/http_client.cpp:36-50 | the header is empty exactly when the file has no content line |
| HttpClients.CookieStringClosed | cpp-downloader/src/http_client.cpp:41-44 | a non-empty header ends with `;` or `; ` |
| HttpClients.CookieStringAppend | cpp-downloader/src/http_client.cpp:30-45 | a line appended to the file adds its piece at the end of the header, or nothing for a blank or comment line |
| HttpClients.HttpClient.constructor | cpp-downloader/src/http_client.cpp:8-11 | a new client has no cookies |
| HttpClients.HttpClient.SetCookiesFromFile | cpp-downloader/src/http_client.cpp:20-54 | an unopenable file fails and leaves the cookies; otherwise the cookies are rebuilt from the file's content lines and the call succeeds exactly when they are not empty |
| HttpClients.AddLine | cpp-downloader/src/http_client.cpp:31-44 | one turn of the loop adds the trimmed line's piece, or nothing for a blank or comment line |
| HttpClients.CookieLoadFails | cpp-downloader/src/http_client.cpp:20-54 | loading fails exactly for an unopenable file or one without a content line |
| HttpClients.WriteCallback | cpp-downloader/src/http_client.cpp:56-61 | the bytes are appended to the buffer and all of them reported taken, so libcurl goes on |
| HttpClients.FileWriteCallback | cpp-downloader/src/http_client.cpp:67-72 | the count reported never exceeds the bytes given |
| HttpClients.FileWriteContinues | cpp-downloader/src/http_client.cpp:67-72 | a file download goes on exactly while the stream stays good, or when there was nothing to write |
| ArgParsing.Scan | cpp-downloader/src/arg_parser.cpp:9-51 | each argument is one token, and a value option with a following argument takes it as its value and moves two places |
| ArgParsing.Tokens | cpp-downloader/src/arg_parser.cpp:8-52 | at most one token per remaining argument |
| ArgParsing.Apply | cpp-downloader/src/arg_parser.cpp:11-51 | the effect of one token on the arguments |
| ArgParsing.Parsed | cpp-downloader/src/arg_parser.cpp:5-55 | the arguments the tokens of argv record over the defaults |
| ArgParsing.Parse | cpp-downloader/src/arg_parser.cpp:5-55 | the loop's result is the arguments the tokens of argv record over the defaults |
| ArgParsing.NoArguments | cpp-downloader/src/arg_parser.cpp:5-55 | without arguments the defaults stand |
| ArgParsing.OtherTokensKeepDir | cpp-downloader/src/arg_parser.cpp:11-51 | only the tokens that set a field change it |
| ArgParsing.LastDownloadDirWins | cpp-downloader/src/arg_parser.cpp:20-27 | the download directory is the value of the last `-d`, or the default when there is none |
| ArgParsing.HelpSticks | cpp-downloader/src/arg_parser.cpp:8-52 | once help is asked for it stays asked for |
| ArgParsing.HelpIff | cpp-downloader/src/arg_parser.cpp:8-52 | help is shown exactly when an argument asks for it, lacks its value, is unknown or is a second bare argument |
| ArgParsing.SecondBareRefused | cpp-downloader/src/arg_parser.cpp:44-51 | after a non-empty bare argument set the input file, with no `-i` between, a later bare argument asks for help |
| ArgParsing.InputKept | cpp-downloader/src/arg_parser.cpp:44-47 | without `-i`, a set input file stays set, or help is already asked for |
| ArgParsing.InputOptionOverrides | cpp-downloader/src/arg_parser.cpp:36-43 | the last `-i` value is the input file, whatever bare arguments follow when it is non-empty |
| ArgParsing.InputUnchanged | cpp-downloader/src/arg_parser.cpp:36-47 | a non-empty input file survives every token but `-i` |
| PixivDownloaders.KeepUrl | cpp-downloader/src/pixiv_downloader.cpp:44-57 | one turn keeps the trimmed line when it is a content line mentioning `pixiv.net` |
| PixivDownloaders.ReadUrlsFromFile | cpp-downloader/src/pixiv_downloader.cpp:34-61 | no URLs from an unopenable file; otherwise the URL lines of the file, in order |
| PixivDownloaders.UrlLinesSpec | cpp-downloader/src/pixiv_downloader.cpp:43-58 | the URLs read are exactly the trimmed URL lines: trimmed, not blank, not a comment, mentioning `pixiv.net` |
| PixivDownloaders.UrlLinesAppend | cpp-downloader/src/pixiv_downloader.cpp:56 | a URL line added to the file adds its URL at the end |
| PixivDownloaders.ExtractArtworkIdSpec | cpp-downloader/src/pixiv_downloader.cpp:63-73 | the id is empty exactly when no `artworks/` is followed by a digit, and is otherwise all digits |
| PixivDownloaders.ExtractArtworkIdOf | cpp-downloader/src/pixiv_downloader.cpp:65-69 | in an artwork URL where no earlier `artworks/` is followed by a digit, the id is the whole run of digits after `artworks/` |
| PixivDownloaders.ArtworkUrlId | cpp-downloader/src/pixiv_downloader.cpp:64-69 | the canonical artwork URL gives its id back |
| PixivDownloaders.ExtractArtworkId | cpp-downloader/src/pixiv_downloader.cpp:63-73 | the run of digits after the first `artworks/` that a digit follows, else the empty id |
| PixivDownloaders.Sanitized | cpp-downloader/src/pixiv_downloader.cpp:85-95 | a sanitised name has the same length as the name |
| PixivDownloaders.SanitizeFilename | cpp-downloader/src/pixiv_downloader.cpp:85-95 | the in-place loop gives the sanitised name |
| PixivDownloaders.SanitizedSpec | cpp-downloader/src/pixiv_downloader.cpp:85-95 | sanitising keeps the length, turns exactly the invalid characters into `_`, leaves none behind, and is idempotent |
| PixivDownloaders.ImageFilenameSpec | cpp-downloader/src/pixiv_downloader.cpp:184-187 | with a `/` in the image URL the name is the text after its last `/` and holds no `/`; without one it is `{id}_{i}.jpg` |
| PixivDownloaders.ImagePathInDir | cpp-downloader/src/pixiv_downloader.cpp:184-190 | every image is saved directly inside the download directory |
| PixivDownloaders.ImageFilename | cpp-downloader/src/pixiv_downloader.cpp:184-187 | the text after the last `/` of the image URL, or `{id}_{i}.jpg` without one |
| PixivDownloaders.RecordedPathAsWritten | cpp-downloader/src/pixiv_downloader.cpp:204-207 | the recorded path as written: the sanitised text after `find_last_of('/') + 1` of the first URL |
| PixivDownloaders.RecordedPath | cpp-downloader/src/pixiv_downloader.cpp:184-190 | the intended recorded path: the path image 0 is saved to |
| PixivDownloaders.RecordedPathMismatch | cpp-downloader/src/pixiv_downloader.cpp:204-207 | as written, for an image URL without `/` the recorded path is not where the image went |
| PixivDownloaders.RecordedPathAgrees | cpp-downloader/src/pixiv_downloader.cpp:184-207 | the recorded path as written and the path the first image is saved to agree whenever the first URL has a `/` |
| PixivDownloaders.RecordedPathIsSaved | cpp-downloader/src/pixiv_downloader.cpp:184-207 | the intended recorded path is the path the first image is saved to |
| PixivDownloaders.AttemptsUpTo | cpp-downloader/src/pixiv_downloader.cpp:180-201 | exactly n downloads for the first n images |
| PixivDownloaders.Attempts | cpp-downloader/src/pixiv_downloader.cpp:180-201 | exactly one download per image |
| PixivDownloaders.AttemptsSpec | cpp-downloader/src/pixiv_downloader.cpp:180-201 | image i is downloaded from its URL to its own path, in the order of the URLs |
| PixivDownloaders.ArtworkOutcomeSpec | cpp-downloader/src/pixiv_downloader.cpp:152-212 | the database only grows, by the id alone and only on success; nothing is downloaded for a recorded id unless forced; a success records the path built from the first URL's last segment, which is the path the first image was saved to whenever that URL has a `/` |
| PixivDownloaders.ArtworkOutcome | cpp-downloader/src/pixiv_downloader.cpp:152-212 | one artwork: skipped when recorded and not forced, else every image tried in order and, on success, the id recorded with the as-written path |
| PixivDownloaders.CountsCover | cpp-downloader/src/pixiv_downloader.cpp:258-303 | the four counts add up to the number of URLs; none failed exactly when the invalid and failed counts are zero |
| PixivDownloaders.TallyStep | cpp-downloader/src/pixiv_downloader.cpp:262-293 | counting one more URL keeps the counters right |
| PixivDownloaders.FitStep | cpp-downloader/src/pixiv_downloader.cpp:265-282 | a status that fits the database as the run has left it extends the fitting statuses, and a saved one adds its id to the saved ids |
| PixivDownloaders.SavedIdsHas | cpp-downloader/src/pixiv_downloader.cpp:278-279 | a URL counted as saved leaves its id among the ids the run has recorded |
| PixivDownloaders.KeysStep | cpp-downloader/src/pixiv_downloader.cpp:278-279 | a database holding the ids saved so far, plus the id just saved, holds exactly the ids saved one URL later |
| PixivDownloaders.RepeatSkipped | cpp-downloader/src/pixiv_downloader.cpp:272-276 | without `--force`, a URL repeating the artwork an earlier URL of the run saved is skipped |
| PixivDownloaders.UrlStepSpec | cpp-downloader/src/pixiv_downloader.cpp:265-282 | one turn: the status fits the database it was handed, the database gains the id exactly when the URL is saved, and a URL is saved exactly when it has an id that is not skipped and its artwork's download succeeded |
| PixivDownloaders.RunUpToFits | cpp-downloader/src/pixiv_downloader.cpp:262-282 | over the run rule, each status fits the live database and the database ends with the old ids plus those of the saved URLs |
| PixivDownloaders.RunUpToStep | cpp-downloader/src/pixiv_downloader.cpp:262-282 | one more turn appends its status and downloads and hands on its database |
| PixivDownloaders.LoggedStep | cpp-downloader/src/pixiv_downloader.cpp:262-282 | a loop state that has logged the first n turns, followed by turn n, has logged n + 1 turns |
| PixivDownloaders.RunUpToPrefix | cpp-downloader/src/pixiv_downloader.cpp:262-282 | later turns leave the statuses of earlier ones unchanged |
| PixivDownloaders.TurnStatus | cpp-downloader/src/pixiv_downloader.cpp:265-282 | the status of URL j is that of turn j over the database the earlier turns left |
| PixivDownloaders.SavedIffDownloaded | cpp-downloader/src/pixiv_downloader.cpp:265-282 | URL j is counted as saved exactly when it has an id, that id is not skipped against the database as the earlier turns left it, and downloading its artwork succeeded |
| PixivDownloaders.PixivDownloader.constructor | cpp-downloader/src/pixiv_downloader.cpp:21-30 | a downloader for the arguments over a database at `{dir}/downloaded.db` |
| PixivDownloaders.PixivDownloader.DownloadArtwork | cpp-downloader/src/pixiv_downloader.cpp:152-212 | success, database and downloads are those of the artwork outcome rule, with the recorded path as written |
| PixivDownloaders.PixivDownloader.SaveImages | cpp-downloader/src/pixiv_downloader.cpp:179-201 | every image is tried in order, even after one fails, and the result says whether all succeeded |
| PixivDownloaders.PixivDownloader.SaveImage | cpp-downloader/src/pixiv_downloader.cpp:183-200 | one image: one download from its URL to its own path in the download directory, recorded in order, database untouched |
| PixivDownloaders.PixivDownloader.ProcessUrl | cpp-downloader/src/pixiv_downloader.cpp:265-282 | the URL is counted as invalid, skipped, saved or failed |
| PixivDownloaders.PixivDownloader.CountUrl | cpp-downloader/src/pixiv_downloader.cpp:265-282 | the URL is invalid exactly when it has no id and skipped exactly when not forced and its id is in the database at the call; the database gains the id exactly when the URL is saved, and nothing else; status, database and downloads are those of the turn rule `UrlStep` |
| PixivDownloaders.PixivDownloader.ProcessUrls | cpp-downloader/src/pixiv_downloader.cpp:262-293 | statuses, database and downloads are those of the run rule `RunUpTo` over all the URLs; so each status is judged against the database as the earlier turns left it, the counters are the counts of the statuses, and the database ends with exactly the old ids and those of the saved URLs |
| PixivDownloaders.PixivDownloader.Run | cpp-downloader/src/pixiv_downloader.cpp:214-304 | 1 when it gives up before any URL and nothing changes; otherwise statuses, database and downloads are those of the run rule over the URL lines, each status judged against the live database, and the code is 1 exactly when some URL was invalid or failed |
| PixivDownloaders.RunCountsEveryUrl | cpp-downloader/src/pixiv_downloader.cpp:258-303 | every URL is counted once |
| CliMain.RunMain | cpp-downloader/src/main.cpp:5-28 | help wins and exits 0, then the version; a throwing downloader exits 1; otherwise the exit code of `run()`: one status per URL line, those of the run rule from the records the database starts with, and 0 exactly when every URL was saved or skipped |

## Left out

- FormatNames.Truncate: a cut at 200 UTF-16 code units that falls inside a surrogate pair leaves a lone high surrogate in JavaScript; a Dafny string cannot hold one, so the model keeps the pair out and the name is one unit shorter.
- Timers and asynchronous delivery. `setTimeout`, promises and the C++ `sleep` calls are not modelled. Asynchronous completions are taken in order as sequential steps, and the 1 s and 2 s delays are counted or dropped.
- `Schedule.js`. Its behaviour is defined against the local wall clock and `setTimeout`. Its constructor also uses `this` before `super()`, and `delete()` names an undeclared `task`.
- Events and listeners. `emit`, `on` and `removeAllListeners` are not modelled; the `downloadNext` that the manager's error and finish listeners run is modelled where the bookmark downloaders settle (`BookmarkDownloaders.HandleSettled`). The batch operations return the ids they would announce as out-parameters instead.
- The listener bookkeeping of `attachListenersToDownloader` is not modelled; its duplicate guard is never filled in.
- The base `Downloader` class is not part of this model. `stop()` is taken as stop→stopped, refused with `Unstoppable` while the task is stopping or processing. The transient `stopping` state is collapsed into that single step.
- `WorkDownloader.js` declares only the states pending, downloading, error and finish, and empty `start`, `stop` and `destroy` bodies (WorkDownloader.js:12-17, 77-87). It defines none of the helpers the manager and the bookmark downloaders call: `setStart`, `setProcessing`, `setFinish`, `setError`, `setPending`, `reset`, `isStoppable`, `isStopping`, `isDownloading`, `isProcessing` and `willRecycle`. The setters of `Tasks.WorkDownloader`, its `Stop` and the states processing, stopping and stop follow the system's design of the download state machine instead. Nor does it declare the `downloadManager` field that the bookmark downloaders read (BookmarkUrlDownloader.js:158, 203; BookmarkPageDownloader.js:105, 186, 195), and neither `addDownloader` nor `addDownloaders` assigns it. The model therefore passes the download manager to every bookmark-downloader method as an explicit parameter rather than reading an assigned field; the TypeError that an unassigned field would raise on each child `addDownloader` call is not modelled.
- The bookmark downloaders override only `start()`. Their `stop()` is the empty base body in the code; the model applies the stop→stopped rule (`Tasks.WorkDownloader.Stop`) to them instead. The empty `destroy()` is not modelled.
- Network transfer is an oracle. This covers `Request`, `fetchBookmarks`, `Download.download()` and libcurl's `fetch_artwork_info` and `download_file`: each returns data or failure. The request oracle does not look at cookies or headers.
- Header overriders, `openFolder` and `shell.showItemInFolder` are not modelled. They only touch the Electron session or the desktop shell.
- JSON parsing (`JSON.parse`, nlohmann::json in `parse_image_urls`). A parsed response is an `Option` of a small record, and the image-URL list is a function of the response text.
- Regular expressions. The matchers the core uses are written by hand: the adapter patterns, the `artworks/` and `users/` digit extractors, and the `%name%` placeholder scan. No general regex engine is modelled. In `getFilename` the extension is spliced into a `RegExp`, so a `.` inside an extension such as `tar.gz` matches any character there; the model matches the extension literally.
- Persistence.
  - The SQLite wrapper (`database.cpp`) is a map from artwork id to path, and `get_download_count` is left out.
  - File I/O in `SettingStorage`, `PluginManager` and the C++ file readers is replaced by a file's text, or by nothing when it cannot be read.
  - Writing settings back to disk is left out.
- Plugin installation from disk is not modelled: `loadTemporaryPlugin`, `installPlugin` and `uninstallPlugin` copy, delete and `require` files. The registry updates they end in (`updatePluginInstance`, `removePlugin`, `reloadPlugin`) are modelled. `loadPlugin` is modelled on what the folder holds for an entry (no `main.js`, or what `require` of it gives), not on the file system itself.
- md5, `path.join`, `url.parse` and mime lookups are functions given as parameters, or plain concatenation where only `/` joins are involved.
- Floating-point progress and speed: `Download.js` progress handlers and the C++ `progress_callback`.
- The rest of `Download.download()`, which mutates `speed`, `progress` and `saveName` in event handlers. Only `getFilename` is modelled.
- Electron windows (`WindowManager.js`), the GIF encoder worker and the extractor's Electron bootstrapping are not modelled. `process.exit` is an exit code.
- Singletons (`getDefault`, module-level instances) and `singleUserModeSettingChangeHandler` are not modelled. The model builds its objects explicitly.
- The help and version texts of the C++ program are shown only as which text is printed.
- The data-only `default.settings.js` is not modelled beyond the defaults it feeds to the settings store, which are a parameter.
- Declaration-only headers are not modelled: `pixiv_downloader.h`, `http_client.h` and `database.h`.
- `UrlBuilder.AccountUnreadCountUrl` and `UrlBuilder.UserLogoutUrl` are constants with nothing to prove about them.
- BookmarkExtractor.ExtractArtworkUrls assumes the listing stops by a known page `last`: it takes `last` as a ghost parameter and requires the oracle to stop there. A listing that never ends is outside the model.
- BookmarkCrawl: the page crawl likewise takes a ghost last page and requires the oracle to end the listing there.
- Settings.Known: `this.settings[key] !== undefined` is also true for names every object inherits from `Object.prototype` (`toString`, `constructor`, `__proto__`, ...). The model treats those names as unknown keys: `setSettings` drops them and `getSetting` gives `undefined` for them, where the source keeps and assigns them (and `__proto__` would replace the settings' prototype).
- Kept: treats names inherited from `Object.prototype` as unknown keys and drops them, as `Settings.Known` does.
- KeptSpec: treats names inherited from `Object.prototype` as unknown keys and drops them, as `Settings.Known` does.
- CollectKept: treats names inherited from `Object.prototype` as unknown keys and drops them, as `Settings.Known` does.
- SetSettingsEffect: treats names inherited from `Object.prototype` as unknown keys, so it states nothing about assigning them, as `Settings.Known` does.
- SetSettings: treats names inherited from `Object.prototype` as unknown keys and neither records nor assigns them, as `Settings.Known` does.
- GetSetting: treats names inherited from `Object.prototype` as unknown keys, giving `undefined` for them where the source gives the inherited function, as `Settings.Known` does.
- 64-bit `size_t` arithmetic in the curl write callbacks is bounded by `HttpClients.SizeLimit`. Wrap-around beyond it is not modelled.

## Findings

| source | as written | input that shows it | evidently intended | confidence | as-written member | corrected member |
|---|---|---|---|---|---|---|
| src/main/modules/Downloader/DownloadAdapter.js:17 | the user-page pattern has no `$` anchor and precedes the bookmark-list entry, so a bookmark-list URL is claimed by the user provider | `https://www.pixiv.net/users/1/bookmarks/artworks` | bookmark-list URLs resolve to the bookmark-URL provider | medium, not executed | DownloadAdapters.BookmarkListGoesToUser | DownloadAdapters.BookmarkListResolves |
| src/main/modules/Utils/FormatName.js:72 | `fallback += ''` assigns to an undeclared name, so every call of `format` throws a ReferenceError | any rename format and context | `fallback` is a declared parameter and `format` returns a name | medium, not executed | FormatNames.FormatAsWritten | FormatNames.Format |
| src/main/modules/Utils/FormatName.js:77 | `/%[a-z]+%/ig` has no `_`, so `%user_name%`, `%user_id%` and `%page_num%` are never replaced | rename format `%user_name%` | every key the meta table knows is replaced | medium, not executed | FormatNames.UnderscoreKeysMissed | FormatNames.TableKeysFound |
| src/main/modules/Download.js:96 | the `\.` inside a template literal becomes `.`, so the test accepts any character but a line terminator before the extension | save name `xpng` with extension `png` stays `xpng` | `xpng.png` | medium, not executed | Downloads.AsWrittenKeepsMissingDot | Downloads.GetFilenameSpec |
| src/main/modules/SettingStorage.js:250-273 | `FormatName.replaceIllegalChars` (lines 251 and 273) is not defined by `FormatName`, so rebuilding a rename or image rename rule throws a TypeError | `setSettings({illustrationRename: '%id%'})` | the rule is cleaned and rebuilt | low, not executed | Settings.SetSettingsThrowsWithoutCleaner | Settings.WorkRenameRuleSpec |
| cpp-downloader/src/pixiv_downloader.cpp:204-207 | the recorded path takes the text after `find_last_of('/') + 1`, which wraps to 0 when the URL has no `/`, so the database records a file that was never saved | directory `d`, id `1`, image URL `x`: recorded `d/x`, saved `d/1_0.jpg` | the database records the path of the first saved file | low, not executed | PixivDownloaders.RecordedPathMismatch | PixivDownloaders.RecordedPathIsSaved |
