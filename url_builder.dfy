/**
 * `UrlBuilder`: the pixiv URLs the downloaders request, built from a work id,
 * a user id or a bookmark visibility (`rest`).
 */
module UrlBuilder {
  import opened Wrappers
  import opened Strings
  import opened DownloadAdapters

  /** `getWorkUrl`: the artwork page. */
  function WorkUrl(id: string): string {
    "https://www.pixiv.net/artworks/" + id
  }

  /** `getWorkInfoUrl`: the artwork's description in the web API. */
  function WorkInfoUrl(id: string): string {
    "https://www.pixiv.net/ajax/illust/" + id
  }

  /** `getAccountUnreadCountUrl`. */
  const AccountUnreadCountUrl := "https://www.pixiv.net/rpc/index.php?mode=message_thread_unread_count"

  /** `getWorkPagesUrl`. */
  function WorkPagesUrl(id: string): string {
    "https://www.pixiv.net/ajax/illust/" + id + "/pages"
  }

  /** `getUserLogoutUrl`. */
  const UserLogoutUrl := "https://www.pixiv.net/logout.php"

  /** `getUgoiraMetaUrl`. */
  function UgoiraMetaUrl(id: string): string {
    "https://www.pixiv.net/ajax/illust/" + id + "/ugoira_meta"
  }

  /** `getUserProfileAllUrl`. */
  function UserProfileAllUrl(id: string): string {
    "https://www.pixiv.net/ajax/user/" + id + "/profile/all"
  }

  /** `getBookmarkUrl`: the first page (offset 0, 48 works) of the signed-in user's bookmarks. */
  function BookmarkUrl(rest: string): string {
    "https://www.pixiv.net/ajax/user/self/illusts/bookmarks?tag=&offset=0&limit=48&rest=" + rest + "&lang=en"
  }

  /** The pages and animation-metadata URLs extend the work-info URL of the same id. */
  lemma InfoUrlExtensions(id: string)
    ensures WorkPagesUrl(id) == WorkInfoUrl(id) + "/pages"
    ensures UgoiraMetaUrl(id) == WorkInfoUrl(id) + "/ugoira_meta"
  {
  }

  /** Different ids give different artwork URLs. */
  lemma WorkUrlInjective(a: string, b: string)
    requires WorkUrl(a) == WorkUrl(b)
    ensures a == b
  {
    CommonPrefix("https://www.pixiv.net/artworks/", a, b);
  }

  /** Different user ids give different profile URLs. */
  lemma UserProfileAllUrlInjective(a: string, b: string)
    requires UserProfileAllUrl(a) == UserProfileAllUrl(b)
    ensures a == b
  {
    var head := "https://www.pixiv.net/ajax/user/";
    assert UserProfileAllUrl(a) == head + (a + "/profile/all");
    assert UserProfileAllUrl(b) == head + (b + "/profile/all");
    CommonPrefix(head, a + "/profile/all", b + "/profile/all");
    CommonSuffix(a, b, "/profile/all");
  }

  /**
   * The artwork URL of a numeric id resolves to the general artwork
   * provider, with that id as its context, under either table.
   */
  lemma WorkUrlResolves(table: seq<MatchEntry>, d: string)
    requires table == BuiltinMaps || table == CorrectedMaps
    requires IsDigitString(d)
    ensures Resolve(table, WorkUrl(d)) == Success(Resolved(PixivGeneralArtwork, WorkUrl(d), map["id" := d]))
  {
    assert WorkUrl(d) == PixivOrigin + ("artworks/" + d);
    ArtworkUrlResolves(table, d);
  }
}
