/**
 * `PixivDownloader` of the C++ command-line tool: it reads artwork URLs from
 * a file, extracts each artwork id, skips ids the database already records,
 * downloads the images of the others and records an artwork once all its
 * images are saved; `run()` counts successes, skips and failures.
 *
 * The outside world is a parameter: `files` gives the content of a file by
 * path (`None` when it cannot be opened), `fetch` the artwork information
 * the API answers for an id (`None` when the request fails), `images` the
 * image URLs read from that answer, and `download` whether saving a URL to
 * a path succeeded. The database is the map `db` from artwork id to the
 * file path recorded for it.
 */
module PixivDownloaders {
  import opened Wrappers
  import opened Strings
  import opened TextLines
  import opened ArgParsing
  import opened HttpClients

  // ---------------------------------------------------------------------
  // Reading the URL file

  /** A line that `read_urls_from_file` keeps: a content line that mentions `pixiv.net`. */
  predicate UrlLine(line: string) {
    ContentLine(line) && Contains(Trimmed(line), "pixiv.net")
  }

  /** The URLs in `lines`: the trimmed URL lines, in order. */
  function UrlLines(lines: seq<string>): seq<string>
    decreases |lines|
  {
    if lines == [] then []
    else
      var l := lines[|lines| - 1];
      UrlLines(lines[..|lines| - 1]) + (if UrlLine(l) then [Trimmed(l)] else [])
  }

  /** One turn of the reading loop: trim the line and keep it when it is a URL line. */
  method KeepUrl(urls: seq<string>, raw: string) returns (r: seq<string>)
    ensures r == urls + (if UrlLine(raw) then [Trimmed(raw)] else [])
  {
    var line := Trimmed(raw);
    if line == [] || line[0] == '#' {
      return urls;
    }
    r := urls;
    if IndexOf(line, "pixiv.net").Some? {
      r := r + [line];
    }
  }

  /** `read_urls_from_file`: no URLs from a file that cannot be opened. */
  method ReadUrlsFromFile(file: Option<string>) returns (urls: seq<string>)
    ensures urls == if file.None? then [] else UrlLines(Lines(file.value))
  {
    if file.None? {
      return [];
    }
    var lines := Lines(file.value);
    urls := [];
    var i := 0;
    while i < |lines|
      invariant 0 <= i <= |lines|
      invariant urls == UrlLines(lines[..i])
    {
      assert lines[..i + 1][..i] == lines[..i];
      urls := KeepUrl(urls, lines[i]);
      i := i + 1;
    }
    assert lines[..|lines|] == lines;
  }

  /**
   * The URLs read are exactly the trimmed URL lines: each is trimmed, not
   * blank, not a comment and mentions `pixiv.net`, and each URL line gives
   * one.
   */
  lemma UrlLinesSpec(lines: seq<string>)
    ensures |UrlLines(lines)| <= |lines|
    ensures forall u :: u in UrlLines(lines) <==> exists i :: 0 <= i < |lines| && UrlLine(lines[i]) && Trimmed(lines[i]) == u
    ensures forall u :: u in UrlLines(lines) ==> Trimmed(u) == u && u != [] && u[0] != '#' && Contains(u, "pixiv.net")
  {
    UrlLinesFewer(lines);
    UrlLinesFrom(lines);
    forall u | u in UrlLines(lines) ensures Trimmed(u) == u && u != [] && u[0] != '#' && Contains(u, "pixiv.net") {
      var i :| 0 <= i < |lines| && UrlLine(lines[i]) && Trimmed(lines[i]) == u;
      TrimmedIsFixed(lines[i]);
    }
  }

  /** At most one URL per line. */
  lemma {:induction false} UrlLinesFewer(lines: seq<string>)
    ensures |UrlLines(lines)| <= |lines|
    decreases |lines|
  {
    if lines != [] {
      UrlLinesFewer(lines[..|lines| - 1]);
    }
  }

  /** The URLs read are the trimmed URL lines of the file. */
  lemma UrlLinesFrom(lines: seq<string>)
    ensures forall u :: u in UrlLines(lines) <==> exists i :: 0 <= i < |lines| && UrlLine(lines[i]) && Trimmed(lines[i]) == u
  {
    forall u | u in UrlLines(lines)
      ensures exists i :: 0 <= i < |lines| && UrlLine(lines[i]) && Trimmed(lines[i]) == u
    {
      var i := UrlSource(lines, u);
    }
    forall i | 0 <= i < |lines| && UrlLine(lines[i]) ensures Trimmed(lines[i]) in UrlLines(lines) {
      UrlKept(lines, i);
    }
  }

  /** Every URL read comes from a URL line. */
  lemma {:induction false} UrlSource(lines: seq<string>, u: string) returns (i: nat)
    requires u in UrlLines(lines)
    ensures i < |lines| && UrlLine(lines[i]) && Trimmed(lines[i]) == u
    decreases |lines|
  {
    var init := lines[..|lines| - 1];
    var l := lines[|lines| - 1];
    assert UrlLines(lines) == UrlLines(init) + (if UrlLine(l) then [Trimmed(l)] else []);
    if u in UrlLines(init) {
      i := UrlSource(init, u);
      assert lines[i] == init[i];
    } else {
      i := |lines| - 1;
    }
  }

  /** Every URL line gives its URL. */
  lemma {:induction false} UrlKept(lines: seq<string>, i: nat)
    requires i < |lines| && UrlLine(lines[i])
    ensures Trimmed(lines[i]) in UrlLines(lines)
    decreases |lines|
  {
    var init := lines[..|lines| - 1];
    var l := lines[|lines| - 1];
    assert UrlLines(lines) == UrlLines(init) + (if UrlLine(l) then [Trimmed(l)] else []);
    if i < |init| {
      assert init[i] == lines[i];
      UrlKept(init, i);
    }
  }

  /** A URL line added to the file adds its URL at the end: the order of the file is kept. */
  lemma UrlLinesAppend(lines: seq<string>, l: string)
    ensures UrlLines(lines + [l]) == UrlLines(lines) + (if UrlLine(l) then [Trimmed(l)] else [])
  {
    assert (lines + [l])[..|lines|] == lines;
  }

  // ---------------------------------------------------------------------
  // Artwork ids and file names

  /** `extract_artwork_id`: the digits the regular expression `artworks/(\d+)` captures first, or empty. */
  function ExtractArtworkId(url: string): string {
    match FirstTaggedDigits(url, "artworks/")
    case None => []
    case Some(d) => d
  }

  /** The id is empty exactly when no `artworks/` is followed by a digit, and otherwise is all digits. */
  lemma ExtractArtworkIdSpec(url: string)
    ensures ExtractArtworkId(url) == [] <==> forall j: nat :: !TaggedDigitsAt(url, "artworks/", j)
    ensures AllDigits(ExtractArtworkId(url))
  {
  }

  /**
   * In an artwork URL the id is the whole run of digits after the first
   * `artworks/` that a digit follows.
   */
  lemma ExtractArtworkIdOf(prefix: string, id: string, rest: string)
    requires id != [] && AllDigits(id) && (rest == [] || !IsDigit(rest[0]))
    requires NoTaggedDigitsBefore(prefix + "artworks/" + id + rest, "artworks/", |prefix|)
    ensures ExtractArtworkId(prefix + "artworks/" + id + rest) == id
  {
    FirstTaggedDigitsOf(prefix, "artworks/", id, rest);
  }


  /** The canonical artwork URL gives its id back. */
  lemma ArtworkUrlId(id: string)
    requires id != [] && AllDigits(id)
    ensures ExtractArtworkId("https://www.pixiv.net/artworks/" + id) == id
  {
    assert "https://www.pixiv.net/artworks/" + id == "https://www.pixiv.net/" + "artworks/" + id + "";
    TagAbsentFromPrefix("https://www.pixiv.net/", "artworks/", "https://www.pixiv.net/" + "artworks/" + id + "");
    ExtractArtworkIdOf("https://www.pixiv.net/", id, "");
  }

  /** The characters `sanitize_filename` replaces. */
  const InvalidChars: set<char> := {'<', '>', ':', '"', '/', '\\', '|', '?', '*'}

  /** A file name with every invalid character replaced by `_`. */
  function Sanitized(s: string): (r: string)
    ensures |r| == |s|
  {
    seq(|s|, i requires 0 <= i < |s| => if s[i] in InvalidChars then '_' else s[i])
  }

  /** `sanitize_filename`: the characters are replaced in place, one by one. */
  method SanitizeFilename(filename: string) returns (safe: string)
    ensures safe == Sanitized(filename)
  {
    safe := filename;
    var i := 0;
    while i < |safe|
      invariant 0 <= i <= |safe| == |filename|
      invariant safe[..i] == Sanitized(filename)[..i]
      invariant safe[i..] == filename[i..]
    {
      if safe[i] in InvalidChars {
        safe := safe[i := '_'];
      }
      i := i + 1;
    }
  }

  /**
   * Sanitising keeps the length, turns exactly the invalid characters into
   * `_`, leaves no invalid character behind, and sanitising again changes
   * nothing.
   */
  lemma SanitizedSpec(s: string)
    ensures |Sanitized(s)| == |s|
    ensures forall i :: 0 <= i < |s| ==> (s[i] in InvalidChars ==> Sanitized(s)[i] == '_') && (s[i] !in InvalidChars ==> Sanitized(s)[i] == s[i])
    ensures forall c :: c in Sanitized(s) ==> c !in InvalidChars
    ensures Sanitized(Sanitized(s)) == Sanitized(s)
  {
    var r := Sanitized(s);
    forall c | c in r ensures c !in InvalidChars {
      var i :| 0 <= i < |r| && r[i] == c;
    }
  }

  /** The name of image `i` of an artwork: what follows the last `/` of its URL, or `{id}_{i}.jpg` without one. */
  function ImageFilename(id: string, url: string, i: nat): string {
    match LastIndexOfChar(url, '/')
    case None => id + "_" + NatToString(i) + ".jpg"
    case Some(k) => url[k + 1..]
  }

  /** With a `/`, the name is the part of the URL after its last `/`; without one, it is built from the id and the index. */
  lemma ImageFilenameSpec(id: string, url: string, i: nat)
    ensures '/' in url ==> IsSuffix(ImageFilename(id, url, i), url) && '/' !in ImageFilename(id, url, i)
    ensures '/' !in url ==> ImageFilename(id, url, i) == id + "_" + NatToString(i) + ".jpg"
  {
    if '/' in url {
      var k := LastIndexOfChar(url, '/').value;
      var name := url[k + 1..];
      assert IsSuffix(name, url);
      forall c | c in name ensures c != '/' {
        var j :| 0 <= j < |name| && name[j] == c;
        assert url[k + 1 + j] == c;
      }
    }
  }

  /** Where image `i` is saved. */
  function ImagePath(dir: string, id: string, url: string, i: nat): string {
    dir + "/" + Sanitized(ImageFilename(id, url, i))
  }

  /** Every image is saved directly inside the download directory: its name has no `/` and no `\`. */
  lemma ImagePathInDir(dir: string, id: string, url: string, i: nat)
    ensures var p := ImagePath(dir, id, url, i);
            IsPrefix(dir + "/", p) && '/' !in p[|dir| + 1..] && '\\' !in p[|dir| + 1..]
  {
    var name := Sanitized(ImageFilename(id, url, i));
    SanitizedSpec(ImageFilename(id, url, i));
    assert ImagePath(dir, id, url, i)[|dir| + 1..] == name;
  }

  /**
   * The name recorded for the first image as written:
   * `substr(find_last_of('/') + 1)`, where a URL without `/` gives
   * `npos + 1`, which wraps to 0, so the whole URL.
   */
  function FirstFilenameAsWritten(url: string): string {
    match LastIndexOfChar(url, '/')
    case None => url
    case Some(k) => url[k + 1..]
  }

  /** The path `download_artwork` records for an artwork whose first image URL is `first`. */
  function RecordedPathAsWritten(dir: string, first: string): string {
    dir + "/" + Sanitized(FirstFilenameAsWritten(first))
  }

  /**
   * As written, the recorded path is not where the first image went when
   * its URL has no `/`: the image is saved as `1_0.jpg`, the database
   * records `x`.
   */
  lemma RecordedPathMismatch()
    ensures RecordedPathAsWritten("d", "x") == "d/x"
    ensures ImagePath("d", "1", "x", 0) == "d/1_0.jpg"
  {
    assert Sanitized("x") == "x";
    assert NatToString(0) == "0";
    assert Sanitized("1_0.jpg") == "1_0.jpg";
  }

  /** Both record the same path whenever the first URL has a `/`. */
  lemma RecordedPathAgrees(dir: string, id: string, first: string)
    requires '/' in first
    ensures RecordedPathAsWritten(dir, first) == ImagePath(dir, id, first, 0)
  {
  }

  /** The path the record evidently means: where the first image is saved. */
  function RecordedPath(dir: string, id: string, first: string): string {
    ImagePath(dir, id, first, 0)
  }

  /** The intended record names the file the first download went to, for every list of image URLs. */
  lemma RecordedPathIsSaved(dir: string, id: string, urls: seq<string>)
    requires urls != []
    ensures RecordedPath(dir, id, urls[0]) == Attempts(dir, id, urls)[0].path
  {
    AttemptsSpec(dir, id, urls, |urls|);
  }

  // ---------------------------------------------------------------------
  // Downloading one artwork

  /** One call of `download_file`. */
  datatype Attempt = Attempt(url: string, path: string)

  /** The downloads tried for the first `n` images of an artwork, in order. */
  function AttemptsUpTo(dir: string, id: string, urls: seq<string>, n: nat): (a: seq<Attempt>)
    requires n <= |urls|
    ensures |a| == n
  {
    if n == 0 then [] else AttemptsUpTo(dir, id, urls, n - 1) + [Attempt(urls[n - 1], ImagePath(dir, id, urls[n - 1], n - 1))]
  }

  /** The downloads tried for the images of an artwork: every image. */
  function Attempts(dir: string, id: string, urls: seq<string>): (a: seq<Attempt>)
    ensures |a| == |urls|
  {
    AttemptsUpTo(dir, id, urls, |urls|)
  }

  /** Image `i` is downloaded from its URL to its own path, in the order of the URLs. */
  lemma {:induction false} AttemptsSpec(dir: string, id: string, urls: seq<string>, n: nat)
    requires n <= |urls|
    ensures forall i :: 0 <= i < n ==> AttemptsUpTo(dir, id, urls, n)[i] == Attempt(urls[i], ImagePath(dir, id, urls[i], i))
  {
    if n > 0 {
      AttemptsSpec(dir, id, urls, n - 1);
      var prev := AttemptsUpTo(dir, id, urls, n - 1);
      var last := Attempt(urls[n - 1], ImagePath(dir, id, urls[n - 1], n - 1));
      assert AttemptsUpTo(dir, id, urls, n) == prev + [last];
      forall i | 0 <= i < n
        ensures AttemptsUpTo(dir, id, urls, n)[i] == Attempt(urls[i], ImagePath(dir, id, urls[i], i))
      {
        if i < n - 1 {
          assert (prev + [last])[i] == prev[i];
        }
      }
    }
  }

  /** Every download succeeded. */
  predicate AllSaved(attempts: seq<Attempt>, download: (string, string) -> bool) {
    forall i :: 0 <= i < |attempts| ==> download(attempts[i].url, attempts[i].path)
  }

  /** One more download: all succeeded when all before did and this one does. */
  lemma AllSavedAppend(attempts: seq<Attempt>, a: Attempt, download: (string, string) -> bool)
    ensures AllSaved(attempts + [a], download) <==> AllSaved(attempts, download) && download(a.url, a.path)
  {
    var xs := attempts + [a];
    assert xs[|attempts|] == a;
    assert forall i :: 0 <= i < |attempts| ==> xs[i] == attempts[i];
  }

  /** The image loop after `i` images: the downloads tried so far, and whether all of them succeeded. */
  predicate Saving(dir: string, id: string, urls: seq<string>, download: (string, string) -> bool,
                   i: nat, tried: seq<Attempt>, allSuccess: bool) {
    i <= |urls| && tried == AttemptsUpTo(dir, id, urls, i) && (allSuccess <==> AllSaved(tried, download))
  }

  /** One more image: its download is appended, and it must succeed too. */
  lemma SavingStep(dir: string, id: string, urls: seq<string>, download: (string, string) -> bool,
                   i: nat, tried: seq<Attempt>, allSuccess: bool)
    requires Saving(dir, id, urls, download, i, tried, allSuccess) && i < |urls|
    ensures var a := Attempt(urls[i], ImagePath(dir, id, urls[i], i));
            |tried + [a]| == i + 1
            && Saving(dir, id, urls, download, i + 1, tried + [a], allSuccess && download(a.url, a.path))
  {
    AllSavedAppend(tried, Attempt(urls[i], ImagePath(dir, id, urls[i], i)), download);
  }

  /** The downloads log grows by appending. */
  lemma AppendLog(done: seq<Attempt>, earlier: seq<Attempt>, next: seq<Attempt>)
    ensures done + earlier + next == done + (earlier + next)
  {
  }

  /** What `download_artwork` does: whether it succeeds, the database after it, and the downloads it tries. */
  datatype Outcome = Outcome(ok: bool, db: map<string, string>, attempts: seq<Attempt>)

  /**
   * `download_artwork` for `id`: a recorded id is a success without any
   * request unless downloads are forced; a failed request or an answer
   * without images is a failure; otherwise every image is downloaded, and
   * the artwork is recorded when all of them were saved, under the path
   * `RecordedPathAsWritten` builds from the first image URL.
   */
  function ArtworkOutcome(dir: string, force: bool, db: map<string, string>, id: string,
                          fetch: string -> Option<string>, images: (string, string) -> seq<string>,
                          download: (string, string) -> bool): Outcome
  {
    if !force && id in db then Outcome(true, db, [])
    else match fetch(id)
      case None => Outcome(false, db, [])
      case Some(json) =>
        var urls := images(json, id);
        if urls == [] then Outcome(false, db, [])
        else
          var attempts := Attempts(dir, id, urls);
          var ok := AllSaved(attempts, download);
          Outcome(ok, if ok then db[id := RecordedPathAsWritten(dir, urls[0])] else db, attempts)
  }

  /**
   * The database only grows, by `id` alone, and only on success; a success
   * leaves `id` recorded, under the path built from the first image URL,
   * which is that image's saved path when the URL has a `/`; nothing is
   * downloaded for a recorded id unless forced; and a failure records
   * nothing.
   */
  lemma ArtworkOutcomeSpec(dir: string, force: bool, db: map<string, string>, id: string,
                           fetch: string -> Option<string>, images: (string, string) -> seq<string>,
                           download: (string, string) -> bool)
    ensures var o := ArtworkOutcome(dir, force, db, id, fetch, images, download);
            db.Keys <= o.db.Keys <= db.Keys + {id}
            && (o.ok ==> id in o.db)
            && (!o.ok ==> o.db == db)
            && (forall k :: k in db && k != id ==> o.db[k] == db[k])
            && (!force && id in db ==> o.ok && o.attempts == [] && o.db == db)
            && (o.attempts != [] ==> (o.ok <==> AllSaved(o.attempts, download)))
            && (o.ok && o.attempts != [] ==> o.db[id] == RecordedPathAsWritten(dir, o.attempts[0].url))
            && (o.ok && o.attempts != [] && '/' in o.attempts[0].url ==> o.db[id] == o.attempts[0].path)
  {
    var o := ArtworkOutcome(dir, force, db, id, fetch, images, download);
    if o.attempts != [] {
      var urls := images(fetch(id).value, id);
      AttemptsSpec(dir, id, urls, |urls|);
      if '/' in urls[0] {
        RecordedPathAgrees(dir, id, urls[0]);
      }
    }
  }

  // ---------------------------------------------------------------------
  // run()

  /** How `run()` ends up counting one URL. */
  datatype Status = Invalid | Skipped | Saved | Unsaved

  /** The number of URLs counted as `s`. */
  function Count(statuses: seq<Status>, s: Status): nat
    decreases |statuses|
  {
    if statuses == [] then 0
    else Count(statuses[..|statuses| - 1], s) + (if statuses[|statuses| - 1] == s then 1 else 0)
  }

  /** The four counts add up to the number of URLs; none is a failure exactly when the invalid and failed ones are none. */
  lemma {:induction false} CountsCover(statuses: seq<Status>)
    ensures Count(statuses, Invalid) + Count(statuses, Skipped) + Count(statuses, Saved) + Count(statuses, Unsaved) == |statuses|
    ensures Count(statuses, Invalid) + Count(statuses, Unsaved) == 0 <==> forall i :: 0 <= i < |statuses| ==> statuses[i] in {Skipped, Saved}
    decreases |statuses|
  {
    if statuses != [] {
      var init := statuses[..|statuses| - 1];
      CountsCover(init);
      assert forall i :: 0 <= i < |init| ==> init[i] == statuses[i];
    }
  }

  /** Counting one more URL. */
  lemma CountAppend(statuses: seq<Status>, t: Status, s: Status)
    ensures Count(statuses + [t], s) == Count(statuses, s) + (if t == s then 1 else 0)
  {
    assert (statuses + [t])[..|statuses|] == statuses;
  }

  /** The counters of `run()` count the statuses: successes, skips, and invalid or unsaved URLs as failures. */
  predicate Tally(success: nat, skip: nat, fail: nat, statuses: seq<Status>) {
    success == Count(statuses, Saved) && skip == Count(statuses, Skipped)
    && fail == Count(statuses, Invalid) + Count(statuses, Unsaved)
  }

  /** Counting one more URL keeps the counters right. */
  lemma TallyStep(success: nat, skip: nat, fail: nat, statuses: seq<Status>, st: Status)
    requires Tally(success, skip, fail, statuses)
    ensures Tally(if st == Saved then success + 1 else success,
                  if st == Skipped then skip + 1 else skip,
                  if st == Invalid || st == Unsaved then fail + 1 else fail,
                  statuses + [st])
  {
    CountAppend(statuses, st, Saved);
    CountAppend(statuses, st, Skipped);
    CountAppend(statuses, st, Invalid);
    CountAppend(statuses, st, Unsaved);
  }

  /** The ids of the URLs counted as saved so far: what the run has added to the database. */
  function SavedIds(urls: seq<string>, statuses: seq<Status>): set<string>
    requires |statuses| <= |urls|
    decreases |statuses|
  {
    if statuses == [] then {}
    else SavedIds(urls, statuses[..|statuses| - 1])
         + (if statuses[|statuses| - 1] == Saved then {ExtractArtworkId(urls[|statuses| - 1])} else {})
  }

  /**
   * The statuses of the first URLs, each judged against the database as it
   * stands when that URL's turn comes: the ids in `known` at the start and
   * those saved by the earlier turns.
   */
  predicate StatusesFit(urls: seq<string>, statuses: seq<Status>, force: bool, known: set<string>) {
    |statuses| <= |urls|
    && forall j :: 0 <= j < |statuses| ==>
         StatusFits(ExtractArtworkId(urls[j]), statuses[j], force, known + SavedIds(urls, statuses[..j]))
  }

  /**
   * The status of one URL with artwork id `id` against the recorded ids
   * `known`: invalid exactly when it has no id, skipped exactly when
   * downloads are not forced and its id is recorded.
   */
  predicate StatusFits(id: string, st: Status, force: bool, known: set<string>) {
    (st == Invalid <==> id == [])
    && (st == Skipped <==> id != [] && !force && id in known)
  }

  /** The next status fits when it fits the database as the run has left it. */
  lemma FitStep(urls: seq<string>, statuses: seq<Status>, st: Status, force: bool, known: set<string>)
    requires StatusesFit(urls, statuses, force, known) && |statuses| < |urls|
    requires StatusFits(ExtractArtworkId(urls[|statuses|]), st, force, known + SavedIds(urls, statuses))
    ensures StatusesFit(urls, statuses + [st], force, known)
    ensures SavedIds(urls, statuses + [st])
              == SavedIds(urls, statuses) + (if st == Saved then {ExtractArtworkId(urls[|statuses|])} else {})
  {
    var xs := statuses + [st];
    var n := |statuses|;
    assert xs[..n] == statuses;
    forall j | 0 <= j < |xs|
      ensures StatusFits(ExtractArtworkId(urls[j]), xs[j], force, known + SavedIds(urls, xs[..j]))
    {
      if j < n {
        assert xs[..j] == statuses[..j];
      }
    }
  }

  /** A database holding the ids saved so far, plus the id just saved, holds the ids saved one URL later. */
  lemma KeysStep(urls: seq<string>, statuses: seq<Status>, st: Status, known: set<string>,
                 before: set<string>, after: set<string>)
    requires |statuses| < |urls|
    requires before == known + SavedIds(urls, statuses)
    requires after == before + (if st == Saved then {ExtractArtworkId(urls[|statuses|])} else {})
    ensures after == known + SavedIds(urls, statuses + [st])
  {
    assert (statuses + [st])[..|statuses|] == statuses;
  }

  /** A URL counted as saved leaves its id among the saved ids. */
  lemma {:induction false} SavedIdsHas(urls: seq<string>, statuses: seq<Status>, i: nat)
    requires |statuses| <= |urls| && i < |statuses| && statuses[i] == Saved
    ensures ExtractArtworkId(urls[i]) in SavedIds(urls, statuses)
    decreases |statuses|
  {
    if i < |statuses| - 1 {
      SavedIdsHas(urls, statuses[..|statuses| - 1], i);
    }
  }

  /**
   * Without `--force`, a URL whose artwork an earlier URL of the same run
   * saved is skipped: the run asks the database as it stands, not as it
   * was at the start.
   */
  lemma RepeatSkipped(urls: seq<string>, statuses: seq<Status>, known: set<string>, i: nat, j: nat)
    requires StatusesFit(urls, statuses, false, known)
    requires i < j < |statuses| && statuses[i] == Saved
    requires ExtractArtworkId(urls[j]) == ExtractArtworkId(urls[i])
    ensures statuses[j] == Skipped
  {
    assert StatusFits(ExtractArtworkId(urls[i]), statuses[i], false, known + SavedIds(urls, statuses[..i]));
    assert statuses[..j][i] == statuses[i];
    SavedIdsHas(urls, statuses[..j], i);
    assert StatusFits(ExtractArtworkId(urls[j]), statuses[j], false, known + SavedIds(urls, statuses[..j]));
  }

  /** What one turn of the loop of `run()` leaves: the URL's status, the database and the downloads tried. */
  datatype Turn = Turn(status: Status, db: map<string, string>, attempts: seq<Attempt>)

  /** What the loop of `run()` leaves: the statuses, the database and the downloads tried, in order. */
  datatype RunLog = RunLog(statuses: seq<Status>, db: map<string, string>, attempts: seq<Attempt>)

  /**
   * One turn of the loop of `run()` over database `db`: a URL without an
   * artwork id is invalid, a recorded id is skipped unless downloads are
   * forced, and otherwise the artwork is downloaded and the URL is saved or
   * failed as `download_artwork` reports.
   */
  function UrlStep(dir: string, force: bool, db: map<string, string>, url: string,
                   fetch: string -> Option<string>, images: (string, string) -> seq<string>,
                   download: (string, string) -> bool): Turn
  {
    var id := ExtractArtworkId(url);
    if id == [] then Turn(Invalid, db, [])
    else if !force && id in db then Turn(Skipped, db, [])
    else
      var o := ArtworkOutcome(dir, force, db, id, fetch, images, download);
      Turn(if o.ok then Saved else Unsaved, o.db, o.attempts)
  }

  /**
   * A turn's status fits the database it was handed, the database gains the
   * id exactly when the URL is saved, and a URL is saved exactly when it has
   * an id that is not skipped and its artwork's download succeeded.
   */
  lemma UrlStepSpec(dir: string, force: bool, db: map<string, string>, url: string,
                    fetch: string -> Option<string>, images: (string, string) -> seq<string>,
                    download: (string, string) -> bool)
    ensures var t := UrlStep(dir, force, db, url, fetch, images, download);
            var id := ExtractArtworkId(url);
            StatusFits(id, t.status, force, db.Keys)
            && t.db.Keys == db.Keys + (if t.status == Saved then {id} else {})
            && (t.status == Saved <==> id != [] && (force || id !in db) && ArtworkOutcome(dir, force, db, id, fetch, images, download).ok)
            && (t.status == Invalid || t.status == Skipped ==> t.db == db && t.attempts == [])
  {
    var id := ExtractArtworkId(url);
    if id != [] && (force || id !in db) {
      ArtworkOutcomeSpec(dir, force, db, id, fetch, images, download);
    }
  }

  /**
   * The first `n` turns of the loop of `run()` over `urls`, starting from
   * database `db`: each URL is judged against the database the turns before
   * it left.
   */
  function RunUpTo(dir: string, force: bool, db: map<string, string>, urls: seq<string>, n: nat,
                   fetch: string -> Option<string>, images: (string, string) -> seq<string>,
                   download: (string, string) -> bool): (r: RunLog)
    requires n <= |urls|
    ensures |r.statuses| == n
    decreases n
  {
    if n == 0 then RunLog([], db, [])
    else
      var r := RunUpTo(dir, force, db, urls, n - 1, fetch, images, download);
      var t := UrlStep(dir, force, r.db, urls[n - 1], fetch, images, download);
      RunLog(r.statuses + [t.status], t.db, r.attempts + t.attempts)
  }

  /**
   * The statuses of the turns fit the live database, and the database at
   * the end holds the ids it started with plus those of the saved URLs.
   */
  lemma {:induction false} RunUpToFits(dir: string, force: bool, db: map<string, string>, urls: seq<string>, n: nat,
                                       fetch: string -> Option<string>, images: (string, string) -> seq<string>,
                                       download: (string, string) -> bool)
    requires n <= |urls|
    ensures var r := RunUpTo(dir, force, db, urls, n, fetch, images, download);
            StatusesFit(urls, r.statuses, force, db.Keys) && r.db.Keys == db.Keys + SavedIds(urls, r.statuses)
    decreases n
  {
    if n > 0 {
      RunUpToFits(dir, force, db, urls, n - 1, fetch, images, download);
      var r := RunUpTo(dir, force, db, urls, n - 1, fetch, images, download);
      var t := UrlStep(dir, force, r.db, urls[n - 1], fetch, images, download);
      UrlStepSpec(dir, force, r.db, urls[n - 1], fetch, images, download);
      FitStep(urls, r.statuses, t.status, force, db.Keys);
      KeysStep(urls, r.statuses, t.status, db.Keys, r.db.Keys, t.db.Keys);
    }
  }

  /** One more turn of the loop extends the run by that turn's status, database and downloads. */
  lemma RunUpToStep(dir: string, force: bool, db: map<string, string>, urls: seq<string>, n: nat,
                    fetch: string -> Option<string>, images: (string, string) -> seq<string>,
                    download: (string, string) -> bool)
    requires n < |urls|
    ensures var r := RunUpTo(dir, force, db, urls, n, fetch, images, download);
            var t := UrlStep(dir, force, r.db, urls[n], fetch, images, download);
            RunUpTo(dir, force, db, urls, n + 1, fetch, images, download)
            == RunLog(r.statuses + [t.status], t.db, r.attempts + t.attempts)
  {
  }

  /**
   * A loop state that has logged the first `n` turns, followed by turn `n`,
   * has logged the first `n + 1` turns.
   */
  lemma LoggedStep(dir: string, force: bool, db: map<string, string>, urls: seq<string>, n: nat,
                   fetch: string -> Option<string>, images: (string, string) -> seq<string>,
                   download: (string, string) -> bool,
                   statuses: seq<Status>, st: Status, dbNow: map<string, string>,
                   done: seq<Attempt>, before: seq<Attempt>, after: seq<Attempt>)
    requires n < |urls|
    requires var r := RunUpTo(dir, force, db, urls, n, fetch, images, download);
             var t := UrlStep(dir, force, r.db, urls[n], fetch, images, download);
             statuses == r.statuses && before == done + r.attempts
             && st == t.status && dbNow == t.db && after == before + t.attempts
    ensures var r := RunUpTo(dir, force, db, urls, n + 1, fetch, images, download);
            statuses + [st] == r.statuses && dbNow == r.db && after == done + r.attempts
  {
    var r := RunUpTo(dir, force, db, urls, n, fetch, images, download);
    var t := UrlStep(dir, force, r.db, urls[n], fetch, images, download);
    RunUpToStep(dir, force, db, urls, n, fetch, images, download);
    AppendLog(done, r.attempts, t.attempts);
  }

  /** Later turns do not change the statuses of earlier ones. */
  lemma {:induction false} RunUpToPrefix(dir: string, force: bool, db: map<string, string>, urls: seq<string>, m: nat, n: nat,
                                         fetch: string -> Option<string>, images: (string, string) -> seq<string>,
                                         download: (string, string) -> bool)
    requires m <= n <= |urls|
    ensures RunUpTo(dir, force, db, urls, n, fetch, images, download).statuses[..m]
            == RunUpTo(dir, force, db, urls, m, fetch, images, download).statuses
    decreases n
  {
    if m < n {
      RunUpToPrefix(dir, force, db, urls, m, n - 1, fetch, images, download);
      var r := RunUpTo(dir, force, db, urls, n - 1, fetch, images, download);
      var t := UrlStep(dir, force, r.db, urls[n - 1], fetch, images, download);
      assert (r.statuses + [t.status])[..m] == r.statuses[..m];
    }
  }

  /**
   * URL `j` of the run is counted as saved exactly when it has an artwork
   * id, that id is not skipped against the database as the earlier turns
   * left it, and downloading the artwork succeeded.
   */
  lemma SavedIffDownloaded(dir: string, force: bool, db: map<string, string>, urls: seq<string>, n: nat, j: nat,
                           fetch: string -> Option<string>, images: (string, string) -> seq<string>,
                           download: (string, string) -> bool)
    requires j < n <= |urls|
    ensures var before := RunUpTo(dir, force, db, urls, j, fetch, images, download).db;
            var id := ExtractArtworkId(urls[j]);
            RunUpTo(dir, force, db, urls, n, fetch, images, download).statuses[j] == Saved
            <==> id != [] && (force || id !in before) && ArtworkOutcome(dir, force, before, id, fetch, images, download).ok
  {
    var r := RunUpTo(dir, force, db, urls, j, fetch, images, download);
    TurnStatus(dir, force, db, urls, n, j, fetch, images, download);
    UrlStepSpec(dir, force, r.db, urls[j], fetch, images, download);
  }

  /** The status of URL `j` is the status of turn `j`, taken over the database the earlier turns left. */
  lemma TurnStatus(dir: string, force: bool, db: map<string, string>, urls: seq<string>, n: nat, j: nat,
                   fetch: string -> Option<string>, images: (string, string) -> seq<string>,
                   download: (string, string) -> bool)
    requires j < n <= |urls|
    ensures RunUpTo(dir, force, db, urls, n, fetch, images, download).statuses[j]
            == UrlStep(dir, force, RunUpTo(dir, force, db, urls, j, fetch, images, download).db, urls[j], fetch, images, download).status
  {
    var r := RunUpTo(dir, force, db, urls, j, fetch, images, download);
    var t := UrlStep(dir, force, r.db, urls[j], fetch, images, download);
    var all := RunUpTo(dir, force, db, urls, n, fetch, images, download).statuses;
    var upTo := RunUpTo(dir, force, db, urls, j + 1, fetch, images, download).statuses;
    RunUpToPrefix(dir, force, db, urls, j + 1, n, fetch, images, download);
    RunUpToStep(dir, force, db, urls, j, fetch, images, download);
    assert upTo == r.statuses + [t.status] && |r.statuses| == j;
    assert all[j] == all[..j + 1][j] == upTo[j];
  }

  /** Whether `run()` gives up before processing any URL. */
  predicate GivesUp(args: ProgramArgs, dirOk: bool, dbOk: bool, files: string -> Option<string>) {
    args.inputFile == []
    || !dirOk
    || !dbOk
    || files(args.cookieFile).None? || CookieString(Lines(files(args.cookieFile).value)) == []
    || files(args.inputFile).None? || UrlLines(Lines(files(args.inputFile).value)) == []
  }

  class PixivDownloader {
    const args: ProgramArgs
    /** `args.download_dir + "/downloaded.db"`. */
    const dbPath: string
    const http: HttpClient
    /** The database: artwork id to the file path recorded for it. */
    var db: map<string, string>
    /** The calls of `download_file` so far, in order. */
    var downloads: seq<Attempt>

    /** A downloader for `args` over a database that already records `records`. */
    constructor (args: ProgramArgs, records: map<string, string>)
      ensures this.args == args && dbPath == args.downloadDir + "/downloaded.db"
      ensures fresh(http) && http.cookies == ""
      ensures db == records && downloads == []
    {
      this.args := args;
      dbPath := args.downloadDir + "/downloaded.db";
      http := new HttpClient();
      db := records;
      downloads := [];
    }

    /** `download_artwork`. */
    method DownloadArtwork(id: string, fetch: string -> Option<string>, images: (string, string) -> seq<string>,
                           download: (string, string) -> bool) returns (ok: bool)
      modifies this
      ensures var o := ArtworkOutcome(args.downloadDir, args.forceRepeated, old(db), id, fetch, images, download);
              ok == o.ok && db == o.db && downloads == old(downloads) + o.attempts
    {
      if !args.forceRepeated && id in db {
        return true;
      }
      var json := fetch(id);
      if json.None? {
        return false;
      }
      var urls := images(json.value, id);
      if urls == [] {
        return false;
      }
      var allSuccess := SaveImages(id, urls, download);
      AttemptsSpec(args.downloadDir, id, urls, |urls|);
      if allSuccess {
        db := db[id := RecordedPathAsWritten(args.downloadDir, urls[0])];
      }
      ok := allSuccess;
    }

    /** The image loop of `download_artwork`: every image is tried, in order, even after one fails. */
    method SaveImages(id: string, urls: seq<string>, download: (string, string) -> bool) returns (allSuccess: bool)
      modifies this
      ensures downloads == old(downloads) + Attempts(args.downloadDir, id, urls)
      ensures allSuccess <==> AllSaved(Attempts(args.downloadDir, id, urls), download)
      ensures db == old(db)
    {
      allSuccess := true;
      var i := 0;
      ghost var tried := [];
      while i < |urls|
        invariant downloads == old(downloads) + tried
        invariant Saving(args.downloadDir, id, urls, download, i, tried, allSuccess)
        invariant db == old(db)
      {
        SavingStep(args.downloadDir, id, urls, download, i, tried, allSuccess);
        ghost var a := Attempt(urls[i], ImagePath(args.downloadDir, id, urls[i], i));
        AppendLog(old(downloads), tried, [a]);
        var saved := SaveImage(id, urls[i], i, download);
        if !saved {
          allSuccess := false;
        }
        tried := tried + [a];
        i := i + 1;
      }
    }

    /** One image of `download_artwork`: its file name, then one call of `download_file`. */
    method SaveImage(id: string, url: string, i: nat, download: (string, string) -> bool) returns (saved: bool)
      modifies this
      ensures var path := ImagePath(args.downloadDir, id, url, i);
              saved == download(url, path) && downloads == old(downloads) + [Attempt(url, path)]
      ensures db == old(db)
    {
      var path := args.downloadDir + "/" + Sanitized(ImageFilename(id, url, i));
      saved := download(url, path);
      downloads := downloads + [Attempt(url, path)];
    }

    /** One turn of the loop of `run()`: count the URL as invalid, skipped, saved or failed. */
    method ProcessUrl(url: string, fetch: string -> Option<string>, images: (string, string) -> seq<string>,
                      download: (string, string) -> bool) returns (st: Status)
      modifies this
      ensures var id := ExtractArtworkId(url);
              var o := ArtworkOutcome(args.downloadDir, args.forceRepeated, old(db), id, fetch, images, download);
              (st == Invalid <==> id == [])
              && (st == Skipped <==> id != [] && !args.forceRepeated && id in old(db))
              && (st == Invalid || st == Skipped ==> db == old(db) && downloads == old(downloads))
              && (st == Saved || st == Unsaved ==> (st == Saved <==> o.ok) && db == o.db && downloads == old(downloads) + o.attempts)
    {
      var id := ExtractArtworkId(url);
      if id == [] {
        return Invalid;
      }
      if !args.forceRepeated && id in db {
        return Skipped;
      }
      var ok := DownloadArtwork(id, fetch, images, download);
      st := if ok then Saved else Unsaved;
    }

    /** `ProcessUrl` as the counting loop sees it: the status of the URL, and a database that only grows. */
    method CountUrl(url: string, fetch: string -> Option<string>, images: (string, string) -> seq<string>,
                    download: (string, string) -> bool) returns (st: Status)
      modifies this
      ensures StatusFits(ExtractArtworkId(url), st, args.forceRepeated, old(db).Keys)
      ensures db.Keys == old(db).Keys + (if st == Saved then {ExtractArtworkId(url)} else {})
      ensures var t := UrlStep(args.downloadDir, args.forceRepeated, old(db), url, fetch, images, download);
              st == t.status && db == t.db && downloads == old(downloads) + t.attempts
    {
      UrlStepSpec(args.downloadDir, args.forceRepeated, db, url, fetch, images, download);
      st := ProcessUrl(url, fetch, images, download);
    }

    /** The loop of `run()` over the URLs read. */
    method ProcessUrls(urls: seq<string>, fetch: string -> Option<string>, images: (string, string) -> seq<string>,
                       download: (string, string) -> bool)
      returns (success: nat, skip: nat, fail: nat, ghost statuses: seq<Status>)
      modifies this
      ensures |statuses| == |urls| && Tally(success, skip, fail, statuses)
      ensures StatusesFit(urls, statuses, args.forceRepeated, old(db).Keys)
      ensures db.Keys == old(db).Keys + SavedIds(urls, statuses)
      ensures var r := RunUpTo(args.downloadDir, args.forceRepeated, old(db), urls, |urls|, fetch, images, download);
              statuses == r.statuses && db == r.db && downloads == old(downloads) + r.attempts
    {
      success, skip, fail := 0, 0, 0;
      var i := 0;
      ghost var log := RunUpTo(args.downloadDir, args.forceRepeated, old(db), urls, 0, fetch, images, download);
      while i < |urls|
        invariant 0 <= i <= |urls|
        invariant log == RunUpTo(args.downloadDir, args.forceRepeated, old(db), urls, i, fetch, images, download)
        invariant Tally(success, skip, fail, log.statuses)
        invariant db == log.db && downloads == old(downloads) + log.attempts
      {
        ghost var before := downloads;
        var st := CountUrl(urls[i], fetch, images, download);
        TallyStep(success, skip, fail, log.statuses, st);
        LoggedStep(args.downloadDir, args.forceRepeated, old(db), urls, i, fetch, images, download,
                   log.statuses, st, db, old(downloads), before, downloads);
        if st == Saved {
          success := success + 1;
        } else if st == Skipped {
          skip := skip + 1;
        } else {
          fail := fail + 1;
        }
        i := i + 1;
        log := RunUpTo(args.downloadDir, args.forceRepeated, old(db), urls, i, fetch, images, download);
      }
      statuses := log.statuses;
      RunUpToFits(args.downloadDir, args.forceRepeated, old(db), urls, |urls|, fetch, images, download);
    }

    /**
     * `run()`: 1 when it gives up before any URL (no input file, no
     * download directory, no database, no cookies, no URL), otherwise 1
     * exactly when some URL failed. `dirOk` and `dbOk` are what creating
     * the directory and initialising the database report.
     */
    method Run(dirOk: bool, dbOk: bool, files: string -> Option<string>, fetch: string -> Option<string>,
               images: (string, string) -> seq<string>, download: (string, string) -> bool)
      returns (code: int, ghost statuses: seq<Status>)
      modifies this, http
      ensures code == 0 || code == 1
      ensures GivesUp(args, dirOk, dbOk, files) ==> code == 1 && statuses == [] && db == old(db) && downloads == old(downloads)
      ensures !GivesUp(args, dirOk, dbOk, files) ==>
                |statuses| == |UrlLines(Lines(files(args.inputFile).value))|
                && StatusesFit(UrlLines(Lines(files(args.inputFile).value)), statuses, args.forceRepeated, old(db).Keys)
                && db.Keys == old(db).Keys + SavedIds(UrlLines(Lines(files(args.inputFile).value)), statuses)
                && (code == 0 <==> forall i :: 0 <= i < |statuses| ==> statuses[i] in {Skipped, Saved})
      ensures !GivesUp(args, dirOk, dbOk, files) ==>
                var r := RunUpTo(args.downloadDir, args.forceRepeated, old(db), UrlLines(Lines(files(args.inputFile).value)),
                                 |UrlLines(Lines(files(args.inputFile).value))|, fetch, images, download);
                statuses == r.statuses && db == r.db && downloads == old(downloads) + r.attempts
    {
      statuses := [];
      if args.inputFile == [] {
        return 1, statuses;
      }
      if !dirOk {
        return 1, statuses;
      }
      if !dbOk {
        return 1, statuses;
      }
      var loaded := http.SetCookiesFromFile(files(args.cookieFile));
      if !loaded {
        return 1, statuses;
      }
      var urls := ReadUrlsFromFile(files(args.inputFile));
      if urls == [] {
        return 1, statuses;
      }
      var success, skip, fail;
      success, skip, fail, statuses := ProcessUrls(urls, fetch, images, download);
      CountsCover(statuses);
      code := if fail > 0 then 1 else 0;
    }
  }

  /** Every URL is counted once: successes, skips and failures add up to the number of URLs. */
  lemma RunCountsEveryUrl(statuses: seq<Status>)
    ensures Count(statuses, Saved) + Count(statuses, Skipped) + (Count(statuses, Invalid) + Count(statuses, Unsaved)) == |statuses|
  {
    CountsCover(statuses);
  }
}
