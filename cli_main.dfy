/**
 * `main` of the C++ downloader: parse the arguments, show the help text or
 * the version when asked (help first), otherwise build a downloader and
 * return what its `run()` returns, or 1 when it throws.
 *
 * Whether constructing or running the downloader throws is the parameter
 * `throws`; the rest of the outside world is passed on to `run()`.
 */
module CliMain {
  import opened Wrappers
  import opened ArgParsing
  import opened TextLines
  import opened PixivDownloaders

  /** What `main` ends with. */
  datatype Shown = HelpText | VersionText | Ran

  /** `main`: returns the exit code, and what was shown (ghost). */
  method RunMain(argv: seq<string>, records: map<string, string>, throws: bool,
                 dirOk: bool, dbOk: bool, files: string -> Option<string>, fetch: string -> Option<string>,
                 images: (string, string) -> seq<string>, download: (string, string) -> bool)
    returns (code: int, ghost shown: Shown, ghost statuses: seq<Status>)
    ensures code == 0 || code == 1
    ensures var args := Parsed(argv);
            (args.showHelp ==> shown == HelpText && code == 0)
            && (!args.showHelp && args.showVersion ==> shown == VersionText && code == 0)
            && (!args.showHelp && !args.showVersion ==> shown == Ran)
    ensures var args := Parsed(argv);
            shown == Ran && !throws ==>
              (GivesUp(args, dirOk, dbOk, files) ==> code == 1)
              && (!GivesUp(args, dirOk, dbOk, files) ==>
                    (code == 0 <==> forall i :: 0 <= i < |statuses| ==> statuses[i] in {Skipped, Saved}))
    ensures var args := Parsed(argv);
            var urls := if files(args.inputFile).Some? then UrlLines(Lines(files(args.inputFile).value)) else [];
            shown == Ran && !throws && !GivesUp(args, dirOk, dbOk, files) ==>
              |statuses| == |urls|
              && StatusesFit(urls, statuses, args.forceRepeated, records.Keys)
              && statuses == RunUpTo(args.downloadDir, args.forceRepeated, records, urls, |urls|, fetch, images, download).statuses
    ensures shown == Ran && throws ==> code == 1
  {
    statuses := [];
    var args := Parse(argv);
    if args.showHelp {
      return 0, HelpText, statuses;
    }
    if args.showVersion {
      return 0, VersionText, statuses;
    }
    shown := Ran;
    if throws {
      return 1, shown, statuses;
    }
    var downloader := new PixivDownloader(args, records);
    code, statuses := downloader.Run(dirOk, dbOk, files, fetch, images, download);
  }

}
