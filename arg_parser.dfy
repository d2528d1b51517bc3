/**
 * `ArgParser::parse` of the C++ downloader: one pass over `argv` from
 * index 1. Flags set a field; `-d`, `-c` and `-i` take the next argument
 * as their value; the first bare argument becomes the input file; anything
 * else asks for the help text.
 *
 * The pass is split in two: `Scan` reads one option (and its value) off
 * `argv` without looking at what was parsed so far, and `Apply` records it
 * in a `ProgramArgs`. `Parse` is the loop of the source; `Parsed` is what it
 * computes.
 */
module ArgParsing {
  import opened Strings

  /** `struct ProgramArgs` with its default member initialisers. */
  datatype ProgramArgs = ProgramArgs(
    inputFile: string,
    downloadDir: string,
    cookieFile: string,
    forceRepeated: bool,
    showHelp: bool,
    showVersion: bool)

  /** A `ProgramArgs` as declared: no input file, `./downloads`, `../cookie`, every flag off. */
  const Defaults := ProgramArgs("", "./downloads", "../cookie", false, false, false)

  /** What one turn of the loop reads off `argv`. */
  datatype Token =
    | Help
    | Version
    | ForceRepeated
    | DownloadDir(dir: string)
    | CookieFile(file: string)
    | Input(file: string)
    /** A value option in last place: its value is missing. */
    | MissingValue(option: string)
    /** An argument that is no option: empty or not starting with `-`. */
    | Bare(arg: string)
    | Unknown(arg: string)

  /** The value options: they take the next argument. */
  predicate TakesValue(arg: string) {
    arg in {"-d", "--download-dir", "-c", "--cookie-file", "-i", "--input"}
  }

  /**
   * `arg[0] != '-'`: on an empty `std::string`, `arg[0]` is the terminating
   * null character, so an empty argument counts as bare.
   */
  predicate IsBare(arg: string) {
    arg == [] || arg[0] != '-'
  }

  /** The token at `argv[i]` and the index the loop goes on from. */
  function Scan(argv: seq<string>, i: nat): (r: (Token, nat))
    requires i < |argv|
    ensures r.1 == i + 1 || r.1 == i + 2
    ensures r.1 <= |argv|
    ensures r.1 == i + 2 <==> TakesValue(argv[i]) && i + 1 < |argv|
    ensures r.1 == i + 2 ==> r.0 in {DownloadDir(argv[i + 1]), CookieFile(argv[i + 1]), Input(argv[i + 1])}
  {
    var arg := argv[i];
    if arg == "-h" || arg == "--help" then (Help, i + 1)
    else if arg == "-v" || arg == "--version" then (Version, i + 1)
    else if arg == "-forceRepeated" || arg == "--forceRepeated" then (ForceRepeated, i + 1)
    else if arg == "-d" || arg == "--download-dir" then
      if i + 1 < |argv| then (DownloadDir(argv[i + 1]), i + 2) else (MissingValue(arg), i + 1)
    else if arg == "-c" || arg == "--cookie-file" then
      if i + 1 < |argv| then (CookieFile(argv[i + 1]), i + 2) else (MissingValue(arg), i + 1)
    else if arg == "-i" || arg == "--input" then
      if i + 1 < |argv| then (Input(argv[i + 1]), i + 2) else (MissingValue(arg), i + 1)
    else if IsBare(arg) then (Bare(arg), i + 1)
    else (Unknown(arg), i + 1)
  }

  /** The tokens of `argv` from index `i` on. */
  function Tokens(argv: seq<string>, i: nat): (ts: seq<Token>)
    ensures i <= |argv| ==> |ts| <= |argv| - i
    decreases |argv| - i
  {
    if i >= |argv| then []
    else
      var (t, next) := Scan(argv, i);
      [t] + Tokens(argv, next)
  }

  /** One token recorded in the arguments parsed so far. */
  function Apply(args: ProgramArgs, t: Token): ProgramArgs {
    match t
    case Help => args.(showHelp := true)
    case Version => args.(showVersion := true)
    case ForceRepeated => args.(forceRepeated := true)
    case DownloadDir(d) => args.(downloadDir := d)
    case CookieFile(f) => args.(cookieFile := f)
    case Input(f) => args.(inputFile := f)
    case MissingValue(_) => args.(showHelp := true)
    case Bare(a) => if args.inputFile == [] then args.(inputFile := a) else args.(showHelp := true)
    case Unknown(_) => args.(showHelp := true)
  }

  /** The tokens recorded in order. */
  function ApplyAll(args: ProgramArgs, ts: seq<Token>): ProgramArgs
    decreases |ts|
  {
    if ts == [] then args else ApplyAll(Apply(args, ts[0]), ts[1..])
  }

  /** What `parse` returns for `argv` (`argv[0]` is the program name). */
  function Parsed(argv: seq<string>): ProgramArgs {
    ApplyAll(Defaults, Tokens(argv, 1))
  }

  /** `ArgParser::parse`. */
  method Parse(argv: seq<string>) returns (args: ProgramArgs)
    ensures args == Parsed(argv)
  {
    args := Defaults;
    var i := 1;
    while i < |argv|
      invariant 1 <= i
      invariant ApplyAll(args, Tokens(argv, i)) == Parsed(argv)
      decreases |argv| - i
    {
      var arg := argv[i];
      if arg == "-h" || arg == "--help" {
        args := args.(showHelp := true);
      } else if arg == "-v" || arg == "--version" {
        args := args.(showVersion := true);
      } else if arg == "-forceRepeated" || arg == "--forceRepeated" {
        args := args.(forceRepeated := true);
      } else if arg == "-d" || arg == "--download-dir" {
        if i + 1 < |argv| {
          i := i + 1;
          args := args.(downloadDir := argv[i]);
        } else {
          args := args.(showHelp := true);
        }
      } else if arg == "-c" || arg == "--cookie-file" {
        if i + 1 < |argv| {
          i := i + 1;
          args := args.(cookieFile := argv[i]);
        } else {
          args := args.(showHelp := true);
        }
      } else if arg == "-i" || arg == "--input" {
        if i + 1 < |argv| {
          i := i + 1;
          args := args.(inputFile := argv[i]);
        } else {
          args := args.(showHelp := true);
        }
      } else if IsBare(arg) && args.inputFile == [] {
        args := args.(inputFile := arg);
      } else {
        args := args.(showHelp := true);
      }
      i := i + 1;
    }
  }

  // ---------------------------------------------------------------------
  // What the parse promises

  /** Without arguments the defaults stand. */
  lemma NoArguments(argv: seq<string>)
    requires |argv| <= 1
    ensures Parsed(argv) == ProgramArgs("", "./downloads", "../cookie", false, false, false)
  {
  }

  /** Only the tokens that set a field change it: every other field of the arguments is left alone. */
  lemma {:induction false} OtherTokensKeepDir(args: ProgramArgs, ts: seq<Token>)
    requires forall k :: 0 <= k < |ts| ==> !ts[k].DownloadDir?
    ensures ApplyAll(args, ts).downloadDir == args.downloadDir
    decreases |ts|
  {
    if ts != [] {
      OtherTokensKeepDir(Apply(args, ts[0]), ts[1..]);
    }
  }

  /** Recording `ts` is recording its first `k` tokens, then the rest. */
  lemma {:induction false} ApplyAllSplit(args: ProgramArgs, ts: seq<Token>, k: nat)
    requires k <= |ts|
    ensures ApplyAll(args, ts) == ApplyAll(ApplyAll(args, ts[..k]), ts[k..])
    decreases k
  {
    if k > 0 {
      assert ts[..k][0] == ts[0] && ts[..k][1..] == ts[1..][..k - 1];
      assert ts[k..] == ts[1..][k - 1..];
      ApplyAllSplit(Apply(args, ts[0]), ts[1..], k - 1);
    }
  }

  /**
   * Repeated `-d` options overwrite each other: the download directory is
   * the value of the last one, or the one it had before when there is none.
   */
  lemma LastDownloadDirWins(args: ProgramArgs, ts: seq<Token>, k: nat)
    requires k < |ts| && ts[k].DownloadDir?
    requires forall j :: k < j < |ts| ==> !ts[j].DownloadDir?
    ensures ApplyAll(args, ts).downloadDir == ts[k].dir
  {
    ApplyAllSplit(args, ts, k + 1);
    var before := ApplyAll(args, ts[..k + 1]);
    ApplyAllSplit(args, ts[..k + 1], k);
    assert ts[..k + 1][k..] == [ts[k]];
    assert before.downloadDir == ts[k].dir;
    OtherTokensKeepDir(before, ts[k + 1..]);
  }

  /** Once the help text is asked for, it stays asked for. */
  lemma {:induction false} HelpSticks(args: ProgramArgs, ts: seq<Token>)
    requires args.showHelp
    ensures ApplyAll(args, ts).showHelp
    decreases |ts|
  {
    if ts != [] {
      HelpSticks(Apply(args, ts[0]), ts[1..]);
    }
  }

  /** A token that asks for help: `-h`, a value option without value, an unknown option, or a bare argument once the input file is set. */
  predicate AsksHelp(args: ProgramArgs, t: Token) {
    t.Help? || t.MissingValue? || t.Unknown? || (t.Bare? && args.inputFile != [])
  }

  /**
   * The help text is shown exactly when some argument asks for it, in the
   * state the arguments before it left.
   */
  lemma {:induction false} HelpIff(args: ProgramArgs, ts: seq<Token>)
    requires !args.showHelp
    ensures ApplyAll(args, ts).showHelp <==> exists k :: 0 <= k < |ts| && AsksHelp(ApplyAll(args, ts[..k]), ts[k])
    decreases |ts|
  {
    if ts != [] {
      var next := Apply(args, ts[0]);
      assert ApplyAll(args, ts[..0]) == args;
      if AsksHelp(args, ts[0]) {
        HelpSticks(next, ts[1..]);
      } else {
        assert !next.showHelp;
        HelpIff(next, ts[1..]);
        forall k | 0 <= k < |ts[1..]|
          ensures ApplyAll(next, ts[1..][..k]) == ApplyAll(args, ts[..k + 1])
        {
          assert ts[..k + 1][0] == ts[0] && ts[..k + 1][1..] == ts[1..][..k];
        }
        if exists k :: 0 <= k < |ts| && AsksHelp(ApplyAll(args, ts[..k]), ts[k]) {
          var k :| 0 <= k < |ts| && AsksHelp(ApplyAll(args, ts[..k]), ts[k]);
          assert k != 0;
          assert AsksHelp(ApplyAll(next, ts[1..][..k - 1]), ts[1..][k - 1]);
        }
        if exists k :: 0 <= k < |ts[1..]| && AsksHelp(ApplyAll(next, ts[1..][..k]), ts[1..][k]) {
          var k :| 0 <= k < |ts[1..]| && AsksHelp(ApplyAll(next, ts[1..][..k]), ts[1..][k]);
          assert AsksHelp(ApplyAll(args, ts[..k + 1]), ts[k + 1]);
        }
      }
    }
  }

  /**
   * A second bare argument is refused: when a non-empty bare argument sets
   * the input file and no `-i` follows it, any later bare argument asks for
   * help.
   */
  lemma SecondBareRefused(args: ProgramArgs, ts: seq<Token>, k1: nat, k2: nat)
    requires k1 < k2 < |ts| && ts[k1].Bare? && ts[k1].arg != [] && ts[k2].Bare?
    requires forall j :: k1 < j < k2 ==> !ts[j].Input?
    ensures ApplyAll(args, ts).showHelp
  {
    var mid := ApplyAll(args, ts[..k1 + 1]);
    ApplyOneMore(args, ts, k1);
    assert mid.inputFile != [] || mid.showHelp;
    var rest := ts[k1 + 1..k2];
    assert forall j :: 0 <= j < |rest| ==> rest[j] == ts[k1 + 1 + j];
    InputKept(mid, rest);
    ApplyAllSplit(args, ts[..k2], k1 + 1);
    assert ts[..k2][..k1 + 1] == ts[..k1 + 1] && ts[..k2][k1 + 1..] == rest;
    var at := ApplyAll(args, ts[..k2 + 1]);
    ApplyOneMore(args, ts, k2);
    assert at.showHelp;
    ApplyAllSplit(args, ts, k2 + 1);
    HelpSticks(at, ts[k2 + 1..]);
  }

  /** Recording one more token of a prefix. */
  lemma ApplyOneMore(args: ProgramArgs, ts: seq<Token>, k: nat)
    requires k < |ts|
    ensures ApplyAll(args, ts[..k + 1]) == Apply(ApplyAll(args, ts[..k]), ts[k])
  {
    ApplyAllSplit(args, ts[..k + 1], k);
    assert ts[..k + 1][..k] == ts[..k] && ts[..k + 1][k..] == [ts[k]];
  }

  /** Without `-i`, a set input file stays set (or help is asked for already). */
  lemma {:induction false} InputKept(args: ProgramArgs, ts: seq<Token>)
    requires args.inputFile != [] || args.showHelp
    requires forall j :: 0 <= j < |ts| ==> !ts[j].Input?
    ensures var r := ApplyAll(args, ts); r.inputFile != [] || r.showHelp
    decreases |ts|
  {
    if ts != [] {
      InputKept(Apply(args, ts[0]), ts[1..]);
    }
  }

  /** `-i` overrides a bare input file given before it: the last `-i` value is the input file, whatever bare arguments follow when it is non-empty. */
  lemma InputOptionOverrides(args: ProgramArgs, ts: seq<Token>, k: nat)
    requires k < |ts| && ts[k].Input? && ts[k].file != []
    requires forall j :: k < j < |ts| ==> !ts[j].Input?
    ensures ApplyAll(args, ts).inputFile == ts[k].file
  {
    ApplyAllSplit(args, ts, k + 1);
    ApplyAllSplit(args, ts[..k + 1], k);
    assert ts[..k + 1][k..] == [ts[k]];
    InputUnchanged(ApplyAll(args, ts[..k + 1]), ts[k + 1..]);
  }

  /** A non-empty input file survives every token but `-i`. */
  lemma {:induction false} InputUnchanged(args: ProgramArgs, ts: seq<Token>)
    requires args.inputFile != []
    requires forall j :: 0 <= j < |ts| ==> !ts[j].Input?
    ensures ApplyAll(args, ts).inputFile == args.inputFile
    decreases |ts|
  {
    if ts != [] {
      InputUnchanged(Apply(args, ts[0]), ts[1..]);
    }
  }
}
