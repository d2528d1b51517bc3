/**
 * Line-by-line reading of a text file, as the two C++ readers do it:
 * `std::getline` splits the file at newlines, each line is trimmed of
 * spaces, tabs, carriage returns and newlines, and blank lines and lines
 * starting with `#` are skipped.
 */
module TextLines {
  import opened Strings

  /** The characters `find_first_not_of(" \t\r\n")` and `find_last_not_of` skip. */
  const LineSpace: set<char> := {' ', '\t', '\r', '\n'}

  /**
   * The lines `std::getline` reads from a file holding `s`: the pieces
   * between newlines; a newline at the very end closes the last line
   * instead of opening an empty one.
   */
  function Lines(s: string): (ls: seq<string>)
    ensures forall i :: 0 <= i < |ls| ==> '\n' !in ls[i]
    decreases |s|
  {
    if s == [] then []
    else if '\n' !in s then [s]
    else
      var i := IndexOfChar(s, '\n');
      [s[..i]] + Lines(s[i + 1..])
  }

  /** Each line followed by a newline. */
  function Unlines(ls: seq<string>): string {
    if ls == [] then [] else ls[0] + "\n" + Unlines(ls[1..])
  }

  /** Writing the lines back gives the file, with a newline added when it did not end with one. */
  lemma {:induction false} LinesRoundTrip(s: string)
    ensures Unlines(Lines(s)) == if s == [] || s[|s| - 1] == '\n' then s else s + "\n"
    decreases |s|
  {
    if s == [] {
    } else if '\n' !in s {
      assert Lines(s) == [s];
      assert Unlines([s]) == s + "\n" + Unlines([]);
    } else {
      var i := IndexOfChar(s, '\n');
      var rest := s[i + 1..];
      SplitAtNewline(s);
      LinesRoundTrip(rest);
      JoinedEnd(s[..i], rest);
    }
  }

  /** A line, a newline and the rest end where the rest ends, or with that newline when the rest is empty. */
  lemma JoinedEnd(l: string, rest: string)
    ensures var s := l + "\n" + rest;
            l + "\n" + (if rest == [] || rest[|rest| - 1] == '\n' then rest else rest + "\n")
              == if s == [] || s[|s| - 1] == '\n' then s else s + "\n"
  {
    var s := l + "\n" + rest;
    if rest == [] {
      assert s == l + "\n";
    } else {
      assert s[|s| - 1] == rest[|rest| - 1];
      assert l + "\n" + (rest + "\n") == s + "\n";
    }
  }

  /** A file with a newline is its first line, the newline, and the rest; so is its round trip. */
  lemma SplitAtNewline(s: string)
    requires '\n' in s
    ensures var i := IndexOfChar(s, '\n');
            s == s[..i] + "\n" + s[i + 1..]
            && Unlines(Lines(s)) == s[..i] + "\n" + Unlines(Lines(s[i + 1..]))
  {
    var i := IndexOfChar(s, '\n');
    assert s == s[..i] + [s[i]] + s[i + 1..];
    assert Lines(s) == [s[..i]] + Lines(s[i + 1..]);
    UnlinesCons(s[..i], Lines(s[i + 1..]));
  }

  /** Writing a first line, then the others. */
  lemma UnlinesCons(l: string, ls: seq<string>)
    ensures Unlines([l] + ls) == l + "\n" + Unlines(ls)
  {
    assert ([l] + ls)[1..] == ls;
  }

  /** Reading back lines written one per newline gives those lines. */
  lemma {:induction false} UnlinesRoundTrip(ls: seq<string>)
    requires forall i :: 0 <= i < |ls| ==> '\n' !in ls[i]
    ensures Lines(Unlines(ls)) == ls
  {
    if ls != [] {
      var l := ls[0];
      var tail := Unlines(ls[1..]);
      var s := l + "\n" + tail;
      assert Unlines(ls) == s;
      IndexOfCharAfter(l, '\n', tail);
      assert s[..|l|] == l;
      assert s[|l| + 1..] == tail;
      UnlinesRoundTrip(ls[1..]);
      assert Lines(s) == [l] + ls[1..];
    }
  }

  /** The line after trimming. */
  function Trimmed(line: string): (t: string)
    ensures t == [] || (t[0] !in LineSpace && t[|t| - 1] !in LineSpace)
  {
    Trim(line, LineSpace)
  }

  /** A line that is kept: not blank after trimming and not a `#` comment. */
  predicate ContentLine(line: string) {
    var t := Trimmed(line);
    t != [] && t[0] != '#'
  }

  /** Trimming a trimmed line changes nothing. */
  lemma TrimmedIsFixed(line: string)
    ensures Trimmed(Trimmed(line)) == Trimmed(line)
  {
    var t := Trimmed(line);
    assert TrimStart(t, LineSpace) == t;
    assert TrimEnd(t, LineSpace) == t;
  }
}
