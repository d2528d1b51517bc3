/**
 * String helpers shared by the model: decimal rendering of numbers, searching,
 * first-occurrence replacement, trimming and the "tag followed by digits" search
 * that several regular expressions of the system perform.
 */
module Strings {
  import opened Wrappers

  predicate IsDigit(c: char) {
    '0' <= c <= '9'
  }

  predicate AllDigits(s: string) {
    forall i :: 0 <= i < |s| ==> IsDigit(s[i])
  }

  /** A non-empty run of decimal digits, what `\d+` matches. */
  predicate IsDigitString(s: string) {
    |s| > 0 && AllDigits(s)
  }

  function DigitChar(d: nat): (c: char)
    requires d < 10
    ensures IsDigit(c)
  {
    (48 + d) as char
  }

  /** Decimal rendering of a natural number, as JavaScript's template strings and `std::to_string` print it. */
  function NatToString(n: nat): (r: string)
    ensures IsDigitString(r)
    decreases n
  {
    if n < 10 then [DigitChar(n)] else NatToString(n / 10) + [DigitChar(n % 10)]
  }

  function IntToString(i: int): string {
    if i < 0 then "-" + NatToString(-i) else NatToString(i)
  }

  /** The value of a string of decimal digits. */
  function DigitsValue(s: string): nat
    requires AllDigits(s)
  {
    if s == [] then 0 else 10 * DigitsValue(s[..|s| - 1]) + ((s[|s| - 1] as int) - 48)
  }

  lemma {:induction false} NatToStringRoundTrip(n: nat)
    ensures DigitsValue(NatToString(n)) == n
    decreases n
  {
    if n >= 10 {
      var r := NatToString(n);
      assert r[..|r| - 1] == NatToString(n / 10);
      NatToStringRoundTrip(n / 10);
    }
  }

  /** The rendering starts with a minus sign exactly for negative numbers. */
  lemma IntToStringSign(i: int)
    ensures |IntToString(i)| > 0 && (IntToString(i)[0] == '-' <==> i < 0)
  {
    if i >= 0 {
      assert IsDigit(NatToString(i)[0]);
    }
  }

  /** Different numbers render differently, so ids built from numbers stay distinct. */
  lemma IntToStringInjective(a: int, b: int)
    requires IntToString(a) == IntToString(b)
    ensures a == b
  {
    IntToStringSign(a);
    IntToStringSign(b);
    if a < 0 {
      var sa, sb := NatToString(-a), NatToString(-b);
      assert sa == ("-" + sa)[1..] == ("-" + sb)[1..] == sb;
      NatToStringRoundTrip(-a);
      NatToStringRoundTrip(-b);
    } else {
      NatToStringRoundTrip(a);
      NatToStringRoundTrip(b);
    }
  }

  predicate IsPrefix(p: string, s: string) {
    |p| <= |s| && s[..|p|] == p
  }

  predicate IsSuffix(p: string, s: string) {
    |p| <= |s| && s[|s| - |p|..] == p
  }

  predicate OccursAt(s: string, sub: string, i: nat) {
    i + |sub| <= |s| && s[i..i + |sub|] == sub
  }

  /** `s.includes(sub)` / `s.find(sub) != npos`. */
  predicate Contains(s: string, sub: string) {
    exists i: nat | i <= |s| :: OccursAt(s, sub, i)
  }

  /** Index of the first occurrence of `sub` at or after `from`. */
  function IndexOfFrom(s: string, sub: string, from: nat): (r: Option<nat>)
    ensures r.Some? ==> from <= r.value && OccursAt(s, sub, r.value)
    ensures r.Some? ==> forall j: nat :: from <= j < r.value ==> !OccursAt(s, sub, j)
    ensures r.None? ==> forall j: nat :: from <= j ==> !OccursAt(s, sub, j)
    decreases |s| - from
  {
    if from + |sub| > |s| then None
    else if OccursAt(s, sub, from) then Some(from)
    else IndexOfFrom(s, sub, from + 1)
  }

  function IndexOf(s: string, sub: string): (r: Option<nat>)
    ensures r.Some? <==> Contains(s, sub)
    ensures r.Some? ==> OccursAt(s, sub, r.value) && forall j: nat :: j < r.value ==> !OccursAt(s, sub, j)
  {
    IndexOfFrom(s, sub, 0)
  }

  /**
   * `s.replace(pat, rep)` with a string pattern: only the first occurrence is
   * replaced. `$` patterns in the replacement are not interpreted.
   */
  function ReplaceFirst(s: string, pat: string, rep: string): (r: string)
    ensures !Contains(s, pat) ==> r == s
    ensures Contains(s, pat) ==> exists i: nat :: OccursAt(s, pat, i) && r == s[..i] + rep + s[i + |pat|..]
  {
    match IndexOf(s, pat)
    case None => s
    case Some(i) => s[..i] + rep + s[i + |pat|..]
  }

  /** A separator that `a` does not contain is first found right after `a`. */
  lemma FirstSeparator(a: string, b: string, sep: char)
    requires sep !in a
    ensures IndexOf(a + [sep] + b, [sep]) == Some(|a|)
  {
    var s := a + [sep] + b;
    assert OccursAt(s, [sep], |a|) by { assert s[|a|..|a| + 1] == [sep]; }
    forall j: nat | j < |a|
      ensures !OccursAt(s, [sep], j)
    {
      assert s[j..j + 1] == [a[j]];
    }
  }

  /** Splitting at the first separator: the parts before and after it are determined. */
  lemma SeparatedParts(a: string, b: string, c: string, d: string, sep: char)
    requires sep !in a && sep !in c
    requires a + [sep] + b == c + [sep] + d
    ensures a == c && b == d
  {
    FirstSeparator(a, b, sep);
    FirstSeparator(c, d, sep);
    var s := a + [sep] + b;
    assert a == s[..|a|] && c == s[..|c|];
    assert b == s[|a| + 1..] && d == s[|c| + 1..];
  }

  /** A separator that `b` does not contain is last found right before `b`. */
  lemma {:induction false} LastSeparator(a: string, b: string, sep: char)
    requires sep !in b
    ensures LastIndexOfChar(a + [sep] + b, sep) == Some(|a|)
    decreases |b|
  {
    var s := a + [sep] + b;
    if b == [] {
      assert s[|s| - 1] == sep;
    } else {
      var b' := b[..|b| - 1];
      assert s[|s| - 1] == b[|b| - 1];
      assert s[..|s| - 1] == a + [sep] + b';
      assert sep !in b' by {
        assert forall x :: x in b' ==> x in b;
      }
      LastSeparator(a, b', sep);
    }
  }

  /** Splitting at the last separator: the parts before and after it are determined. */
  lemma SeparatedLast(a: string, b: string, c: string, d: string, sep: char)
    requires sep !in b && sep !in d
    requires a + [sep] + b == c + [sep] + d
    ensures a == c && b == d
  {
    LastSeparator(a, b, sep);
    LastSeparator(c, d, sep);
    var s := a + [sep] + b;
    assert a == s[..|a|] && c == s[..|c|];
    assert b == s[|a| + 1..] && d == s[|c| + 1..];
  }

  /** Equal strings with the same beginning have the same rest. */
  lemma CommonPrefix(p: string, a: string, b: string)
    requires p + a == p + b
    ensures a == b
  {
    assert a == (p + a)[|p|..];
    assert b == (p + b)[|p|..];
  }

  /** Equal strings with the same ending have the same start. */
  lemma CommonSuffix(a: string, b: string, q: string)
    requires a + q == b + q
    ensures a == b
  {
    assert a == (a + q)[..|a|];
    assert b == (b + q)[..|b|];
  }

  lemma NoSignInDigits(n: nat, c: char)
    requires !IsDigit(c)
    ensures c !in NatToString(n)
  {
  }

  /** Number of occurrences of a character. */
  function CountChar(s: string, c: char): nat {
    if s == [] then 0 else (if s[0] == c then 1 else 0) + CountChar(s[1..], c)
  }

  lemma {:induction false} CountCharAppend(a: string, b: string, c: char)
    ensures CountChar(a + b, c) == CountChar(a, c) + CountChar(b, c)
    decreases |a|
  {
    if a != [] {
      assert (a + b)[0] == a[0] && (a + b)[1..] == a[1..] + b;
      CountCharAppend(a[1..], b, c);
    } else {
      assert a + b == b;
    }
  }

  lemma {:induction false} CountCharZero(s: string, c: char)
    ensures CountChar(s, c) == 0 <==> forall i :: 0 <= i < |s| ==> s[i] != c
    decreases |s|
  {
    if s != [] {
      CountCharZero(s[1..], c);
      assert forall i :: 1 <= i < |s| ==> s[i] == s[1..][i - 1];
    }
  }

  /** `parts.join(sep)`. */
  function Join(parts: seq<string>, sep: string): string {
    if parts == [] then ""
    else if |parts| == 1 then parts[0]
    else parts[0] + sep + Join(parts[1..], sep)
  }

  /** Index of the last occurrence of `c`, as `find_last_of` / `lastIndexOf`. */
  function LastIndexOfChar(s: string, c: char): (r: Option<nat>)
    ensures r.Some? ==> r.value < |s| && s[r.value] == c && forall j :: r.value < j < |s| ==> s[j] != c
    ensures r.None? ==> forall j :: 0 <= j < |s| ==> s[j] != c
  {
    if s == [] then None
    else if s[|s| - 1] == c then Some(|s| - 1)
    else LastIndexOfChar(s[..|s| - 1], c)
  }

  /** Drops the leading characters that belong to `ws`. */
  function TrimStart(s: string, ws: set<char>): (r: string)
    ensures IsSuffix(r, s)
    ensures r == [] || r[0] !in ws
    ensures forall i :: 0 <= i < |s| - |r| ==> s[i] in ws
  {
    if s != [] && s[0] in ws then TrimStart(s[1..], ws) else s
  }

  /** Drops the trailing characters that belong to `ws`. */
  function TrimEnd(s: string, ws: set<char>): (r: string)
    ensures IsPrefix(r, s)
    ensures r == [] || r[|r| - 1] !in ws
    ensures forall i :: |r| <= i < |s| ==> s[i] in ws
  {
    if s != [] && s[|s| - 1] in ws then TrimEnd(s[..|s| - 1], ws) else s
  }

  function Trim(s: string, ws: set<char>): (r: string)
    ensures r == [] || (r[0] !in ws && r[|r| - 1] !in ws)
  {
    TrimEnd(TrimStart(s, ws), ws)
  }

  /** End of the run of digits that starts at `j`. */
  function DigitRunEnd(s: string, j: nat): (k: nat)
    requires j <= |s|
    ensures j <= k <= |s|
    ensures AllDigits(s[j..k])
    ensures k == |s| || !IsDigit(s[k])
    decreases |s| - j
  {
    if j < |s| && IsDigit(s[j]) then DigitRunEnd(s, j + 1) else j
  }

  /** `tag` occurs at `i` and is followed by at least one digit: where `tag(\d+)` can match. */
  predicate TaggedDigitsAt(s: string, tag: string, i: nat) {
    OccursAt(s, tag, i) && i + |tag| < |s| && IsDigit(s[i + |tag|])
  }

  /** The leftmost position at or after `i` where `tag(\d+)` can match. */
  function FirstTaggedAt(s: string, tag: string, i: nat): (r: Option<nat>)
    ensures r.Some? ==> i <= r.value && TaggedDigitsAt(s, tag, r.value)
                        && forall k: nat :: i <= k < r.value ==> !TaggedDigitsAt(s, tag, k)
    ensures r.None? ==> forall j: nat :: i <= j ==> !TaggedDigitsAt(s, tag, j)
    decreases |s| - i
  {
    if i + |tag| >= |s| then None
    else if TaggedDigitsAt(s, tag, i) then Some(i)
    else FirstTaggedAt(s, tag, i + 1)
  }

  /**
   * The first match of the regular expression `tag(\d+)` searched anywhere in `s`
   * (leftmost position, greedy digits): its captured digits, or None.
   */
  function FirstTaggedDigits(s: string, tag: string): (r: Option<string>)
    ensures r.None? <==> forall j: nat :: !TaggedDigitsAt(s, tag, j)
    ensures r.Some? ==> IsDigitString(r.value)
  {
    match FirstTaggedAt(s, tag, 0)
    case None => None
    case Some(j) => Some(s[j + |tag|..DigitRunEnd(s, j + |tag|)])
  }

  /** Index of the first `c` in `s`. */
  function IndexOfChar(s: string, c: char): (i: nat)
    requires c in s
    ensures i < |s| && s[i] == c && c !in s[..i]
  {
    if s[0] == c then 0 else IndexOfChar(s[1..], c) + 1
  }

  /** The first `c` in `a + [c] + b`, when `a` has none, is the one after `a`. */
  lemma {:induction false} IndexOfCharAfter(a: string, c: char, b: string)
    requires c !in a
    ensures IndexOfChar(a + [c] + b, c) == |a|
  {
    if a != [] {
      assert (a + [c] + b)[1..] == a[1..] + [c] + b;
      IndexOfCharAfter(a[1..], c, b);
    }
  }

  /** The first match of `tag(\d+)` at or after `i` is the one at `k` when none lies between. */
  lemma {:induction false} FirstTaggedFrom(s: string, tag: string, i: nat, k: nat)
    requires i <= k && TaggedDigitsAt(s, tag, k) && forall j: nat :: i <= j < k ==> !TaggedDigitsAt(s, tag, j)
    ensures FirstTaggedAt(s, tag, i) == Some(k)
    decreases k - i
  {
    if i < k {
      FirstTaggedFrom(s, tag, i + 1, k);
    }
  }

  /** A run of digits `id` followed by a non-digit or the end is exactly the run found at `j`. */
  lemma {:induction false} DigitRunOf(s: string, j: nat, id: string, rest: string)
    requires j + |id| + |rest| == |s| && s[j..] == id + rest && AllDigits(id) && (rest == "" || !IsDigit(rest[0]))
    ensures DigitRunEnd(s, j) == j + |id| && s[j..j + |id|] == id
    decreases |id|
  {
    if id != [] {
      assert s[j] == id[0];
      assert s[j + 1..] == id[1..] + rest;
      DigitRunOf(s, j + 1, id[1..], rest);
    } else if rest != "" {
      assert s[j] == rest[0];
    }
  }

  /** No match of `tag(\d+)` starts before position `k` of `s`. */
  predicate NoTaggedDigitsBefore(s: string, tag: string, k: nat) {
    forall j: nat :: j < k ==> !TaggedDigitsAt(s, tag, j)
  }

  /**
   * A tag followed by the digits `id` and then a non-digit (or the end)
   * yields exactly `id`, when no earlier copy of the tag is followed by a
   * digit.
   */
  lemma FirstTaggedDigitsOf(prefix: string, tag: string, id: string, rest: string)
    requires tag != [] && id != [] && AllDigits(id) && (rest == [] || !IsDigit(rest[0]))
    requires NoTaggedDigitsBefore(prefix + tag + id + rest, tag, |prefix|)
    ensures FirstTaggedDigits(prefix + tag + id + rest, tag) == Some(id)
  {
    var s := prefix + tag + id + rest;
    TagThenDigitsAt(prefix, tag, id, rest);
    FirstTaggedFrom(s, tag, 0, |prefix|);
    DigitRunOf(s, |prefix| + |tag|, id, rest);
  }

  /** In `prefix + tag + id + rest`, with `id` a non-empty digit run, `tag(\d+)` matches right after `prefix`. */
  lemma TagThenDigitsAt(prefix: string, tag: string, id: string, rest: string)
    requires id != [] && AllDigits(id)
    ensures var s := prefix + tag + id + rest;
            TaggedDigitsAt(s, tag, |prefix|) && s[|prefix| + |tag|..] == id + rest
  {
    var s := prefix + tag + id + rest;
    var k, n := |prefix|, |tag|;
    assert s == (prefix + tag) + (id + rest);
    assert s[k..k + n] == (prefix + tag)[k..] == tag;
    assert s[k + n..] == id + rest;
    assert s[k + n] == id[0];
  }

  /** No copy of a tag starts inside a prefix that lacks the tag's first character. */
  lemma TagAbsentFromPrefix(prefix: string, tag: string, s: string)
    requires tag != [] && tag[0] !in prefix && IsPrefix(prefix, s)
    ensures NoTaggedDigitsBefore(s, tag, |prefix|)
  {
    forall j: nat | j < |prefix|
      ensures !TaggedDigitsAt(s, tag, j)
    {
      assert s[j] == prefix[j];
    }
  }

}
