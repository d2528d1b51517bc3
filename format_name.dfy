/**
 * `FormatName.format`: a file name from a rename template such as
 * `%id%_%title%` and a work's context. Each `%key%` placeholder the
 * template's pattern finds is replaced (first occurrence, as `replace` with
 * a string does) by the first defined context value the key stands for;
 * then the first occurrence of each character of the merged illegal list
 * becomes `_`, and the name is cut to 200 UTF-16 code units.
 */
module FormatNames {
  import opened Wrappers
  import opened Strings
  import opened Tasks

  /** The longest name `format` returns: the Windows rule's `max`. */
  const MaxLength := 200

  /** The illegal characters of the Windows, Linux and Unix rules. */
  const WinIllegals: seq<char> := ['<', '>', ':', '"', '/', '\\', '|', '?', '*']
  const LinuxIllegals: seq<char> := ['/', '@', '#', '$', '&', '\'']
  const UnixIllegals: seq<char> := ['/', ' ']

  /** The merged illegal-character list: the three rules' lists, in that order. */
  const Illegals: seq<char> := WinIllegals + LinuxIllegals + UnixIllegals

  /** A work's context: property names to values. */
  type Context = map<string, JsValue>

  // ---------------------------------------------------------------------
  // getContextMetaValue

  /**
   * What `metas[key]` is: an entry of the table with its possible context
   * keys, a member every object inherits (truthy, but without
   * `possibleKeys`), or nothing.
   */
  datatype Meta = Known(possibleKeys: seq<string>) | Inherited | Unknown

  /** The members of `Object.prototype` whose names a placeholder can spell. */
  const InheritedNames: set<string> := {
    "constructor", "hasOwnProperty", "isPrototypeOf", "propertyIsEnumerable", "toLocaleString", "toString",
    "valueOf", "__proto__", "__defineGetter__", "__defineSetter__", "__lookupGetter__", "__lookupSetter__"}

  function MetaOf(key: string): Meta {
    if key == "id" then Known(["illustId", "novelId"])
    else if key == "title" then Known(["illustTitle", "novelTitle"])
    else if key == "user_name" then Known(["userName", "illustAuthor"])
    else if key == "user_id" then Known(["userId", "illustAuthorId"])
    else if key == "page_num" then Known(["pageNum"])
    else if key in InheritedNames then Inherited
    else Unknown
  }

  /** The first of `keys` the context defines, and the string "undefined" when it defines none. */
  function FirstDefined(context: Context, keys: seq<string>): (r: JsValue)
    ensures r != JUndefined
    ensures (forall i :: 0 <= i < |keys| ==> Prop(context, keys[i]) == JUndefined) ==> r == JStr("undefined")
    ensures forall i :: 0 <= i < |keys| && Prop(context, keys[i]) != JUndefined
                        && (forall j :: 0 <= j < i ==> Prop(context, keys[j]) == JUndefined)
                        ==> r == Prop(context, keys[i])
  {
    if keys == [] then JStr("undefined")
    else if Prop(context, keys[0]) != JUndefined then Prop(context, keys[0])
    else FirstDefined(context, keys[1..])
  }

  /**
   * `getContextMetaValue(context, key)`: `None` (undefined) for a key the
   * table lacks; for an inherited member, reading `possibleKeys.length`
   * fails.
   */
  function MetaValue(context: Context, key: string): Result<Option<JsValue>, Error> {
    match MetaOf(key)
    case Unknown => Success(None)
    case Inherited => Failure(TypeError("Cannot read properties of undefined (reading 'length')"))
    case Known(keys) => Success(Some(FirstDefined(context, keys)))
  }

  /** The loop of `getContextMetaValue` over the possible keys. */
  method LookUpKeys(context: Context, keys: seq<string>) returns (v: JsValue)
    ensures v == FirstDefined(context, keys)
  {
    var i := 0;
    while i < |keys|
      invariant 0 <= i <= |keys|
      invariant FirstDefined(context, keys[i..]) == FirstDefined(context, keys)
    {
      if Prop(context, keys[i]) != JUndefined {
        return Prop(context, keys[i]);
      }
      assert keys[i..][1..] == keys[i + 1..];
      i := i + 1;
    }
    return JStr("undefined");
  }

  /** `getContextMetaValue`: the table entry, then its possible keys in order. */
  method GetContextMetaValue(context: Context, key: string) returns (r: Result<Option<JsValue>, Error>)
    ensures r == MetaValue(context, key)
    ensures r.Success? && r.value.Some? ==> MetaOf(key).Known? && r.value.value != JUndefined
  {
    match MetaOf(key)
    case Unknown =>
      r := Success(None);
    case Inherited =>
      r := Failure(TypeError("Cannot read properties of undefined (reading 'length')"));
    case Known(keys) =>
      var v := LookUpKeys(context, keys);
      r := Success(Some(v));
  }

  // ---------------------------------------------------------------------
  // String.prototype.replace with a string pattern

  /**
   * The text `replace` inserts for the replacement `rep` (the
   * GetSubstitution operation of ECMAScript with no capture groups): `$$`
   * is `$`, `$&` the match, `` $` `` what precedes it, `$'` what follows;
   * any other `$` stays as it is.
   */
  function Expand(rep: string, matched: string, before: string, after: string): string
    decreases |rep|
  {
    if rep == [] then []
    else if rep[0] == '$' && |rep| >= 2 && rep[1] == '$' then "$" + Expand(rep[2..], matched, before, after)
    else if rep[0] == '$' && |rep| >= 2 && rep[1] == '&' then matched + Expand(rep[2..], matched, before, after)
    else if rep[0] == '$' && |rep| >= 2 && rep[1] == '`' then before + Expand(rep[2..], matched, before, after)
    else if rep[0] == '$' && |rep| >= 2 && rep[1] == '\'' then after + Expand(rep[2..], matched, before, after)
    else [rep[0]] + Expand(rep[1..], matched, before, after)
  }

  /** A replacement without `$` is inserted verbatim. */
  lemma {:induction false} ExpandPlain(rep: string, matched: string, before: string, after: string)
    requires forall k :: 0 <= k < |rep| ==> rep[k] != '$'
    ensures Expand(rep, matched, before, after) == rep
    decreases |rep|
  {
    if rep != [] {
      ExpandPlain(rep[1..], matched, before, after);
    }
  }

  /** `s.replace(pat, rep)`: the first occurrence of `pat`, replaced by the expansion of `rep`. */
  function ReplaceString(s: string, pat: string, rep: string): string {
    match IndexOf(s, pat)
    case None => s
    case Some(i) => s[..i] + Expand(rep, pat, s[..i], s[i + |pat|..]) + s[i + |pat|..]
  }

  /** Without `$` in the replacement, `replace` is a plain first-occurrence replacement. */
  lemma ReplaceStringPlain(s: string, pat: string, rep: string)
    requires forall k :: 0 <= k < |rep| ==> rep[k] != '$'
    ensures ReplaceString(s, pat, rep) == ReplaceFirst(s, pat, rep)
  {
    match IndexOf(s, pat)
    case None =>
    case Some(i) =>
      var before, after := s[..i], s[i + |pat|..];
      ExpandPlain(rep, pat, before, after);
      assert ReplaceString(s, pat, rep) == before + rep + after;
      assert ReplaceFirst(s, pat, rep) == before + rep + after;
  }

  /** `$&` in a value re-inserts the placeholder it replaces: the value `a$&b` for `%id%` gives `a%id%b`. */
  lemma DollarAmpersandKeepsMatch(s: string, pat: string)
    requires Contains(s, pat)
    ensures exists i: nat :: OccursAt(s, pat, i) && ReplaceString(s, pat, "a$&b") == s[..i] + ("a" + pat + "b") + s[i + |pat|..]
  {
    var i := IndexOf(s, pat).value;
    var before, after := s[..i], s[i + |pat|..];
    var rep := "a$&b";
    assert rep[0] == 'a' && rep[1..] == "$&b";
    var tail := "$&b";
    assert tail[0] == '$' && tail[1] == '&' && tail[2..] == "b";
    ExpandPlain("b", pat, before, after);
    assert Expand(tail, pat, before, after) == pat + "b";
    assert Expand(rep, pat, before, after) == "a" + pat + "b";
    assert OccursAt(s, pat, i);
  }

  // ---------------------------------------------------------------------
  // The placeholders the template's pattern finds

  /**
   * A character of a placeholder's key: an ASCII letter (the pattern is
   * case-insensitive), and `_` when `underscore` holds.
   */
  predicate KeyChar(c: char, underscore: bool) {
    'a' <= c <= 'z' || 'A' <= c <= 'Z' || (underscore && c == '_')
  }

  /** End of the run of key characters that starts at `j`. */
  function KeyRunEnd(s: string, j: nat, underscore: bool): (k: nat)
    requires j <= |s|
    ensures j <= k <= |s|
    ensures forall t :: j <= t < k ==> KeyChar(s[t], underscore)
    ensures k == |s| || !KeyChar(s[k], underscore)
    decreases |s| - j
  {
    if j < |s| && KeyChar(s[j], underscore) then KeyRunEnd(s, j + 1, underscore) else j
  }

  /** `%`, one or more key characters, `%`. */
  predicate IsPlaceholder(m: string, underscore: bool) {
    |m| >= 3 && m[0] == '%' && m[|m| - 1] == '%' && forall t :: 1 <= t < |m| - 1 ==> KeyChar(m[t], underscore)
  }

  /**
   * The matches of a global search from position `i`: the leftmost match,
   * then the search goes on after it. Every match is a placeholder.
   */
  function PlaceholdersFrom(s: string, i: nat, underscore: bool): (r: seq<string>)
    ensures forall j :: 0 <= j < |r| ==> IsPlaceholder(r[j], underscore)
    decreases |s| - i
  {
    if i >= |s| then []
    else
      var e := KeyRunEnd(s, i + 1, underscore);
      if s[i] == '%' && e > i + 1 && e < |s| && s[e] == '%' then
        var m := s[i..e + 1];
        assert IsPlaceholder(m, underscore) by {
          forall t | 1 <= t < |m| - 1 ensures KeyChar(m[t], underscore) {
            assert m[t] == s[i + t];
          }
        }
        [m] + PlaceholdersFrom(s, e + 1, underscore)
      else PlaceholdersFrom(s, i + 1, underscore)
  }

  /** `renameFormat.match(/%[a-z]+%/ig)` as written: keys of letters only. */
  function LetterPlaceholders(s: string): (r: seq<string>)
    ensures forall j :: 0 <= j < |r| ==> IsPlaceholder(r[j], false)
  {
    PlaceholdersFrom(s, 0, false)
  }

  /** The pattern the meta table calls for, `/%[a-z_]+%/ig`: keys may hold `_`. */
  function Placeholders(s: string): (r: seq<string>)
    ensures forall j :: 0 <= j < |r| ==> IsPlaceholder(r[j], true)
  {
    PlaceholdersFrom(s, 0, true)
  }

  /** A template without `%` has no placeholder. */
  lemma {:induction false} NoPercentNoPlaceholders(s: string, i: nat, underscore: bool)
    requires forall k :: 0 <= k < |s| ==> s[k] != '%'
    ensures PlaceholdersFrom(s, i, underscore) == []
    decreases |s| - i
  {
    if i < |s| {
      NoPercentNoPlaceholders(s, i + 1, underscore);
    }
  }

  /** As written, a key holding `_` ends the letter run before its closing `%`: `%k%` yields no match. */
  lemma UnderscoreKeyMissed(k: string, t: nat)
    requires t < |k| && k[t] == '_' && forall j :: 0 <= j < |k| ==> k[j] != '%'
    ensures LetterPlaceholders("%" + k + "%") == []
  {
    var s := "%" + k + "%";
    assert s[t + 1] == '_';
    var e := KeyRunEnd(s, 1, false);
    assert e <= t + 1;
    assert s[e] != '%' by {
      assert 1 <= e <= |k|;
      assert s[e] == k[e - 1];
    }
    assert forall j :: 1 <= j < |s| - 1 ==> s[j] == k[j - 1];
    NoMatchAfter(s, 1, false);
  }

  /**
   * The pattern as written never finds the table's keys that hold `_`:
   * `%user_name%`, `%user_id%` and `%page_num%` stay in the name.
   */
  lemma UnderscoreKeysMissed(k: string)
    requires MetaOf(k).Known? && k != "id" && k != "title"
    ensures LetterPlaceholders("%" + k + "%") == []
  {
    if k == "user_name" {
      UnderscoreKeyMissed(k, 4);
    } else if k == "user_id" {
      UnderscoreKeyMissed(k, 4);
    } else {
      UnderscoreKeyMissed(k, 4);
    }
  }

  /** Only the last character is `%` from `i` on: no match starts there. */
  lemma {:induction false} NoMatchAfter(s: string, i: nat, underscore: bool)
    requires |s| > 0 && s[|s| - 1] == '%' && forall k :: i <= k < |s| - 1 ==> s[k] != '%'
    ensures PlaceholdersFrom(s, i, underscore) == []
    decreases |s| - i
  {
    if i < |s| {
      NoMatchAfter(s, i + 1, underscore);
    }
  }

  /** A template `%k%` whose key is all key characters is found whole. */
  lemma WholePlaceholder(k: string, underscore: bool)
    requires |k| > 0 && forall t :: 0 <= t < |k| ==> KeyChar(k[t], underscore)
    ensures PlaceholdersFrom("%" + k + "%", 0, underscore) == ["%" + k + "%"]
  {
    var s := "%" + k + "%";
    KeyRunEndAt(s, 1, |s| - 1, underscore);
    assert s[0..|s|] == s;
  }

  /** The run from `j` ends at `e` when the characters up to `e` are key characters and `e` is not. */
  lemma {:induction false} KeyRunEndAt(s: string, j: nat, e: nat, underscore: bool)
    requires j <= e < |s| && !KeyChar(s[e], underscore)
    requires forall t :: j <= t < e ==> KeyChar(s[t], underscore)
    ensures KeyRunEnd(s, j, underscore) == e
    decreases e - j
  {
    if j < e {
      KeyRunEndAt(s, j + 1, e, underscore);
    }
  }

  /** A key of lower-case letters and `_` is found whole by the pattern that allows `_`. */
  lemma TableKeyFound(k: string)
    requires |k| > 0 && forall t :: 0 <= t < |k| ==> 'a' <= k[t] <= 'z' || k[t] == '_'
    ensures Placeholders("%" + k + "%") == ["%" + k + "%"]
  {
    WholePlaceholder(k, true);
  }

  /** With `_` allowed, the placeholder of every key of the meta table is found whole. */
  lemma TableKeysFound(k: string)
    requires MetaOf(k).Known?
    ensures Placeholders("%" + k + "%") == ["%" + k + "%"]
  {
    if k == "user_name" {
      TableKeyFound("user_name");
    } else if k == "user_id" {
      TableKeyFound("user_id");
    } else if k == "page_num" {
      TableKeyFound("page_num");
    } else if k == "title" {
      TableKeyFound("title");
    } else {
      TableKeyFound("id");
    }
  }

  // ---------------------------------------------------------------------
  // Substitution

  /** `match.slice(1, -1)`. */
  function KeyOf(m: string): string {
    if |m| >= 2 then m[1..|m| - 1] else ""
  }

  /** One placeholder: its value replaces its first occurrence; an unknown key leaves the name as it is. */
  function SubstituteOne(name: string, m: string, context: Context): Result<string, Error> {
    match MetaValue(context, KeyOf(m))
    case Failure(e) => Failure(e)
    case Success(None) => Success(name)
    case Success(Some(v)) => Success(ReplaceString(name, m, Text(v)))
  }

  /** `matches.forEach(...)`: the placeholders in order, each on the name the previous ones left. */
  function SubstituteAll(name: string, ms: seq<string>, context: Context): Result<string, Error>
    decreases |ms|
  {
    if ms == [] then Success(name)
    else match SubstituteAll(name, ms[..|ms| - 1], context)
      case Failure(e) => Failure(e)
      case Success(n) => SubstituteOne(n, ms[|ms| - 1], context)
  }

  /** A placeholder whose key the table lacks is left verbatim. */
  lemma UnknownKeyVerbatim(name: string, m: string, context: Context)
    requires MetaOf(KeyOf(m)).Unknown?
    ensures SubstituteOne(name, m, context) == Success(name)
  {
  }

  /**
   * A known key with no defined context value is written as `undefined`;
   * with one, as its first defined value.
   */
  lemma KnownKeyValue(name: string, m: string, context: Context)
    requires MetaOf(KeyOf(m)).Known?
    ensures var keys := MetaOf(KeyOf(m)).possibleKeys;
            SubstituteOne(name, m, context) == Success(ReplaceString(name, m, Text(FirstDefined(context, keys))))
            && ((forall i :: 0 <= i < |keys| ==> Prop(context, keys[i]) == JUndefined)
                ==> SubstituteOne(name, m, context) == Success(ReplaceString(name, m, "undefined")))
  {
  }

  /** `matches.forEach(...)` with its loop. */
  method SubstitutePlaceholders(name0: string, ms: seq<string>, context: Context) returns (r: Result<string, Error>)
    ensures r == SubstituteAll(name0, ms, context)
  {
    var name := name0;
    var i := 0;
    while i < |ms|
      invariant 0 <= i <= |ms|
      invariant SubstituteAll(name0, ms[..i], context) == Success(name)
    {
      assert ms[..i + 1][..i] == ms[..i];
      var val := GetContextMetaValue(context, KeyOf(ms[i]));
      if val.Failure? {
        FailureSticks(name0, ms, context, i + 1);
        return Failure(val.error);
      }
      if val.value.Some? {
        name := ReplaceString(name, ms[i], Text(val.value.value));
      }
      i := i + 1;
    }
    assert ms[..i] == ms;
    r := Success(name);
  }

  /** A failure on a prefix of the placeholders is the failure of them all. */
  lemma {:induction false} FailureSticks(name: string, ms: seq<string>, context: Context, j: nat)
    requires j <= |ms| && SubstituteAll(name, ms[..j], context).Failure?
    ensures SubstituteAll(name, ms, context) == SubstituteAll(name, ms[..j], context)
    decreases |ms|
  {
    if j == |ms| {
      assert ms[..j] == ms;
    } else {
      var init := ms[..|ms| - 1];
      assert init[..j] == ms[..j];
      FailureSticks(name, init, context, j);
    }
  }

  // ---------------------------------------------------------------------
  // Illegal characters and length

  /** `illegalChars.forEach(char => filename = filename.replace(char, '_'))` over `cs`. */
  function SanitizeWith(s: string, cs: seq<char>): string
    decreases |cs|
  {
    if cs == [] then s else ReplaceFirst(SanitizeWith(s, cs[..|cs| - 1]), [cs[|cs| - 1]], "_")
  }

  /** Replacing the first `c` by `_` keeps the length and changes only that one character. */
  lemma ReplaceCharShape(s: string, c: char)
    ensures var r := ReplaceFirst(s, [c], "_");
            |r| == |s|
            && forall i :: 0 <= i < |s| ==> r[i] == s[i] || (r[i] == '_' && s[i] == c)
  {
    if IndexOf(s, [c]).Some? {
      var i := IndexOf(s, [c]).value;
      assert s[i..i + 1] == [c];
      var r := ReplaceFirst(s, [c], "_");
      assert r == s[..i] + "_" + s[i + 1..];
    }
  }

  /** Replacing the first `c` by `_` removes one `c`, when there is one, and no other character but `_` changes count. */
  lemma ReplaceCharCount(s: string, c: char, d: char)
    requires d != '_'
    ensures CountChar(ReplaceFirst(s, [c], "_"), d)
            == if d == c && CountChar(s, c) > 0 then CountChar(s, d) - 1 else CountChar(s, d)
  {
    match IndexOf(s, [c])
    case None =>
      if d == c && CountChar(s, c) > 0 {
        CountCharZero(s, c);
        var k :| 0 <= k < |s| && s[k] == c;
        assert OccursAt(s, [c], k);
      }
    case Some(i) =>
      assert s[i..i + 1] == [c];
      assert s == s[..i] + [c] + s[i + 1..];
      CountCharAppend(s[..i] + [c], s[i + 1..], d);
      CountCharAppend(s[..i], [c], d);
      CountCharAppend(s[..i] + "_", s[i + 1..], d);
      CountCharAppend(s[..i], "_", d);
  }

  /**
   * The merged list replaces, for each character but `_`, as many of its
   * occurrences as the list names it, and no more: the length is kept and
   * every changed character was an illegal one, now `_`.
   */
  lemma {:induction false} SanitizeCounts(s: string, cs: seq<char>, d: char)
    requires d != '_'
    ensures var r := SanitizeWith(s, cs);
            |r| == |s|
            && (forall i :: 0 <= i < |s| ==> r[i] == s[i] || (r[i] == '_' && s[i] in cs))
            && CountChar(r, d) == if CountChar(s, d) >= CountChar(cs, d) then CountChar(s, d) - CountChar(cs, d) else 0
    decreases |cs|
  {
    if cs != [] {
      var init := cs[..|cs| - 1];
      var c := cs[|cs| - 1];
      SanitizeCounts(s, init, d);
      var p := SanitizeWith(s, init);
      ReplaceCharShape(p, c);
      ReplaceCharCount(p, c, d);
      assert cs == init + [c];
      CountCharAppend(init, [c], d);
      forall i | 0 <= i < |s| && p[i] == '_' && s[i] in init
        ensures s[i] in cs
      {
        var k :| 0 <= k < |init| && init[k] == s[i];
        assert cs[k] == s[i];
      }
    }
  }

  lemma WinCounts()
    ensures CountChar(WinIllegals, '/') == 1 && CountChar(WinIllegals, '<') == 1
  {
  }

  lemma LinuxCounts()
    ensures CountChar(LinuxIllegals, '/') == 1 && CountChar(LinuxIllegals, '<') == 0
  {
  }

  lemma UnixCounts()
    ensures CountChar(UnixIllegals, '/') == 1 && CountChar(UnixIllegals, '<') == 0
  {
  }

  /** `/` is on all three lists, so the merged list replaces up to three; `<` only once. */
  lemma IllegalCounts()
    ensures CountChar(Illegals, '/') == 3 && CountChar(Illegals, '<') == 1
  {
    WinCounts();
    LinuxCounts();
    UnixCounts();
    CountCharAppend(WinIllegals, LinuxIllegals, '/');
    CountCharAppend(WinIllegals + LinuxIllegals, UnixIllegals, '/');
    CountCharAppend(WinIllegals, LinuxIllegals, '<');
    CountCharAppend(WinIllegals + LinuxIllegals, UnixIllegals, '<');
  }

  /** A name holding no illegal character more often than the list names it comes out with none. */
  lemma SanitizeClears(s: string)
    requires forall c :: c in Illegals ==> CountChar(s, c) <= CountChar(Illegals, c)
    ensures forall c :: c in Illegals ==> CountChar(SanitizeWith(s, Illegals), c) == 0
  {
    forall c | c in Illegals
      ensures CountChar(SanitizeWith(s, Illegals), c) == 0
    {
      SanitizeCounts(s, Illegals, c);
    }
  }

  /** Only the first `<` is replaced: of `a<b<c`, the second `<` stays. */
  lemma SecondOccurrenceKept()
    ensures CountChar(SanitizeWith("a<b<c", Illegals), '<') == 1
  {
    IllegalCounts();
    SanitizeCounts("a<b<c", Illegals, '<');
  }

  /** The illegal-character pass with its loop. */
  method Sanitize(s: string) returns (r: string)
    ensures r == SanitizeWith(s, Illegals)
  {
    r := s;
    var i := 0;
    while i < |Illegals|
      invariant 0 <= i <= |Illegals|
      invariant r == SanitizeWith(s, Illegals[..i])
    {
      assert Illegals[..i + 1][..i] == Illegals[..i];
      r := ReplaceFirst(r, [Illegals[i]], "_");
      i := i + 1;
    }
    assert Illegals[..i] == Illegals;
  }

  /** The UTF-16 code units of a character: two for one outside the Basic Multilingual Plane. */
  function Units(c: char): nat {
    if c as int >= 0x1_0000 then 2 else 1
  }

  /** The length of a string as JavaScript counts it, in UTF-16 code units. */
  function UnitLength(s: string): (n: nat)
    ensures |s| <= n <= 2 * |s|
  {
    if s == [] then 0 else Units(s[0]) + UnitLength(s[1..])
  }

  /** The longest prefix of `s` that fits in `budget` code units. */
  function TakeUnits(s: string, budget: nat): (r: string)
    ensures IsPrefix(r, s) && UnitLength(r) <= budget
    ensures UnitLength(s) <= budget ==> r == s
    ensures r != s ==> UnitLength(r) + Units(s[|r|]) > budget
  {
    if s == [] || Units(s[0]) > budget then []
    else
      var rest := TakeUnits(s[1..], budget - Units(s[0]));
      assert ([s[0]] + rest)[1..] == rest;
      assert s[..1 + |rest|] == [s[0]] + s[1..][..|rest|];
      [s[0]] + rest
  }

  /**
   * `substr(0, max)`: the first 200 UTF-16 code units. A cut that would
   * split a surrogate pair keeps the pair out.
   */
  function Truncate(s: string): (r: string)
    ensures UnitLength(r) <= MaxLength && |r| <= MaxLength && IsPrefix(r, s)
    ensures UnitLength(s) <= MaxLength ==> r == s
    ensures r != s ==> MaxLength - 1 <= UnitLength(r)
  {
    TakeUnits(s, MaxLength)
  }

  // ---------------------------------------------------------------------
  // format

  /**
   * `format(renameFormat, context)` with the fallback name as a parameter:
   * an empty template, or a template that substitutes to the empty name,
   * gives the fallback; then illegal characters and length. Placeholders
   * are found with `_` admitted in their keys.
   */
  function FormatSpec(renameFormat: string, context: Context, fallback: string): Result<string, Error> {
    var named :=
      if renameFormat == "" then Success(fallback)
      else match SubstituteAll(renameFormat, Placeholders(renameFormat), context)
        case Failure(e) => Failure(e)
        case Success(name) => Success(if name != "" then name else fallback);
    match named
    case Failure(e) => Failure(e)
    case Success(f) => Success(Truncate(SanitizeWith(f, Illegals)))
  }

  /** `format` as written: `fallback += ''` reads a variable that is declared nowhere, so every call throws. */
  function FormatAsWritten(renameFormat: string, context: Context): (r: Result<string, Error>)
    ensures r.Failure? && r.error.ReferenceError?
  {
    Failure(ReferenceError("fallback is not defined"))
  }

  /**
   * `format`, with the fallback declared as a parameter and `_` admitted in
   * placeholder keys (the corrections of FormatName.js:72 and :77).
   */
  method Format(renameFormat: string, context: Context, fallback: string) returns (r: Result<string, Error>)
    ensures r == FormatSpec(renameFormat, context, fallback)
    ensures r.Success? ==> UnitLength(r.value) <= MaxLength
  {
    var filename := "";
    if renameFormat == "" {
      filename := fallback;
    } else {
      var matches := Placeholders(renameFormat);
      var name := SubstitutePlaceholders(renameFormat, matches, context);
      if name.Failure? {
        return Failure(name.error);
      }
      filename := if name.value != "" then name.value else fallback;
    }
    filename := Sanitize(filename);
    r := Success(Truncate(filename));
  }

  /**
   * A non-empty template without `%` is only cleaned and cut; an empty one
   * gives the cleaned fallback.
   */
  lemma {:induction false} FormatPlain(renameFormat: string, context: Context, fallback: string)
    requires forall k :: 0 <= k < |renameFormat| ==> renameFormat[k] != '%'
    ensures renameFormat != "" ==> FormatSpec(renameFormat, context, fallback) == Success(Truncate(SanitizeWith(renameFormat, Illegals)))
    ensures renameFormat == "" ==> FormatSpec(renameFormat, context, fallback) == Success(Truncate(SanitizeWith(fallback, Illegals)))
  {
    NoPercentNoPlaceholders(renameFormat, 0, true);
  }
}
