/**
 * `SettingStorage`: the application's settings object. Loading picks the
 * user-data file or the installation file by the mode each declares;
 * `setSettings` keeps only the keys the settings already define, rebuilds
 * rename rules, save folders and relative folders, and overwrites exactly
 * the kept keys.
 *
 * The loaded settings object and the default settings object are one and
 * the same object (`Object.assign(defaultSettings, ...)` and
 * `this.settings = defaultSettings`), so the default `saveTo` that
 * `rebuildSaveTo` falls back on is the current one. The class therefore
 * holds a single map.
 *
 * The file system is a parameter: the loaded files, and whether
 * `ensureDirSync` succeeds on a folder. `FormatName.replaceIllegalChars`,
 * which the rename rebuilders call, is not defined by `FormatName`, so the
 * call throws a TypeError. The cleaner is therefore an optional parameter:
 * `None` is the system as it stands, where every rename rule throws;
 * `Some(clean)` is the cleaner the rebuilders evidently expect.
 */
module Settings {
  import opened Wrappers
  import opened Strings
  import opened Tasks
  import opened OrderedMaps

  const MultipleUserMode := 1
  const SingleUserMode := 2

  // ---------------------------------------------------------------------
  // Which keys are rebuilt

  predicate NeedCheckAndRebuildSaveWorkToRelative(key: string) {
    key == "saveIllustrationToRelativeFolder" || key == "saveUgoiraToRelativeFolder" || key == "saveMangaToRelativeFolder"
  }

  predicate NeedCheckAndRebuildWorkRenameRuleSetting(key: string) {
    key == "illustrationRename" || key == "mangaRename" || key == "ugoiraRename"
  }

  predicate NeedCheckPageNumAndRebuild(key: string) {
    key == "illustrationRename" || key == "mangaRename"
  }

  predicate NeedCheckAndRebuildWorkImageRenameRuleSetting(key: string) {
    key == "illustrationImageRename" || key == "mangaImageRename"
  }

  predicate NeedCheckAndRebuildSaveToSetting(key: string) {
    key == "saveTo"
  }

  // ---------------------------------------------------------------------
  // rebuildSaveWorkToRelative

  /** `folder.replace(/\/+/g, '/')`: every run of `/` becomes a single `/`. */
  function CollapseSlashes(s: string): string
    decreases |s|
  {
    if s == [] then []
    else if |s| >= 2 && s[0] == '/' && s[1] == '/' then CollapseSlashes(s[1..])
    else [s[0]] + CollapseSlashes(s[1..])
  }

  /** No two `/` in a row. */
  predicate NoDoubleSlash(s: string) {
    forall i :: 0 <= i < |s| - 1 ==> !(s[i] == '/' && s[i + 1] == '/')
  }

  /** The string without its `/` characters. */
  function WithoutSlashes(s: string): string
    decreases |s|
  {
    if s == [] then [] else (if s[0] == '/' then [] else [s[0]]) + WithoutSlashes(s[1..])
  }

  /** Collapsing starts with `/` exactly when the folder does. */
  lemma {:induction false} CollapseHead(s: string)
    ensures CollapseSlashes(s) != [] <==> s != []
    ensures s != [] ==> CollapseSlashes(s)[0] == s[0]
    decreases |s|
  {
    if |s| >= 2 && s[0] == '/' && s[1] == '/' {
      CollapseHead(s[1..]);
    }
  }

  /**
   * The rebuilt relative folder has no `//`, keeps every other character in
   * order, and contains `/` exactly when the folder does; rebuilding it
   * again changes nothing.
   */
  lemma {:induction false} CollapseSlashesSpec(s: string)
    ensures NoDoubleSlash(CollapseSlashes(s))
    ensures WithoutSlashes(CollapseSlashes(s)) == WithoutSlashes(s)
    ensures '/' in CollapseSlashes(s) <==> '/' in s
    ensures CollapseSlashes(CollapseSlashes(s)) == CollapseSlashes(s)
    decreases |s|
  {
    if s != [] {
      CollapseSlashesSpec(s[1..]);
      CollapseHead(s[1..]);
      var t := CollapseSlashes(s[1..]);
      if |s| >= 2 && s[0] == '/' && s[1] == '/' {
        assert WithoutSlashes(s) == WithoutSlashes(s[1..]);
        assert '/' in s[1..];
      } else {
        var r := [s[0]] + t;
        assert r[1..] == t;
        assert forall i :: 1 <= i < |r| - 1 ==> r[i] == t[i - 1] && r[i + 1] == t[i];
        assert WithoutSlashes(r) == (if s[0] == '/' then [] else [s[0]]) + WithoutSlashes(t);
        assert '/' in s <==> s[0] == '/' || '/' in s[1..] by {
          assert s == [s[0]] + s[1..];
        }
        assert '/' in r <==> s[0] == '/' || '/' in t;
        assert |r| >= 2 ==> r[1] == s[1];
      }
    }
  }

  // ---------------------------------------------------------------------
  // Rename rules

  /** `.replace(/^\//g, '').replace(/\/$/g, '')`: one leading `/`, then one trailing `/`, removed. */
  function StripSlashes(s: string): (r: string) {
    var a := if |s| > 0 && s[0] == '/' then s[1..] else s;
    if |a| > 0 && a[|a| - 1] == '/' then a[..|a| - 1] else a
  }

  /** At most one `/` is removed at each end, and nothing else. */
  lemma StripSlashesSpec(s: string)
    ensures exists lead: string, trail: string :: (lead == "" || lead == "/") && (trail == "" || trail == "/")
                                                 && s == lead + StripSlashes(s) + trail
  {
    var a := if |s| > 0 && s[0] == '/' then s[1..] else s;
    var lead := if |s| > 0 && s[0] == '/' then "/" else "";
    assert s == lead + a;
    var trail := if |a| > 0 && a[|a| - 1] == '/' then "/" else "";
    assert a == StripSlashes(s) + trail;
    assert s == lead + StripSlashes(s) + trail;
  }

  /** A rule that has no `%` after stripping (or nothing at all) becomes `%id%`. */
  function RuleOrId(rule: string): string {
    if |rule| == 0 || '%' !in rule then "%id%" else rule
  }

  /**
   * `rebuildWorkRenameRule(rule, key)`, with `replaceIllegalChars` already
   * applied to the rule (`cleaned`): strip, default to `%id%`, and for the
   * illustration and manga rules append `p%page_num%` when missing.
   */
  function RebuildWorkRenameRule(cleaned: string, key: string): string {
    var rule := RuleOrId(StripSlashes(cleaned));
    if NeedCheckPageNumAndRebuild(key) && !Contains(rule, "%page_num%") then rule + "p%page_num%" else rule
  }

  /** `rebuildWorkImageRenameRule(rule)`, likewise, appending `_p%page_num%` when missing. */
  function RebuildWorkImageRenameRule(cleaned: string): string {
    var rule := RuleOrId(StripSlashes(cleaned));
    if !Contains(rule, "%page_num%") then rule + "_p%page_num%" else rule
  }

  /** `rule + tail` contains `%page_num%` when `tail` ends with it. */
  lemma AppendedPageNum(rule: string, tail: string)
    requires IsSuffix("%page_num%", tail)
    ensures Contains(rule + tail, "%page_num%")
  {
    var s := rule + tail;
    var i := |s| - 10;
    assert s[i..i + 10] == tail[|tail| - 10..];
    assert OccursAt(s, "%page_num%", i);
  }

  /** `RuleOrId` always holds a `%`. */
  lemma RuleOrIdHasPercent(rule: string)
    ensures '%' in RuleOrId(rule)
  {
    if |rule| == 0 || '%' !in rule {
      assert "%id%"[0] == '%';
    }
  }

  /**
   * A rebuilt rename rule always holds `%`; the illustration and manga rules
   * always hold `%page_num%`; the ugoira rule never gets it appended.
   */
  lemma WorkRenameRuleSpec(cleaned: string, key: string)
    ensures '%' in RebuildWorkRenameRule(cleaned, key)
    ensures NeedCheckPageNumAndRebuild(key) ==> Contains(RebuildWorkRenameRule(cleaned, key), "%page_num%")
    ensures key == "ugoiraRename" ==> RebuildWorkRenameRule(cleaned, key) == RuleOrId(StripSlashes(cleaned))
  {
    var rule := RuleOrId(StripSlashes(cleaned));
    RuleOrIdHasPercent(StripSlashes(cleaned));
    if NeedCheckPageNumAndRebuild(key) && !Contains(rule, "%page_num%") {
      AppendedPageNum(rule, "p%page_num%");
      assert rule[0..] == rule;
      assert '%' in rule + "p%page_num%";
    }
  }

  /** A rebuilt image rename rule always holds `%page_num%`, and so `%`. */
  lemma WorkImageRenameRuleSpec(cleaned: string)
    ensures Contains(RebuildWorkImageRenameRule(cleaned), "%page_num%")
    ensures '%' in RebuildWorkImageRenameRule(cleaned)
  {
    var rule := RuleOrId(StripSlashes(cleaned));
    RuleOrIdHasPercent(StripSlashes(cleaned));
    if !Contains(rule, "%page_num%") {
      AppendedPageNum(rule, "_p%page_num%");
      assert '%' in rule + "_p%page_num%";
    }
  }

  /** A rule that already holds `%page_num%` (and so `%`) only loses its end slashes. */
  lemma ImageRuleKept(cleaned: string)
    requires Contains(StripSlashes(cleaned), "%page_num%")
    ensures RebuildWorkImageRenameRule(cleaned) == StripSlashes(cleaned)
  {
    var s := StripSlashes(cleaned);
    var i: nat :| i <= |s| && OccursAt(s, "%page_num%", i);
    assert s[i] == "%page_num%"[0];
  }

  /** What calling the missing `FormatName.replaceIllegalChars` throws. */
  const MissingCleaner := TypeError("FormatName.replaceIllegalChars is not a function")

  // ---------------------------------------------------------------------
  // setSettings

  /**
   * The value `setSettings` stores for one key it keeps: rename rules,
   * image rename rules, the save folder and relative folders are rebuilt;
   * any other value is kept. Without a cleaner a rename rule throws, as the
   * call of the missing `replaceIllegalChars` does; `ensureDir` stands for
   * the folder creation; a relative folder that is not a string has no
   * `replace`.
   */
  function Rebuild(settings: Options, key: string, v: JsValue,
                   cleaner: Option<JsValue -> string>, ensureDir: JsValue -> bool): Result<JsValue, Error> {
    if NeedCheckAndRebuildWorkRenameRuleSetting(key) then
      match cleaner
      case None => Failure(MissingCleaner)
      case Some(clean) => Success(JStr(RebuildWorkRenameRule(clean(v), key)))
    else if NeedCheckAndRebuildWorkImageRenameRuleSetting(key) then
      match cleaner
      case None => Failure(MissingCleaner)
      case Some(clean) => Success(JStr(RebuildWorkImageRenameRule(clean(v))))
    else if NeedCheckAndRebuildSaveToSetting(key) then Success(if ensureDir(v) then v else Prop(settings, "saveTo"))
    else if NeedCheckAndRebuildSaveWorkToRelative(key) then
      match v
      case JStr(folder) => Success(JStr(CollapseSlashes(folder)))
      case _ => Failure(TypeError("folder.replace is not a function"))
    else Success(v)
  }

  /** A key the current settings define (`this.settings[key] !== undefined`), as an own property only: names inherited from `Object.prototype` count as unknown here. */
  predicate Known(settings: Options, key: string) {
    Prop(settings, key) != JUndefined
  }

  /**
   * The `for (let key in settings)` loop over `input`: the entries it keeps
   * (known keys, rebuilt values), in order; the first rebuild that throws
   * ends it.
   */
  function Kept(settings: Options, input: seq<Entry<string, JsValue>>,
                cleaner: Option<JsValue -> string>, ensureDir: JsValue -> bool): Result<seq<Entry<string, JsValue>>, Error>
    decreases |input|
  {
    if input == [] then Success([])
    else
      match Kept(settings, input[..|input| - 1], cleaner, ensureDir)
      case Failure(e) => Failure(e)
      case Success(ks) =>
        var e := input[|input| - 1];
        if !Known(settings, e.key) then Success(ks)
        else match Rebuild(settings, e.key, e.value, cleaner, ensureDir)
          case Failure(err) => Failure(err)
          case Success(v) => Success(ks + [Entry(e.key, v)])
  }

  /** The keys of `keys` the settings define, in order. */
  function KnownKeys(settings: Options, keys: seq<string>): seq<string>
    decreases |keys|
  {
    if keys == [] then []
    else KnownKeys(settings, keys[..|keys| - 1]) + (if Known(settings, keys[|keys| - 1]) then [keys[|keys| - 1]] else [])
  }

  /** `e` is the rebuilt form of some entry of `input`. */
  predicate RebuiltFrom(settings: Options, input: seq<Entry<string, JsValue>>, e: Entry<string, JsValue>,
                        cleaner: Option<JsValue -> string>, ensureDir: JsValue -> bool) {
    exists j :: 0 <= j < |input| && input[j].key == e.key
                && Success(e.value) == Rebuild(settings, input[j].key, input[j].value, cleaner, ensureDir)
  }

  /** `oldSettings`: the current value of every kept key, and of no other. */
  function OldValues(settings: Options, kept: seq<Entry<string, JsValue>>): Options {
    map k | k in Keys(kept) :: Prop(settings, k)
  }

  /** `Object.assign(this.settings, settings)`: each kept entry in order. */
  function Assign(settings: Options, kept: seq<Entry<string, JsValue>>): Options
    decreases |kept|
  {
    if kept == [] then settings
    else Assign(settings, kept[..|kept| - 1])[kept[|kept| - 1].key := kept[|kept| - 1].value]
  }

  /**
   * `setSettings` keeps exactly the known keys of the input, in order, each
   * with its rebuilt value; when it succeeds, the settings change on exactly
   * those keys, to those values.
   */
  lemma {:induction false} KeptSpec(settings: Options, input: seq<Entry<string, JsValue>>,
                                    cleaner: Option<JsValue -> string>, ensureDir: JsValue -> bool)
    requires Kept(settings, input, cleaner, ensureDir).Success?
    ensures var ks := Kept(settings, input, cleaner, ensureDir).value;
            Keys(ks) == KnownKeys(settings, Keys(input))
            && (forall i :: 0 <= i < |ks| ==> RebuiltFrom(settings, input, ks[i], cleaner, ensureDir))
    decreases |input|
  {
    if input != [] {
      var init := input[..|input| - 1];
      KeptSpec(settings, init, cleaner, ensureDir);
      assert Keys(input) == Keys(init) + [input[|input| - 1].key];
      assert Keys(input)[..|input| - 1] == Keys(init);
      var ks := Kept(settings, init, cleaner, ensureDir).value;
      var e := input[|input| - 1];
      if Known(settings, e.key) {
        var v := Rebuild(settings, e.key, e.value, cleaner, ensureDir).value;
        assert Keys(ks + [Entry(e.key, v)]) == Keys(ks) + [e.key];
        var ks2 := ks + [Entry(e.key, v)];
        forall i | 0 <= i < |ks2|
          ensures RebuiltFrom(settings, input, ks2[i], cleaner, ensureDir)
        {
          if i < |ks| {
            assert RebuiltFrom(settings, init, ks[i], cleaner, ensureDir);
            var j :| 0 <= j < |init| && init[j].key == ks[i].key
                     && Success(ks[i].value) == Rebuild(settings, init[j].key, init[j].value, cleaner, ensureDir);
            assert input[j] == init[j];
          } else {
            assert ks2[i] == Entry(e.key, v);
            assert input[|input| - 1] == e;
          }
        }
      }
    }
  }

  /** After `Object.assign`, a key no kept entry names is unchanged. */
  lemma {:induction false} AssignOther(settings: Options, kept: seq<Entry<string, JsValue>>, k: string)
    requires k !in Keys(kept)
    ensures Prop(Assign(settings, kept), k) == Prop(settings, k)
    decreases |kept|
  {
    if kept != [] {
      var init := kept[..|kept| - 1];
      assert Keys(kept) == Keys(init) + [kept[|kept| - 1].key];
      AssignOther(settings, init, k);
    }
  }

  /** After `Object.assign` of entries with distinct keys, each kept key holds its kept value. */
  lemma {:induction false} AssignKept(settings: Options, kept: seq<Entry<string, JsValue>>, i: nat)
    requires DistinctKeys(kept) && i < |kept|
    ensures Prop(Assign(settings, kept), kept[i].key) == kept[i].value
    decreases |kept|
  {
    var init := kept[..|kept| - 1];
    if i < |kept| - 1 {
      AssignKept(settings, init, i);
    }
  }

  /** The keys of a result of `Kept` are keys of the input, so they are distinct when the input's are. */
  lemma KeptDistinct(settings: Options, input: seq<Entry<string, JsValue>>,
                     cleaner: Option<JsValue -> string>, ensureDir: JsValue -> bool)
    requires DistinctKeys(input) && Kept(settings, input, cleaner, ensureDir).Success?
    ensures DistinctKeys(Kept(settings, input, cleaner, ensureDir).value)
  {
    KeptSpec(settings, input, cleaner, ensureDir);
    KnownKeysDistinct(settings, Keys(input));
    var ks := Kept(settings, input, cleaner, ensureDir).value;
    assert forall i :: 0 <= i < |ks| ==> ks[i].key == Keys(ks)[i];
  }

  /**
   * The effect of a `setSettings` that succeeds, key by key: a key of the
   * input the settings define now holds the rebuilt input value; every other
   * key keeps its value.
   */
  lemma SetSettingsEffect(settings: Options, input: seq<Entry<string, JsValue>>,
                          cleaner: Option<JsValue -> string>, ensureDir: JsValue -> bool, k: string)
    requires DistinctKeys(input) && Kept(settings, input, cleaner, ensureDir).Success?
    ensures var after := Assign(settings, Kept(settings, input, cleaner, ensureDir).value);
            (k !in KnownKeys(settings, Keys(input)) ==> Prop(after, k) == Prop(settings, k))
            && forall i :: 0 <= i < |input| && input[i].key == k && Known(settings, k)
                 ==> Success(Prop(after, k)) == Rebuild(settings, k, input[i].value, cleaner, ensureDir)
  {
    var ks := Kept(settings, input, cleaner, ensureDir).value;
    KeptSpec(settings, input, cleaner, ensureDir);
    KeptDistinct(settings, input, cleaner, ensureDir);
    if k !in KnownKeys(settings, Keys(input)) {
      AssignOther(settings, ks, k);
    }
    forall i | 0 <= i < |input| && input[i].key == k && Known(settings, k)
      ensures Success(Prop(Assign(settings, ks), k)) == Rebuild(settings, k, input[i].value, cleaner, ensureDir)
    {
      KnownKeysHas(settings, Keys(input), i);
      var n :| 0 <= n < |ks| && Keys(ks)[n] == k;
      AssignKept(settings, ks, n);
      assert RebuiltFrom(settings, input, ks[n], cleaner, ensureDir);
      var j :| 0 <= j < |input| && input[j].key == ks[n].key
               && Success(ks[n].value) == Rebuild(settings, input[j].key, input[j].value, cleaner, ensureDir);
      assert j == i;
    }
  }

  /** A known key of the list survives the filter. */
  lemma {:induction false} KnownKeysHas(settings: Options, keys: seq<string>, i: nat)
    requires i < |keys| && Known(settings, keys[i])
    ensures keys[i] in KnownKeys(settings, keys)
    decreases |keys|
  {
    if i < |keys| - 1 {
      KnownKeysHas(settings, keys[..|keys| - 1], i);
    }
  }

  /** Filtering distinct keys keeps them distinct and draws only on them. */
  lemma {:induction false} KnownKeysDistinct(settings: Options, keys: seq<string>)
    requires forall i, j :: 0 <= i < j < |keys| ==> keys[i] != keys[j]
    ensures var r := KnownKeys(settings, keys);
            (forall i, j :: 0 <= i < j < |r| ==> r[i] != r[j]) && forall x :: x in r ==> x in keys && Known(settings, x)
    decreases |keys|
  {
    if keys != [] {
      var init := keys[..|keys| - 1];
      KnownKeysDistinct(settings, init);
    }
  }

  /**
   * The settings object. `settings` is also what `getDefaultSettings`
   * returns, the two being one object.
   */
  class SettingStorage {
    var settings: Options

    /**
     * `initialSettings`: the user-data file when it declares
     * `singleUserMode === false`, else the installation file when it
     * declares `singleUserMode === true`, each laid over the defaults;
     * otherwise the defaults.
     */
    constructor (userFile: Option<Options>, installationFile: Option<Options>, defaults: Options)
      ensures settings == InitialSettings(userFile, installationFile, defaults)
    {
      if userFile.Some? && Prop(userFile.value, "singleUserMode") == JBool(false) {
        settings := defaults + userFile.value;
      } else if installationFile.Some? && Prop(installationFile.value, "singleUserMode") == JBool(true) {
        settings := defaults + installationFile.value;
      } else {
        settings := defaults;
      }
    }

    /** `getSetting(key)`. */
    function GetSetting(key: string): JsValue
      reads this
    {
      Prop(settings, key)
    }

    /** `getUserMode`: single-user mode (2) exactly when `singleUserMode` is truthy, else multi-user mode (1). */
    function GetUserMode(): (mode: int)
      reads this
      ensures mode == SingleUserMode || mode == MultipleUserMode
      ensures mode == SingleUserMode <==> Truthy(GetSetting("singleUserMode"))
    {
      if Truthy(GetSetting("singleUserMode")) then SingleUserMode else MultipleUserMode
    }

    /**
     * `setSettings(input)`: the kept entries (what it returns and emits) and
     * the old values of their keys; the settings change on the kept keys
     * only. When a rebuild throws, nothing changes.
     */
    method SetSettings(input: seq<Entry<string, JsValue>>,
                       cleaner: Option<JsValue -> string>, ensureDir: JsValue -> bool)
      returns (r: Result<(seq<Entry<string, JsValue>>, Options), Error>)
      requires DistinctKeys(input)
      modifies this
      ensures var k := Kept(old(settings), input, cleaner, ensureDir);
              (k.Failure? ==> r == Failure(k.error) && settings == old(settings))
              && (k.Success? ==> r == Success((k.value, OldValues(old(settings), k.value)))
                                 && settings == Assign(old(settings), k.value))
    {
      r := CollectKept(settings, input, cleaner, ensureDir);
      if r.Success? {
        settings := Assign(settings, r.value.0);
      }
    }
  }

  /**
   * The loop of `setSettings` over `input`, against the current settings:
   * the kept entries and the old values of their keys, or the error of the
   * first rebuild that throws.
   */
  method CollectKept(settings: Options, input: seq<Entry<string, JsValue>>,
                     cleaner: Option<JsValue -> string>, ensureDir: JsValue -> bool)
    returns (r: Result<(seq<Entry<string, JsValue>>, Options), Error>)
    ensures var k := Kept(settings, input, cleaner, ensureDir);
            (k.Failure? ==> r == Failure(k.error))
            && (k.Success? ==> r == Success((k.value, OldValues(settings, k.value))))
  {
    var kept := [];
    var oldSettings := map[];
    var i := 0;
    while i < |input|
      invariant 0 <= i <= |input|
      invariant Kept(settings, input[..i], cleaner, ensureDir) == Success(kept)
      invariant oldSettings == OldValues(settings, kept)
    {
      assert input[..i + 1][..i] == input[..i];
      var key := input[i].key;
      if Prop(settings, key) != JUndefined {
        var v := Rebuild(settings, key, input[i].value, cleaner, ensureDir);
        if v.Failure? {
          FailureStops(settings, input, cleaner, ensureDir, i + 1);
          return Failure(v.error);
        }
        assert Keys(kept + [Entry(key, v.value)]) == Keys(kept) + [key];
        kept := kept + [Entry(key, v.value)];
        oldSettings := oldSettings[key := Prop(settings, key)];
      }
      i := i + 1;
    }
    assert input[..i] == input;
    r := Success((kept, oldSettings));
  }

  /** A rebuild that throws on a prefix of the input ends the whole loop with that error. */
  lemma {:induction false} FailureStops(settings: Options, input: seq<Entry<string, JsValue>>,
                                        cleaner: Option<JsValue -> string>, ensureDir: JsValue -> bool, j: nat)
    requires j <= |input| && Kept(settings, input[..j], cleaner, ensureDir).Failure?
    ensures Kept(settings, input, cleaner, ensureDir) == Kept(settings, input[..j], cleaner, ensureDir)
    decreases |input|
  {
    if j == |input| {
      assert input[..j] == input;
    } else {
      var init := input[..|input| - 1];
      assert init[..j] == input[..j];
      FailureStops(settings, init, cleaner, ensureDir, j);
    }
  }

  /** Every error a rebuild throws is a TypeError, so every error the loop ends with is one. */
  lemma {:induction false} KeptErrorIsTypeError(settings: Options, input: seq<Entry<string, JsValue>>,
                                                cleaner: Option<JsValue -> string>, ensureDir: JsValue -> bool)
    ensures Kept(settings, input, cleaner, ensureDir).Failure? ==> Kept(settings, input, cleaner, ensureDir).error.TypeError?
    decreases |input|
  {
    if input != [] {
      KeptErrorIsTypeError(settings, input[..|input| - 1], cleaner, ensureDir);
    }
  }

  /**
   * As the system stands, with no cleaner, `setSettings` throws a TypeError
   * whenever the input names a rename rule the settings define, and so
   * changes nothing.
   */
  lemma SetSettingsThrowsWithoutCleaner(settings: Options, input: seq<Entry<string, JsValue>>,
                                        ensureDir: JsValue -> bool, i: nat)
    requires i < |input| && Known(settings, input[i].key)
    requires NeedCheckAndRebuildWorkRenameRuleSetting(input[i].key) || NeedCheckAndRebuildWorkImageRenameRuleSetting(input[i].key)
    ensures Kept(settings, input, None, ensureDir).Failure?
    ensures Kept(settings, input, None, ensureDir).error.TypeError?
  {
    var pre := input[..i + 1];
    assert pre[..i] == input[..i] && pre[i] == input[i];
    assert Kept(settings, pre, None, ensureDir).Failure?;
    FailureStops(settings, input, None, ensureDir, i + 1);
    KeptErrorIsTypeError(settings, input, None, ensureDir);
  }

  /** What `initialSettings` loads. */
  function InitialSettings(userFile: Option<Options>, installationFile: Option<Options>, defaults: Options): Options {
    if userFile.Some? && Prop(userFile.value, "singleUserMode") == JBool(false) then defaults + userFile.value
    else if installationFile.Some? && Prop(installationFile.value, "singleUserMode") == JBool(true) then defaults + installationFile.value
    else defaults
  }

  /**
   * Settings loaded from a file run in the mode of the folder they came
   * from: multi-user from the user-data file, single-user from the
   * installation file; with neither, the defaults' own mode.
   */
  lemma InitialMode(userFile: Option<Options>, installationFile: Option<Options>, defaults: Options)
    ensures var s := InitialSettings(userFile, installationFile, defaults);
            (userFile.Some? && Prop(userFile.value, "singleUserMode") == JBool(false) ==> !Truthy(Prop(s, "singleUserMode")))
            && (s != defaults ==> Prop(s, "singleUserMode").JBool?)
            && (!(userFile.Some? && Prop(userFile.value, "singleUserMode") == JBool(false))
                && installationFile.Some? && Prop(installationFile.value, "singleUserMode") == JBool(true)
                ==> Truthy(Prop(s, "singleUserMode")))
  {
  }
}
