/**
 * `PluginManager`: the registry of plugins, split into an internal scope
 * (installed in the plugin folder) and an external scope (loaded
 * temporarily), each a map from plugin id to the plugin instance.
 *
 * A stored instance may be `undefined`: `bootPlugin` swallows a throwing
 * plugin factory and returns nothing, and `reloadPlugin` stores whatever it
 * got. Map values are therefore `Option<Plugin>`.
 *
 * The plugin code itself is outside the model. What `require` gives for an
 * entry file is a parameter (`PluginModule`), `md5` is a function
 * parameter, and each call of a plugin's own `uninstall` is recorded in
 * `uninstalled`; each folder handed to `rimraf` is recorded in
 * `deletedFolders`.
 */
module Plugins {
  import opened Wrappers
  import opened Strings
  import opened Tasks
  import opened DownloadAdapters

  /** What a plugin's factory returns: its title (`""` when it has none) and its URL patterns. */
  datatype PluginInstance = PluginInstance(title: string, patterns: seq<Pattern>)

  /** What `require(file)` gives: an error, a factory that throws, or a factory's instance. */
  datatype PluginModule =
    | Unloadable(error: Error)
    | Throwing
    | Exporting(instance: PluginInstance)

  /** A booted plugin. `providerName` is its `entryFile`. */
  datatype Plugin = Plugin(id: string, title: string, entryFile: string, patterns: seq<Pattern>)

  /** `path.dirname(file)` for the `…/main.js` entry files plugins have. */
  function Dirname(file: string): (dir: string)
    ensures '/' in file ==> IsPrefix(dir, file)
    ensures '/' !in file ==> dir == "."
  {
    match LastIndexOfChar(file, '/')
    case None => "."
    case Some(i) => if i == 0 then "/" else file[..i]
  }

  /** The plugin `bootPlugin` makes of an instance: id from the folder, title defaulting to the file. */
  function Booted(instance: PluginInstance, file: string, md5: string -> string): (p: Plugin)
    ensures p.id == md5(Dirname(file)) && p.entryFile == file && p.patterns == instance.patterns
    ensures p.title == (if instance.title == "" then file else instance.title)
  {
    Plugin(md5(Dirname(file)), if instance.title == "" then file else instance.title, file, instance.patterns)
  }

  /** The adapter's entry for a plugin: the plugin as provider with its patterns. */
  function PluginEntry(p: Plugin): MatchEntry {
    MatchEntry(PluginProvider(p.id), p.patterns)
  }

  /**
   * A plugin's patterns come after every entry already in the table: a
   * link the table already resolved keeps its provider, and the plugin
   * answers only for links nothing else matches, with the first of its
   * patterns that does.
   */
  lemma BootedPatternsComeLast(table: seq<MatchEntry>, p: Plugin, src: string)
    ensures Resolve(table, src).Success? ==> Resolve(table + [PluginEntry(p)], src) == Resolve(table, src)
    ensures Resolve(table, src).Failure? ==>
              (Resolve(table + [PluginEntry(p)], src).Success? <==> exists j :: 0 <= j < |p.patterns| && Match(p.patterns[j], src).Some?)
    ensures Resolve(table, src).Failure? && Resolve(table + [PluginEntry(p)], src).Success? ==>
              Resolve(table + [PluginEntry(p)], src).value.provider == PluginProvider(p.id)
  {
    AppendedEntryIsLast(table, PluginEntry(p), src);
    FirstMatchSpec(p.patterns, src);
    assert [PluginEntry(p)][1..] == [];
  }

  /** The id a stored plugin must carry: its key, and the hash of its folder. */
  predicate WellKeyed(scope: map<string, Option<Plugin>>, md5: string -> string) {
    forall id :: id in scope && scope[id].Some? ==> scope[id].value.id == id && id == md5(Dirname(scope[id].value.entryFile))
  }

  /** `updatePluginInstance` on the two scopes. */
  function UpdateScopes(internal: map<string, Option<Plugin>>, external: map<string, Option<Plugin>>,
                        id: string, plugin: Option<Plugin>, scope: string): (map<string, Option<Plugin>>, map<string, Option<Plugin>>) {
    if id in internal then (internal[id := plugin], external)
    else if id in external then (internal, external[id := plugin])
    else if scope == "internal" then (internal[id := plugin], external)
    else if scope == "external" then (internal, external[id := plugin])
    else (internal, external)
  }

  /**
   * `internal` holds the first `i` loaded plugins: each under its own id,
   * which is the hash of its folder, each id with the last plugin loaded
   * under it, and no other id.
   */
  ghost predicate Registers(installed: seq<Plugin>, i: nat, internal: map<string, Option<Plugin>>, md5: string -> string)
    requires i <= |installed|
  {
    WellKeyed(internal, md5) && Covers(installed, i, internal) && OnlyLoaded(installed, i, internal)
    && LastKept(installed, i, internal)
  }

  /** Every one of the first `i` plugins has its id registered. */
  ghost predicate Covers(installed: seq<Plugin>, i: nat, internal: map<string, Option<Plugin>>)
    requires i <= |installed|
  {
    forall k :: 0 <= k < i ==> installed[k].id in internal
  }

  /** Every registered id is that of one of the first `i` plugins. */
  ghost predicate OnlyLoaded(installed: seq<Plugin>, i: nat, internal: map<string, Option<Plugin>>)
    requires i <= |installed|
  {
    forall id :: id in internal ==> exists k :: 0 <= k < i && installed[k].id == id
  }

  /** A plugin no later one of the first `i` shares its id with is the one stored. */
  ghost predicate LastKept(installed: seq<Plugin>, i: nat, internal: map<string, Option<Plugin>>)
    requires i <= |installed|
  {
    forall k :: 0 <= k < i && NoLaterSameId(installed, k, i) ==>
      installed[k].id in internal && internal[installed[k].id] == Some(installed[k])
  }

  /** No plugin after `k` and before `i` has the id of plugin `k`. */
  predicate NoLaterSameId(installed: seq<Plugin>, k: nat, i: nat)
    requires k < i <= |installed|
  {
    forall j :: k < j < i ==> installed[j].id != installed[k].id
  }

  /** Loading one more plugin keeps `Registers`. */
  lemma RegisterOne(installed: seq<Plugin>, i: nat, internal: map<string, Option<Plugin>>, md5: string -> string)
    requires i < |installed| && Registers(installed, i, internal, md5)
    requires installed[i].id == md5(Dirname(installed[i].entryFile))
    ensures Registers(installed, i + 1, internal[installed[i].id := Some(installed[i])], md5)
  {
    RegisterKeyed(installed[i], internal, md5);
    RegisterCovers(installed, i, internal);
    RegisterOnly(installed, i, internal);
    RegisterLast(installed, i, internal);
  }

  lemma RegisterKeyed(p: Plugin, internal: map<string, Option<Plugin>>, md5: string -> string)
    requires WellKeyed(internal, md5) && p.id == md5(Dirname(p.entryFile))
    ensures WellKeyed(internal[p.id := Some(p)], md5)
  {
  }

  lemma RegisterCovers(installed: seq<Plugin>, i: nat, internal: map<string, Option<Plugin>>)
    requires i < |installed| && Covers(installed, i, internal)
    ensures Covers(installed, i + 1, internal[installed[i].id := Some(installed[i])])
  {
  }

  lemma RegisterOnly(installed: seq<Plugin>, i: nat, internal: map<string, Option<Plugin>>)
    requires i < |installed| && OnlyLoaded(installed, i, internal)
    ensures OnlyLoaded(installed, i + 1, internal[installed[i].id := Some(installed[i])])
  {
    var m := internal[installed[i].id := Some(installed[i])];
    forall id | id in m
      ensures exists k :: 0 <= k < i + 1 && installed[k].id == id
    {
      if id != installed[i].id {
        var k :| 0 <= k < i && installed[k].id == id;
      }
    }
  }

  lemma RegisterLast(installed: seq<Plugin>, i: nat, internal: map<string, Option<Plugin>>)
    requires i < |installed| && LastKept(installed, i, internal)
    ensures LastKept(installed, i + 1, internal[installed[i].id := Some(installed[i])])
  {
    var p := installed[i];
    var m := internal[p.id := Some(p)];
    forall k | 0 <= k < i + 1 && NoLaterSameId(installed, k, i + 1)
      ensures installed[k].id in m && m[installed[k].id] == Some(installed[k])
    {
      if k < i {
        assert installed[i].id != installed[k].id;
        assert NoLaterSameId(installed, k, i);
        assert internal[installed[k].id] == Some(installed[k]);
        assert m[installed[k].id] == internal[installed[k].id];
      } else {
        assert installed[k] == p;
      }
    }
  }

  /** An entry of the plugin folder as `loadPlugin` finds it: no plugin there, or its `main.js` and what requiring it gives. */
  datatype Installed =
    | NotAPlugin(entry: string)
    | PluginFolder(file: string, required: PluginModule)

  /** The error `loadPlugin` throws for an entry that is not a folder with a `main.js`. */
  function LoadError(entry: string): Error {
    Failed("Cannot load plugin from entry " + entry)
  }

  /** The error of `plugin.id` when `bootPlugin` gave `undefined`. */
  const IdOfUndefined := TypeError("Cannot read properties of undefined (reading 'id')")

  /** An entry that boots: a plugin folder whose factory returns an instance. */
  predicate Boots(x: Installed) {
    x.PluginFolder? && x.required.Exporting?
  }

  /** The plugin a booting entry gives. */
  function BootedOf(x: Installed, md5: string -> string): Plugin
    requires Boots(x)
  {
    Booted(x.required.instance, x.file, md5)
  }

  /** What loading an entry that does not boot throws. */
  function BootError(x: Installed): Error
    requires !Boots(x)
  {
    match x
    case NotAPlugin(entry) => LoadError(entry)
    case PluginFolder(_, required) => if required.Unloadable? then required.error else IdOfUndefined
  }

  /** The internal scope, the adapter's table, and the error that ended the loading, if any. */
  datatype Boot = Boot(internal: map<string, Option<Plugin>>, table: seq<MatchEntry>, failure: Option<Error>)

  /**
   * The first `n` turns of `initalPlugins` from scope `internal` and table
   * `table`: a booting entry is stored and appended to the table, the first
   * entry that does not boot ends the loading with its error.
   */
  function BootAll(installed: seq<Installed>, n: nat, md5: string -> string,
                   internal: map<string, Option<Plugin>>, table: seq<MatchEntry>): Boot
    requires n <= |installed|
    decreases n
  {
    if n == 0 then Boot(internal, table, None)
    else
      var b := BootAll(installed, n - 1, md5, internal, table);
      var x := installed[n - 1];
      if b.failure.Some? then b
      else if !Boots(x) then Boot(b.internal, b.table, Some(BootError(x)))
      else
        var p := BootedOf(x, md5);
        Boot(b.internal[p.id := Some(p)], b.table + [PluginEntry(p)], None)
  }

  /** Once an entry has failed, the later entries change nothing. */
  lemma {:induction false} BootAllStaysFailed(installed: seq<Installed>, n: nat, m: nat, md5: string -> string,
                                              internal: map<string, Option<Plugin>>, table: seq<MatchEntry>)
    requires n <= m <= |installed| && BootAll(installed, n, md5, internal, table).failure.Some?
    ensures BootAll(installed, m, md5, internal, table) == BootAll(installed, n, md5, internal, table)
    decreases m
  {
    if m > n {
      BootAllStaysFailed(installed, n, m - 1, md5, internal, table);
    }
  }

  /** The index of the first of the first `n` entries that does not boot, or `n` when they all do. */
  function FirstUnbooted(installed: seq<Installed>, n: nat): (k: nat)
    requires n <= |installed|
    ensures k <= n && (forall i :: 0 <= i < k ==> Boots(installed[i])) && (k < n ==> !Boots(installed[k]))
    decreases n
  {
    if n == 0 then 0
    else if FirstUnbooted(installed, n - 1) < n - 1 || !Boots(installed[n - 1]) then FirstUnbooted(installed, n - 1)
    else n
  }

  /**
   * Loading fails exactly when some entry does not boot, and then with the
   * error of the first such entry, the entries before it booted and
   * appended to the table, and nothing after it.
   */
  lemma {:induction false} BootAllFailure(installed: seq<Installed>, n: nat, md5: string -> string,
                                          internal: map<string, Option<Plugin>>, table: seq<MatchEntry>)
    requires n <= |installed|
    ensures var k := FirstUnbooted(installed, n);
            var b := BootAll(installed, n, md5, internal, table);
            (b.failure.None? <==> k == n)
            && (k < n ==> b == Boot(BootAll(installed, k, md5, internal, table).internal,
                                    BootAll(installed, k, md5, internal, table).table, Some(BootError(installed[k]))))
    decreases n
  {
    if n > 0 {
      BootAllFailure(installed, n - 1, md5, internal, table);
    }
  }

  /** One more entry that boots, after entries that all did. */
  lemma BootOne(installed: seq<Installed>, i: nat, md5: string -> string,
                internal: map<string, Option<Plugin>>, table: seq<MatchEntry>)
    requires i < |installed| && Boots(installed[i]) && BootAll(installed, i, md5, internal, table).failure.None?
    ensures var b := BootAll(installed, i, md5, internal, table);
            var p := BootedOf(installed[i], md5);
            BootAll(installed, i + 1, md5, internal, table) == Boot(b.internal[p.id := Some(p)], b.table + [PluginEntry(p)], None)
  {
  }

  /** The internal scope after storing the first `n` plugins, in order, each under its id. */
  function Registry(plugins: seq<Plugin>, n: nat): map<string, Option<Plugin>>
    requires n <= |plugins|
    decreases n
  {
    if n == 0 then map[] else Registry(plugins, n - 1)[plugins[n - 1].id := Some(plugins[n - 1])]
  }

  /** Stored plugins sit under their own ids, the hashes of their folders. */
  lemma {:induction false} RegistryKeyed(plugins: seq<Plugin>, n: nat, md5: string -> string)
    requires n <= |plugins|
    requires forall i :: 0 <= i < n ==> plugins[i].id == md5(Dirname(plugins[i].entryFile))
    ensures WellKeyed(Registry(plugins, n), md5)
    decreases n
  {
    if n > 0 {
      RegistryKeyed(plugins, n - 1, md5);
      RegisterKeyed(plugins[n - 1], Registry(plugins, n - 1), md5);
    }
  }

  /** Every stored plugin's id is a key. */
  lemma {:induction false} RegistryCovers(plugins: seq<Plugin>, n: nat, md5: string -> string)
    requires n <= |plugins|
    ensures Covers(plugins, n, Registry(plugins, n))
    decreases n
  {
    if n > 0 {
      RegistryCovers(plugins, n - 1, md5);
      RegisterCovers(plugins, n - 1, Registry(plugins, n - 1));
    }
  }

  /** Every key is the id of a stored plugin. */
  lemma {:induction false} RegistryOnly(plugins: seq<Plugin>, n: nat, md5: string -> string)
    requires n <= |plugins|
    ensures OnlyLoaded(plugins, n, Registry(plugins, n))
    decreases n
  {
    if n > 0 {
      RegistryOnly(plugins, n - 1, md5);
      RegisterOnly(plugins, n - 1, Registry(plugins, n - 1));
    }
  }

  /** Each key holds the last plugin stored under it. */
  lemma {:induction false} RegistryLast(plugins: seq<Plugin>, n: nat, md5: string -> string)
    requires n <= |plugins|
    ensures LastKept(plugins, n, Registry(plugins, n))
    decreases n
  {
    if n > 0 {
      RegistryLast(plugins, n - 1, md5);
      RegisterLast(plugins, n - 1, Registry(plugins, n - 1));
    }
  }

  /** Storing plugins that carry the hash of their folder as id registers them. */
  lemma RegistryRegisters(plugins: seq<Plugin>, n: nat, md5: string -> string)
    requires n <= |plugins|
    requires forall i :: 0 <= i < n ==> plugins[i].id == md5(Dirname(plugins[i].entryFile))
    ensures Registers(plugins, n, Registry(plugins, n), md5)
  {
    RegistryKeyed(plugins, n, md5);
    RegistryCovers(plugins, n, md5);
    RegistryOnly(plugins, n, md5);
    RegistryLast(plugins, n, md5);
  }

  /** When every entry boots, the internal scope is the booted plugins stored in folder order. */
  lemma {:induction false} BootAllInternal(installed: seq<Installed>, n: nat, md5: string -> string, table: seq<MatchEntry>,
                                           plugins: seq<Plugin>)
    requires n <= |installed| && n <= |plugins|
    requires forall i :: 0 <= i < n ==> Boots(installed[i]) && plugins[i] == BootedOf(installed[i], md5)
    ensures BootAll(installed, n, md5, map[], table).failure.None?
    ensures BootAll(installed, n, md5, map[], table).internal == Registry(plugins, n)
    decreases n
  {
    if n > 0 {
      BootAllInternal(installed, n - 1, md5, table, plugins);
      BootOne(installed, n - 1, md5, map[], table);
    }
  }

  /**
   * When every entry boots, the internal scope registers the plugins: each
   * under its own id, each id with the last plugin booted under it.
   */
  lemma BootAllRegisters(installed: seq<Installed>, n: nat, md5: string -> string, table: seq<MatchEntry>,
                         plugins: seq<Plugin>)
    requires n <= |installed| && n <= |plugins|
    requires forall i :: 0 <= i < n ==> Boots(installed[i]) && plugins[i] == BootedOf(installed[i], md5)
    ensures BootAll(installed, n, md5, map[], table).failure.None?
    ensures Registers(plugins, n, BootAll(installed, n, md5, map[], table).internal, md5)
  {
    BootAllInternal(installed, n, md5, table, plugins);
    RegistryRegisters(plugins, n, md5);
  }

  /** When every entry boots, the table gains one entry per plugin, in folder order, after the ones it had. */
  lemma {:induction false} BootAllTable(installed: seq<Installed>, n: nat, md5: string -> string,
                                        internal: map<string, Option<Plugin>>, table: seq<MatchEntry>)
    requires n <= |installed|
    requires forall i :: 0 <= i < n ==> Boots(installed[i])
    ensures var b := BootAll(installed, n, md5, internal, table);
            b.failure.None? && |b.table| == |table| + n && b.table[..|table|] == table
            && forall i :: 0 <= i < n ==> b.table[|table| + i] == PluginEntry(BootedOf(installed[i], md5))
    decreases n
  {
    if n > 0 {
      BootAllTable(installed, n - 1, md5, internal, table);
    }
  }

  /**
   * The registry. `Valid`: no id is in both scopes, and each stored plugin
   * sits under its own id.
   */
  class PluginManager {
    var internalPlugins: map<string, Option<Plugin>>
    var externalPlugins: map<string, Option<Plugin>>
    /** The plugins whose own `uninstall` has been called, in order. */
    var uninstalled: seq<Plugin>
    /** The folders handed to `deletePluginAssets`, in order. */
    var deletedFolders: seq<string>
    const md5: string -> string

    predicate Valid()
      reads this
    {
      internalPlugins.Keys !! externalPlugins.Keys
      && WellKeyed(internalPlugins, md5) && WellKeyed(externalPlugins, md5)
    }

    /** An empty registry: the constructor up to its call of `initial()`. */
    constructor (md5: string -> string)
      ensures Valid() && this.md5 == md5
      ensures internalPlugins == map[] && externalPlugins == map[] && uninstalled == [] && deletedFolders == []
    {
      this.md5 := md5;
      internalPlugins := map[];
      externalPlugins := map[];
      uninstalled := [];
      deletedFolders := [];
    }

    /**
     * `initalPlugins`: each entry of the plugin folder, in order, is loaded
     * and booted (its patterns join the adapter's table) and stored under
     * its id in the internal scope. The first entry that does not boot
     * throws: an entry without `main.js`, a `require` that fails, or a
     * factory that throws, whose `undefined` has no `id`. The constructor
     * runs it on the fresh registry, so the external scope is empty.
     */
    method InitalPlugins(installed: seq<Installed>, adapter: DownloadAdapter) returns (r: Result<(), Error>)
      requires Valid() && externalPlugins == map[]
      modifies this, adapter
      ensures Valid()
      ensures var b := BootAll(installed, |installed|, md5, old(internalPlugins), old(adapter.matchMaps));
              internalPlugins == b.internal && adapter.matchMaps == b.table
              && (r.Success? <==> b.failure.None?) && (r.Failure? ==> b.failure == Some(r.error))
      ensures externalPlugins == map[] && uninstalled == old(uninstalled) && deletedFolders == old(deletedFolders)
    {
      ghost var scope0, table0 := internalPlugins, adapter.matchMaps;
      var i := 0;
      while i < |installed|
        invariant i <= |installed| && Valid() && externalPlugins == map[]
        invariant BootAll(installed, i, md5, scope0, table0) == Boot(internalPlugins, adapter.matchMaps, None)
        invariant uninstalled == old(uninstalled) && deletedFolders == old(deletedFolders)
      {
        ghost var b := BootAll(installed, i, md5, scope0, table0);
        var loaded := LoadPlugin(installed[i], md5, adapter);
        if loaded.Failure? {
          assert BootAll(installed, i + 1, md5, scope0, table0) == Boot(b.internal, b.table, Some(loaded.error));
          BootAllStaysFailed(installed, i + 1, |installed|, md5, scope0, table0);
          return Failure(loaded.error);
        }
        var p := loaded.value;
        BootOne(installed, i, md5, scope0, table0);
        RegisterKeyed(p, internalPlugins, md5);
        internalPlugins := internalPlugins[p.id := Some(p)];
        i := i + 1;
      }
      r := Success(());
    }

    /** `getPlugin`: the internal scope first, then the external one; `None` for an id in neither or a stored `undefined`. */
    function GetPlugin(id: string): (r: Option<Plugin>)
      reads this
      ensures r.Some? ==> id in internalPlugins + externalPlugins
      ensures id in internalPlugins ==> r == internalPlugins[id]
      ensures id !in internalPlugins && id in externalPlugins ==> r == externalPlugins[id]
    {
      if id in internalPlugins then internalPlugins[id]
      else if id in externalPlugins then externalPlugins[id]
      else None
    }

    /** `isExternalPlugin`. */
    predicate IsExternalPlugin(plugin: Plugin)
      reads this
    {
      plugin.id in externalPlugins
    }

    /** In a valid registry, a plugin found under `id` has that id. */
    lemma GetPluginKeyed(id: string)
      requires Valid()
      ensures GetPlugin(id).Some? ==> GetPlugin(id).value.id == id
      ensures GetPlugin(id).Some? ==> (IsExternalPlugin(GetPlugin(id).value) <==> id in externalPlugins)
    {
    }

    /**
     * `updatePluginInstance(id, plugin, scope)`: an id already registered
     * stays in its scope; a new id goes to the scope named; any other scope
     * changes nothing.
     */
    method UpdatePluginInstance(id: string, plugin: Option<Plugin>, scope: string)
      requires Valid()
      modifies this
      ensures (plugin.Some? ==> plugin.value.id == id && id == md5(Dirname(plugin.value.entryFile))) ==> Valid()
      ensures (internalPlugins, externalPlugins) == UpdateScopes(old(internalPlugins), old(externalPlugins), id, plugin, scope)
      ensures uninstalled == old(uninstalled) && deletedFolders == old(deletedFolders)
    {
      if id in internalPlugins {
        internalPlugins := internalPlugins[id := plugin];
      } else if id in externalPlugins {
        externalPlugins := externalPlugins[id := plugin];
      } else if scope == "internal" {
        internalPlugins := internalPlugins[id := plugin];
      } else if scope == "external" {
        externalPlugins := externalPlugins[id := plugin];
      }
    }

    /**
     * `removePlugin(id)`: an internal plugin leaves its scope and its folder
     * is deleted; an external one leaves its scope only; either way its own
     * `uninstall` runs. For an unknown id the call of `uninstall` on
     * `undefined` throws; for a stored `undefined` the first use of it
     * throws, after its entry is removed.
     */
    method RemovePlugin(id: string) returns (r: Result<(), Error>)
      requires Valid()
      modifies this
      ensures Valid()
      ensures var p := (if id in old(internalPlugins) then old(internalPlugins)[id]
                        else if id in old(externalPlugins) then old(externalPlugins)[id] else None);
              internalPlugins == old(internalPlugins) - {id}
              && externalPlugins == (if id in old(internalPlugins) then old(externalPlugins) else old(externalPlugins) - {id})
              && deletedFolders == old(deletedFolders)
                   + (if id in old(internalPlugins) && p.Some? then [Dirname(p.value.entryFile)] else [])
              && (p.Some? ==> r == Success(()) && uninstalled == old(uninstalled) + [p.value])
              && (p.None? ==> uninstalled == old(uninstalled)
                              && r == Failure(if id in old(internalPlugins) then FolderOfUndefined else UninstallOfUndefined))
    {
      var plugin: Option<Plugin> := None;
      if id in internalPlugins {
        plugin := internalPlugins[id];
        internalPlugins := internalPlugins - {id};
        if plugin.None? {
          return Failure(FolderOfUndefined);
        }
        deletedFolders := deletedFolders + [Dirname(plugin.value.entryFile)];
      } else if id in externalPlugins {
        plugin := externalPlugins[id];
        externalPlugins := externalPlugins - {id};
      }
      if plugin.None? {
        return Failure(UninstallOfUndefined);
      }
      uninstalled := uninstalled + [plugin.value];
      r := Success(());
    }

    /**
     * `reloadPlugin(id)`: the plugin found under a string id is uninstalled,
     * its entry file required and booted again, and the new instance (or
     * `undefined`, when the factory throws) replaces it in its scope. A
     * non-string id, or one with no plugin, throws `_unable_to_reload_plugin`;
     * a failing `require` throws after `uninstall`.
     */
    method ReloadPlugin(id: JsValue, required: PluginModule, adapter: DownloadAdapter)
      returns (r: Result<Option<Plugin>, Error>)
      requires Valid()
      modifies this, adapter
      ensures Valid()
      ensures deletedFolders == old(deletedFolders)
      ensures var found := if id.JStr? then old(GetPlugin(id.s)) else None;
              (found.None? ==> r == Failure(Failed("_unable_to_reload_plugin"))
                               && unchanged(this) && unchanged(adapter))
              && (found.Some? ==> (uninstalled == old(uninstalled) + [found.value]
                   && match required
                      case Unloadable(e) =>
                        r == Failure(e) && internalPlugins == old(internalPlugins) && externalPlugins == old(externalPlugins)
                        && unchanged(adapter)
                      case Throwing =>
                        r == Success(None) && unchanged(adapter)
                        && (internalPlugins, externalPlugins) == UpdateScopes(old(internalPlugins), old(externalPlugins), id.s, None, "internal")
                      case Exporting(instance) =>
                        var p := Booted(instance, found.value.entryFile, md5);
                        r == Success(Some(p)) && adapter.matchMaps == old(adapter.matchMaps) + [PluginEntry(p)]
                        && (internalPlugins, externalPlugins) == UpdateScopes(old(internalPlugins), old(externalPlugins), id.s, Some(p), "internal")))
    {
      var plugin: Option<Plugin> := None;
      if id.JStr? {
        plugin := GetPlugin(id.s);
      }
      if plugin.None? {
        return Failure(Failed("_unable_to_reload_plugin"));
      }
      uninstalled := uninstalled + [plugin.value];
      var reloaded := CreatePlugin(required, plugin.value.entryFile, md5, adapter);
      if reloaded.Failure? {
        return Failure(reloaded.error);
      }
      UpdatePluginInstance(id.s, reloaded.value, "internal");
      r := reloaded;
    }
  }

  /** The error of `uninstallPlugin(undefined)`, which reads `plugin.entryFile`. */
  const FolderOfUndefined := TypeError("Cannot read properties of undefined (reading 'entryFile')")

  /** The error of calling `uninstall` on `undefined`. */
  const UninstallOfUndefined := TypeError("Cannot read properties of undefined (reading 'uninstall')")

  /**
   * `bootPlugin`: a factory that throws gives `undefined` (after a
   * notification); an instance gets its id, entry file and title, and its
   * patterns join the end of the adapter's table.
   */
  method BootPlugin(instance: Option<PluginInstance>, file: string, md5: string -> string, adapter: DownloadAdapter)
    returns (r: Option<Plugin>)
    modifies adapter
    ensures instance.None? ==> r.None? && unchanged(adapter)
    ensures instance.Some? ==> (r == Some(Booted(instance.value, file, md5))
                                && adapter.matchMaps == old(adapter.matchMaps) + [PluginEntry(r.value)])
  {
    if instance.None? {
      return None;
    }
    var p := Booted(instance.value, file, md5);
    adapter.ExtendMap(PluginProvider(p.id), p.patterns);
    r := Some(p);
  }

  /** `createPlugin(file)`: `require` the file, then boot what it exports. */
  method CreatePlugin(required: PluginModule, file: string, md5: string -> string, adapter: DownloadAdapter)
    returns (r: Result<Option<Plugin>, Error>)
    modifies adapter
    ensures required.Unloadable? ==> r == Failure(required.error) && unchanged(adapter)
    ensures required.Throwing? ==> r == Success(None) && unchanged(adapter)
    ensures required.Exporting? ==> (r == Success(Some(Booted(required.instance, file, md5)))
                                     && adapter.matchMaps == old(adapter.matchMaps) + [PluginEntry(r.value.value)])
  {
    match required
    case Unloadable(e) =>
      return Failure(e);
    case Throwing =>
      var p := BootPlugin(None, file, md5, adapter);
      return Success(p);
    case Exporting(instance) =>
      var p := BootPlugin(Some(instance), file, md5, adapter);
      return Success(p);
  }

  /**
   * `loadPlugin(entry)`: the plugin an entry of the plugin folder boots,
   * its patterns appended to the adapter's table; the error of an entry
   * that does not boot, including the `plugin.id` of an `undefined`
   * instance that follows it in `initalPlugins`.
   */
  method LoadPlugin(x: Installed, md5: string -> string, adapter: DownloadAdapter) returns (r: Result<Plugin, Error>)
    modifies adapter
    ensures Boots(x) ==> r == Success(BootedOf(x, md5)) && adapter.matchMaps == old(adapter.matchMaps) + [PluginEntry(r.value)]
    ensures !Boots(x) ==> r == Failure(BootError(x)) && adapter.matchMaps == old(adapter.matchMaps)
  {
    if x.NotAPlugin? {
      return Failure(LoadError(x.entry));
    }
    var created := CreatePlugin(x.required, x.file, md5, adapter);
    if created.Failure? {
      return Failure(created.error);
    }
    if created.value.None? {
      return Failure(IdOfUndefined);
    }
    r := Success(created.value.value);
  }

  /**
   * `new PluginManager(app)`: an empty registry that then loads the plugin
   * folder. When an entry does not boot the constructor throws and no
   * registry is made, though the plugins booted before it keep their
   * patterns in the adapter's table.
   */
  method NewPluginManager(md5: string -> string, installed: seq<Installed>, adapter: DownloadAdapter)
    returns (r: Result<PluginManager, Error>)
    modifies adapter
    ensures var b := BootAll(installed, |installed|, md5, map[], old(adapter.matchMaps));
            adapter.matchMaps == b.table
            && (r.Success? <==> b.failure.None?) && (r.Failure? ==> b.failure == Some(r.error))
            && (r.Success? ==> fresh(r.value) && r.value.Valid() && r.value.md5 == md5
                               && r.value.internalPlugins == b.internal && r.value.externalPlugins == map[]
                               && r.value.uninstalled == [] && r.value.deletedFolders == [])
  {
    var pm := new PluginManager(md5);
    var loaded := pm.InitalPlugins(installed, adapter);
    if loaded.Failure? {
      return Failure(loaded.error);
    }
    r := Success(pm);
  }

  /**
   * `updatePluginInstance` keeps the registry valid for a plugin stored
   * under its own id: the id lands in one scope only, where `getPlugin`
   * then finds it (when the scope is known), and every other id is
   * untouched.
   */
  lemma UpdateScopesSpec(internal: map<string, Option<Plugin>>, external: map<string, Option<Plugin>>,
                         id: string, plugin: Option<Plugin>, scope: string, md5: string -> string, other: string)
    requires internal.Keys !! external.Keys && WellKeyed(internal, md5) && WellKeyed(external, md5)
    requires plugin.Some? ==> plugin.value.id == id && id == md5(Dirname(plugin.value.entryFile))
    requires other != id
    ensures var (i2, e2) := UpdateScopes(internal, external, id, plugin, scope);
            i2.Keys !! e2.Keys && WellKeyed(i2, md5) && WellKeyed(e2, md5)
            && (id in internal + external || scope == "internal" || scope == "external" ==>
                  (if id in i2 then i2[id] else e2[id]) == plugin)
            && (id in internal ==> id in i2) && (id in external ==> id in e2)
            && (other in i2 <==> other in internal) && (other in i2 ==> i2[other] == internal[other])
            && (other in e2 <==> other in external) && (other in e2 ==> e2[other] == external[other])
  {
  }

  /** Reloading a plugin keeps its id and entry file, and its scope. */
  lemma ReloadKeepsIdentity(internal: map<string, Option<Plugin>>, external: map<string, Option<Plugin>>,
                            id: string, instance: PluginInstance, md5: string -> string)
    requires internal.Keys !! external.Keys && WellKeyed(internal, md5) && WellKeyed(external, md5)
    requires id in internal && internal[id].Some?
    ensures var p := Booted(instance, internal[id].value.entryFile, md5);
            p.id == id && p.entryFile == internal[id].value.entryFile
            && UpdateScopes(internal, external, id, Some(p), "internal") == (internal[id := Some(p)], external)
  {
  }

  /** Removing an id leaves it in neither scope. */
  lemma RemovedIsGone(internal: map<string, Option<Plugin>>, external: map<string, Option<Plugin>>, id: string)
    requires internal.Keys !! external.Keys
    ensures var e2 := if id in internal then external else external - {id};
            id !in internal - {id} && id !in e2
  {
  }
}
