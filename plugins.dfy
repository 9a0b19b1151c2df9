/** The plugin registry of an epm repository (lib/epm/epm-plugins.js):
    plugins are registered by name through the module loader, and package
    engines are looked up by the extensions they serve. */
module Plugins {
  import opened Wrappers
  import Paths

  /** What `require(pname)` exposes: the plugin's type, version and the
      file extensions it serves. */
  datatype PluginModule = PluginModule(kind: string, version: string, files: seq<string>)

  /** One registered plugin record `{name, type, version, files}`. */
  datatype Plugin = Plugin(name: string, kind: string, version: string, files: seq<string>)

  const EngineKind := "epm-package-engine"

  /** The plugins file: absent, without an `installeds` list, or with one. */
  datatype PluginsFile = Missing | NoInstalleds | Installeds(names: seq<string>)

  /** The records that registering `names` in order appends; a name the
      loader cannot resolve adds nothing. */
  function Registered(names: seq<string>, require: string -> Option<PluginModule>): (r: seq<Plugin>)
    ensures |r| <= |names|
    ensures forall p :: p in r ==> p.name in names && require(p.name).Some?
    ensures forall n :: n in names && require(n).Some? ==>
      var m := require(n).value; Plugin(n, m.kind, m.version, m.files) in r
    decreases |names|
  {
    if names == [] then []
    else
      var n := names[|names| - 1];
      var init := Registered(names[..|names| - 1], require);
      assert forall x :: x in names ==> x in names[..|names| - 1] || x == n;
      match require(n)
      case None => init
      case Some(m) => init + [Plugin(n, m.kind, m.version, m.files)]
  }

  class Registry {
    var plugins: seq<Plugin>

    constructor()
      ensures plugins == []
    {
      plugins := [];
    }

    /** `register(pname)`: append the record of a plugin the loader
        resolves; a loader failure is logged and changes nothing. */
    method Register(pname: string, require: string -> Option<PluginModule>)
      modifies this
      ensures plugins == old(plugins) + Registered([pname], require)
    {
      assert [pname][..0] == [];
      match require(pname)
      case None =>
      case Some(m) =>
        plugins := plugins + [Plugin(pname, m.kind, m.version, m.files)];
    }

    /** `loadPlugins()`: register every installed name, in order. */
    method LoadPlugins(file: PluginsFile, require: string -> Option<PluginModule>)
      modifies this
      ensures !file.Installeds? ==> plugins == old(plugins)
      ensures file.Installeds? ==> plugins == old(plugins) + Registered(file.names, require)
    {
      if !file.Installeds? {
        return;
      }
      var names := file.names;
      for i := 0 to |names|
        invariant plugins == old(plugins) + Registered(names[..i], require)
      {
        Register(names[i], require);
        assert names[..i + 1][..i] == names[..i];
        RegisteredSnoc(names[..i], names[i], require);
        assert names[..i + 1] == names[..i] + [names[i]];
      }
      assert names[..|names|] == names;
    }
  }

  lemma RegisteredSnoc(names: seq<string>, n: string, require: string -> Option<PluginModule>)
    ensures Registered(names + [n], require) == Registered(names, require) + Registered([n], require)
  {
    assert (names + [n])[..|names|] == names;
    assert [n][..0] == [];
  }

  /** `getEngines()`: the package engines among the plugins, in order. */
  function Engines(plugins: seq<Plugin>): (r: seq<Plugin>)
    ensures forall p :: p in r <==> p in plugins && p.kind == EngineKind
    ensures |r| <= |plugins|
    decreases |plugins|
  {
    if plugins == [] then []
    else
      var rest := Engines(plugins[1..]);
      assert forall p :: p in plugins <==> p == plugins[0] || p in plugins[1..];
      if plugins[0].kind == EngineKind then [plugins[0]] + rest else rest
  }
  /** The engines of two lists in a row are those of the first list, then
      those of the second: registration order is kept. */
  lemma {:induction false} EnginesAppend(a: seq<Plugin>, b: seq<Plugin>)
    ensures Engines(a + b) == Engines(a) + Engines(b)
    ensures Engines([]) == []
    ensures |a| == 1 ==> Engines(a) == (if a[0].kind == EngineKind then a else [])
    decreases |a|
  {
    if a == [] {
      assert a + b == b;
    } else {
      var ab := a + b;
      assert ab[0] == a[0] && ab[1..] == a[1..] + b;
      EnginesAppend(a[1..], b);
      if a[0].kind == EngineKind {
        assert Engines(ab) == [a[0]] + Engines(a[1..] + b);
        assert Engines(a) == [a[0]] + Engines(a[1..]);
      } else {
        assert Engines(ab) == Engines(a[1..] + b);
        assert Engines(a) == Engines(a[1..]);
      }
    }
  }


  /** `getByName(name)`: the first plugin with that name. */
  function GetByName(plugins: seq<Plugin>, name: string): (r: Option<Plugin>)
    ensures r.None? <==> forall i :: 0 <= i < |plugins| ==> plugins[i].name != name
    ensures r.Some? ==> exists i :: (0 <= i < |plugins| && plugins[i] == r.value && r.value.name == name
      && forall j :: 0 <= j < i ==> plugins[j].name != name)
    decreases |plugins|
  {
    if plugins == [] then None
    else if plugins[0].name == name then Some(plugins[0])
    else
      var r := GetByName(plugins[1..], name);
      assert r.Some? ==> exists i :: (1 <= i < |plugins| && plugins[i] == r.value && r.value.name == name
        && forall j :: 0 <= j < i ==> plugins[j].name != name) by {
        if r.Some? {
          var i :| 0 <= i < |plugins[1..]| && plugins[1..][i] == r.value && r.value.name == name
            && forall j :: 0 <= j < i ==> plugins[1..][j].name != name;
          assert forall j :: 1 <= j < i + 1 ==> plugins[j] == plugins[1..][j - 1];
        }
      }
      r
  }

  /** The first engine that serves `ext`. */
  function FirstServing(engines: seq<Plugin>, ext: string): (r: Option<Plugin>)
    ensures r.None? <==> forall i :: 0 <= i < |engines| ==> ext !in engines[i].files
    ensures r.Some? ==> exists i :: (0 <= i < |engines| && engines[i] == r.value && ext in r.value.files
      && forall j :: 0 <= j < i ==> ext !in engines[j].files)
    decreases |engines|
  {
    if engines == [] then None
    else if ext in engines[0].files then Some(engines[0])
    else
      var r := FirstServing(engines[1..], ext);
      assert r.Some? ==> exists i :: (1 <= i < |engines| && engines[i] == r.value && ext in r.value.files
        && forall j :: 0 <= j < i ==> ext !in engines[j].files) by {
        if r.Some? {
          var i :| 0 <= i < |engines[1..]| && engines[1..][i] == r.value && ext in r.value.files
            && forall j :: 0 <= j < i ==> ext !in engines[1..][j].files;
          assert forall j :: 1 <= j < i + 1 ==> engines[j] == engines[1..][j - 1];
        }
      }
      r
  }

  /** `resolveEngine(filename)`: no engine for a file without extension;
      otherwise the first engine whose `files` lists the extension, dot included. */
  function ResolveEngine(plugins: seq<Plugin>, filename: string): (r: Option<Plugin>)
    ensures Paths.Extname(filename) == [] ==> r.None?
    ensures Paths.Extname(filename) != [] ==> r == FirstServing(Engines(plugins), Paths.Extname(filename))
    ensures r.Some? ==> r.value in plugins && r.value.kind == EngineKind && Paths.Extname(filename) in r.value.files
    ensures r.None? && Paths.Extname(filename) != [] ==>
      forall p :: p in plugins && p.kind == EngineKind ==> Paths.Extname(filename) !in p.files
  {
    var ext := Paths.Extname(filename);
    if ext == [] then None
    else
      var engines := Engines(plugins);
      var r := FirstServing(engines, ext);
      assert r.None? ==> forall p :: p in engines ==> ext !in p.files;
      r
  }

  /** After registering a name no plugin had, looking it up finds the new record. */
  lemma RegisterThenGet(plugins: seq<Plugin>, pname: string, require: string -> Option<PluginModule>)
    requires forall p :: p in plugins ==> p.name != pname
    requires require(pname).Some?
    ensures var m := require(pname).value;
      GetByName(plugins + Registered([pname], require), pname) == Some(Plugin(pname, m.kind, m.version, m.files))
  {
    var m := require(pname).value;
    var all := plugins + Registered([pname], require);
    assert [pname][..0] == [];
    assert all == plugins + [Plugin(pname, m.kind, m.version, m.files)];
    assert forall i :: 0 <= i < |plugins| ==> all[i].name != pname by {
      forall i | 0 <= i < |plugins| ensures all[i].name != pname {
        assert all[i] == plugins[i];
      }
    }
    var r := GetByName(all, pname);
    assert all[|plugins|].name == pname;
    var i :| 0 <= i < |all| && all[i] == r.value && r.value.name == pname
      && forall j :: 0 <= j < i ==> all[j].name != pname;
    assert i == |plugins|;
  }
}
