/** The installer's configuration file: `Installer.load_config`, the names
    `Installer.__init__` derives from it, and `Installer._get_required_apps`
    (zyngInstaller.py). The TOML file arrives already parsed, as a table. */
module InstallerConfig {
  import opened Wrappers
  import opened Text
  import opened PyValue

  datatype ConfigError =
    | ConfigNotFound
    | MissingKey(key: string)
    | NotAString(key: string)
    | NotIterable(key: string)

  const RequiredKeys: seq<string> := ["name", "version", "source"]

  /** The configuration table and its `source` entry, as `load_config` keeps them. */
  datatype Loaded = Loaded(table: seq<(string, Value)>, source: Value)

  /** `load_config`: the file must exist, and `name`, `version` and `source`
      are checked in that order; the first one missing aborts the run. */
  function LoadConfig(found: bool, table: seq<(string, Value)>): (r: Result<Loaded, ConfigError>)
    ensures !found ==> r == Err(ConfigNotFound)
    ensures found ==> (r.Ok? <==> forall k :: k in RequiredKeys ==> Has(table, k))
    ensures r.Ok? ==> r.value.table == table && r.value.source == Get(table, "source")
    ensures found && r.Err? ==>
      exists j :: 0 <= j < |RequiredKeys| && r.error == MissingKey(RequiredKeys[j])
        && !Has(table, RequiredKeys[j]) && forall i :: 0 <= i < j ==> Has(table, RequiredKeys[i])
  {
    assert RequiredKeys[0] == "name" && RequiredKeys[1] == "version" && RequiredKeys[2] == "source";
    if !found then Err(ConfigNotFound)
    else if !Has(table, "name") then Err(MissingKey("name"))
    else if !Has(table, "version") then Err(MissingKey("version"))
    else if !Has(table, "source") then Err(MissingKey("source"))
    else Ok(Loaded(table, Get(table, "source")))
  }

  /** `Path(p).expanduser()` for the `~` and `~/...` forms. */
  function ExpandUser(p: string, home: string): string {
    if p == "~" || StartsWith(p, "~/") then home + p[1..] else p
  }

  /** The default install root `~/.local/share/<app>-installs`, expanded. */
  function DefaultRoot(app: string, home: string): (r: string)
    ensures r == home + "/.local/share/" + app + "-installs"
  {
    var p := "~/.local/share/" + app + "-installs";
    assert StartsWith(p, "~/") && p[1..] == "/.local/share/" + app + "-installs";
    ExpandUser(p, home)
  }

  /** The names of one run: the app, its version and the install root. */
  datatype Layout = Layout(app: string, version: string, installRoot: string)

  /** `Installer.__init__` after `load_config`: `default_install_root` (or
      `~/.local/share/<name>-installs`) is turned into a path first, so it
      must be a string even when `--install-root` overrides it, and the
      default is built by string concatenation, so `name` must be a string
      too; a non-empty override wins, else the configured root is used. */
  function InstallerLayout(loaded: Loaded, rootOverride: Option<string>, home: string): (r: Result<Layout, ConfigError>)
    ensures !Get(loaded.table, "name").Str? ==> r == Err(NotAString("name"))
    ensures (Get(loaded.table, "name").Str? && Has(loaded.table, "default_install_root")
             && !Get(loaded.table, "default_install_root").Str?) ==> r == Err(NotAString("default_install_root"))
    ensures (Get(loaded.table, "name").Str? && (Has(loaded.table, "default_install_root") ==> Get(loaded.table, "default_install_root").Str?)
             && !Get(loaded.table, "version").Str?) ==> r == Err(NotAString("version"))
    ensures r.Ok? <==>
      && Get(loaded.table, "name").Str? && Get(loaded.table, "version").Str?
      && (Has(loaded.table, "default_install_root") ==> Get(loaded.table, "default_install_root").Str?)
    ensures r.Ok? ==> Get(loaded.table, "name") == Str(r.value.app)
    ensures r.Ok? ==> Get(loaded.table, "version") == Str(r.value.version)
    ensures r.Ok? && rootOverride.Some? && rootOverride.value != [] ==>
      r.value.installRoot == ExpandUser(rootOverride.value, home)
    ensures r.Ok? && (rootOverride.None? || rootOverride.value == []) && Has(loaded.table, "default_install_root") ==>
      r.value.installRoot == ExpandUser(Get(loaded.table, "default_install_root").s, home)
    ensures r.Ok? && (rootOverride.None? || rootOverride.value == []) && !Has(loaded.table, "default_install_root") ==>
      r.value.installRoot == home + "/.local/share/" + r.value.app + "-installs"
  {
    var name := Get(loaded.table, "name");
    var version := Get(loaded.table, "version");
    var configured := Lookup(loaded.table, "default_install_root");
    if !name.Str? then Err(NotAString("name"))
    else if configured.Some? && !configured.value.Str? then Err(NotAString("default_install_root"))
    else if !version.Str? then Err(NotAString("version"))
    else if rootOverride.Some? && rootOverride.value != [] then
      Ok(Layout(name.s, version.s, ExpandUser(rootOverride.value, home)))
    else if configured.Some? then Ok(Layout(name.s, version.s, ExpandUser(configured.value.s, home)))
    else Ok(Layout(name.s, version.s, DefaultRoot(name.s, home)))
  }

  /** The value `_get_required_apps` iterates over: `required_apps.apps`,
      else `required_apps.name`, else an empty list (a falsy section counts
      as an empty table); `None` when the section is truthy but not a table,
      which the code answers with no apps at all. */
  function AppsValue(table: seq<(string, Value)>): Option<Value> {
    var section := Get(table, "required_apps");
    var sec := if Truthy(section) then section else Dict([]);
    if !sec.Dict? then None
    else
      var first := Get(sec.entries, "apps");
      var second := Get(sec.entries, "name");
      Some(if Truthy(first) then first else if Truthy(second) then second else List([]))
  }

  /** Iterating `v` in the comprehension yields the string `a`: a bare
      string stands for itself, a list for its items, a table for its keys. */
  predicate Yields(v: Value, a: string) {
    match v
    case Str(s) => s == a
    case List(items) => Str(a) in items
    case Dict(es) => a in Keys(es)
    case _ => false
  }

  /** The values the comprehension can iterate over. */
  predicate Iterable(v: Value) {
    v.Str? || v.List? || v.Dict?
  }

  /** The string items of `items` whose `strip()` is non-empty, in order. */
  function NonBlankStrings(items: seq<Value>): (r: seq<string>)
    ensures |r| <= |items|
    ensures forall a :: a in r <==> Str(a) in items && !IsBlank(a)
  {
    if items == [] then []
    else
      var rest := NonBlankStrings(items[1..]);
      assert forall v :: v in items <==> v == items[0] || v in items[1..];
      if items[0].Str? && Strip(items[0].s) != [] then [items[0].s] + rest else rest
  }

  /** The keys of a table as string values, in iteration order. */
  function KeyStrings(es: seq<(string, Value)>): (r: seq<Value>)
    ensures forall a :: Str(a) in r <==> a in Keys(es)
  {
    if es == [] then [] else [Str(es[0].0)] + KeyStrings(es[1..])
  }

  /** `_get_required_apps`: the non-blank strings the chosen value yields,
      in order; any other truthy value makes the comprehension raise
      `TypeError`. */
  function RequiredApps(table: seq<(string, Value)>): (r: Result<seq<string>, ConfigError>)
    ensures !Truthy(Get(table, "required_apps")) ==> r == Ok([])
    ensures AppsValue(table).None? ==> r == Ok([])
    ensures r.Err? <==> AppsValue(table).Some? && !Iterable(AppsValue(table).value)
    ensures r.Err? ==> r == Err(NotIterable("required_apps"))
    ensures r.Ok? ==> forall a :: a in r.value <==> AppsValue(table).Some? && Yields(AppsValue(table).value, a) && !IsBlank(a)
    ensures AppsValue(table).Some? && AppsValue(table).value.List? ==> r == Ok(NonBlankStrings(AppsValue(table).value.items))
  {
    match AppsValue(table)
    case None => Ok([])
    case Some(apps) =>
      match apps
      case Str(s) => Ok(NonBlankStrings([apps]))
      case List(items) => Ok(NonBlankStrings(items))
      case Dict(es) => Ok(NonBlankStrings(KeyStrings(es)))
      case _ => Err(NotIterable("required_apps"))
  }

  /** A bare string stands for a list holding just that string. */
  lemma RequiredAppsSingleString(table: seq<(string, Value)>, app: string)
    requires Get(table, "required_apps") == Dict([("apps", Str(app))])
    ensures RequiredApps(table) == if IsBlank(app) then Ok([]) else Ok([app])
  {
    var sec := Dict([("apps", Str(app))]);
    assert Get(sec.entries, "apps") == Str(app);
    assert RequiredApps(table) == Ok(NonBlankStrings([Str(app)])) by {
      if IsBlank(app) {
        assert Truthy(Str(app)) ==> Strip(app) == [];
      } else {
        assert app != [];
      }
    }
    if IsBlank(app) {
      assert Strip(app) == [];
    } else {
      assert Strip(app) != [];
      assert [Str(app)][1..] == [];
      assert NonBlankStrings([Str(app)]) == [app] + NonBlankStrings([]);
      assert [app] + NonBlankStrings([]) == [app];
    }
  }
}
