/**
 * ServiceContainer: a dependency-injection container (a Pimple container)
 * that also resolves shortcut ids: "cache.<name>", "db.<name>", "log.<name>"
 * and "view.<name>" name a service built on demand from the configuration
 * section for that kind, and memoised under its id.
 *
 * The container's entries are a map from id to entry; the services the
 * factories build are opaque handles produced by a `make` function standing
 * for the framework's cache, database and log managers.
 */
module Services {
  import opened Php
  import Config

  /** An entry of the container: the configuration object, or any other
      service or value (an opaque handle). */
  datatype Entry = ConfigEntry(cfg: Config.BaseConfig) | Service(handle: nat)

  /** Why looking an id up fails. */
  datatype Failure =
    | UnknownIdentifier(id: string)         // Pimple's exception for an id it does not hold
    | MissingConfig(kind: string, name: string)  // LogicException: no configuration for the service
    | UndefinedMethod(kind: string)          // the kind has no factory method in this class
    | FactoryFailed(reason: string)          // the manager that builds the service failed

  /** The shortcut kinds, in the order the pattern tries them. */
  const Kinds: seq<string> := ["cache", "db", "log", "view"]

  /** The configuration section each kind is looked up in. */
  const Sections: map<string, string> := map["cache" := "caches", "db" := "databases", "log" := "logs", "view" := "views"]

  // ---------------------------------------------------------------------------
  // Shortcut ids: /^(cache|db|log|view)\.(.*)$/
  // ---------------------------------------------------------------------------

  /** What `(.*)$` captures from the text after "<kind>.": `.` stops at a
      newline, and `$` also matches before one final newline, which is then
      not captured. */
  function ShortcutName(rest: string): (r: Option<string>)
    ensures r.Some? ==> '\n' !in r.value
    ensures r.Some? ==> rest == r.value || rest == r.value + "\n"
  {
    if '\n' !in rest then Some(rest)
    else if rest[|rest| - 1] == '\n' && '\n' !in rest[..|rest| - 1] then Some(rest[..|rest| - 1])
    else None
  }

  /** ServiceContainer::matchShortcut: the kind and name of a shortcut id
      (PHP's empty array is `None`). */
  function MatchShortcut(id: string): Option<(string, string)> {
    ShortcutFrom(id, Kinds)
  }

  function ShortcutFrom(id: string, kinds: seq<string>): (r: Option<(string, string)>)
    ensures r.Some? ==> r.value.0 in kinds
    ensures r.Some? ==> id == r.value.0 + "." + r.value.1 || id == r.value.0 + "." + r.value.1 + "\n"
    ensures r.Some? ==> '\n' !in r.value.1
  {
    if |kinds| == 0 then None
    else if StartsWith(id, kinds[0] + ".") then
      match ShortcutName(id[|kinds[0]| + 1..])
      case Some(name) =>
        assert id == id[..|kinds[0]| + 1] + id[|kinds[0]| + 1..];
        Some((kinds[0], name))
      case None => None
    else ShortcutFrom(id, kinds[1..])
  }

  /** Text that differs from a prefix in its first character does not start with it. */
  lemma FirstCharDiffers(s: string, p: string)
    requires |s| > 0 && |p| > 0 && s[0] != p[0]
    ensures !StartsWith(s, p)
  {
    if |p| <= |s| { assert s[..|p|][0] == s[0]; }
  }

  /** Every "<kind>.<name>" id with a one-line name is the shortcut for that
      kind and name (the kinds start with different letters, so no other kind
      fits). */
  lemma MatchShortcutComplete(kind: string, name: string)
    requires kind in Kinds && '\n' !in name
    ensures MatchShortcut(kind + "." + name) == Some((kind, name))
  {
    var id := kind + "." + name;
    assert id[..|kind| + 1] == kind + ".";
    assert id[|kind| + 1..] == name;
    assert ShortcutName(name) == Some(name);
    assert id[0] == kind[0];
    var hit := ShortcutFrom(id, [kind]);
    assert hit == Some((kind, name));
    if kind == "cache" {
      assert ShortcutFrom(id, Kinds) == hit;
    } else {
      FirstCharDiffers(id, "cache.");
      assert ShortcutFrom(id, Kinds) == ShortcutFrom(id, ["db", "log", "view"]);
      if kind == "db" {
        assert ShortcutFrom(id, ["db", "log", "view"]) == hit;
      } else {
        FirstCharDiffers(id, "db.");
        assert ShortcutFrom(id, ["db", "log", "view"]) == ShortcutFrom(id, ["log", "view"]);
        if kind == "log" {
          assert ShortcutFrom(id, ["log", "view"]) == hit;
        } else {
          FirstCharDiffers(id, "log.");
          assert ShortcutFrom(id, ["log", "view"]) == ShortcutFrom(id, ["view"]);
        }
      }
    }
  }

  // ---------------------------------------------------------------------------
  // Existence and lookup, as functions of the entries
  // ---------------------------------------------------------------------------

  /** ServiceContainer::getConfig: the "config" entry when it is a
      configuration object. */
  function GetConfig(entries: map<string, Entry>): Option<Config.BaseConfig> {
    if "config" in entries && entries["config"].ConfigEntry? then Some(entries["config"].cfg) else None
  }

  /** The configuration object a container's lookups read. */
  function ConfigFrame(entries: map<string, Entry>): set<object> {
    if GetConfig(entries).Some? then {GetConfig(entries).value} else {}
  }

  /** The dotted configuration key for a shortcut. */
  function ConfigKey(kind: string, name: string): string
    requires kind in Sections
  {
    Sections[kind] + "." + name
  }

  /** ServiceContainer::offsetExists. */
  predicate Exists(entries: map<string, Entry>, id: string)
    reads ConfigFrame(entries)
  {
    if id in entries then true
    else match MatchShortcut(id)
      case None => false
      case Some((kind, name)) =>
        GetConfig(entries).Some? && kind in Sections && GetConfig(entries).value.Has(ConfigKey(kind, name))
  }

  /**
   * The factory for a kind (`$this->$type($name, $config)`): cache, db and log
   * require a truthy configuration value and hand it to their manager; view
   * has no factory method, which PHP reports as an error.
   */
  function Build(kind: string, name: string, cfg: Config.BaseConfig,
                 make: (string, string, Value) -> Result<nat, string>): Result<nat, Failure>
    requires kind in Sections
    reads cfg
  {
    if kind == "view" then Err(UndefinedMethod(kind))
    else
      var v := Config.GetValue(cfg.data, ConfigKey(kind, name), Null);
      if !Truthy(v) then Err(MissingConfig(kind, name))
      else match make(kind, name, v)
        case Ok(h) => Ok(h)
        case Err(reason) => Err(FactoryFailed(reason))
  }

  /**
   * ServiceContainer::offsetGet as a function: the answer and the entries
   * afterwards. An unregistered shortcut id is built, if there is a
   * configuration, and stored under the id before the lookup proper.
   */
  function Resolve(entries: map<string, Entry>, id: string,
                   make: (string, string, Value) -> Result<nat, string>): (Result<Entry, Failure>, map<string, Entry>)
    reads ConfigFrame(entries)
  {
    if id in entries then (Ok(entries[id]), entries)
    else match MatchShortcut(id)
      case None => (Err(UnknownIdentifier(id)), entries)
      case Some((kind, name)) =>
        match GetConfig(entries)
        case None => (Err(UnknownIdentifier(id)), entries)
        case Some(cfg) =>
          match Build(kind, name, cfg, make)
          case Err(f) => (Err(f), entries)
          case Ok(h) => (Ok(Service(h)), entries[id := Service(h)])
  }

  /** A lookup changes nothing but the entry for its own id. */
  lemma ResolveOnlyStoresId(entries: map<string, Entry>, id: string, make: (string, string, Value) -> Result<nat, string>)
    ensures var (r, after) := Resolve(entries, id, make);
      (after == entries || (r.Ok? && after == entries[id := r.value])) &&
      (r.Ok? ==> id in after && after[id] == r.value)
  {
  }

  /** A built service is memoised: looking it up again returns the same
      entry without building anything. */
  lemma ResolveMemoises(entries: map<string, Entry>, id: string,
                        make: (string, string, Value) -> Result<nat, string>,
                        make': (string, string, Value) -> Result<nat, string>)
    requires Resolve(entries, id, make).0.Ok?
    ensures var (r, after) := Resolve(entries, id, make);
      Resolve(after, id, make') == (r, after)
  {
    ResolveOnlyStoresId(entries, id, make);
  }

  /** Only an id that exists can be looked up. */
  lemma ResolvedIdExisted(entries: map<string, Entry>, id: string, make: (string, string, Value) -> Result<nat, string>)
    requires Resolve(entries, id, make).0.Ok?
    ensures Exists(entries, id)
  {
    if id !in entries {
      var (kind, name) := MatchShortcut(id).value;
      var cfg := GetConfig(entries).value;
      var v := Config.GetValue(cfg.data, ConfigKey(kind, name), Null);
      assert Truthy(v);
      assert cfg.Has(ConfigKey(kind, name));
    }
  }

  /** The converse fails: a "view." id exists whenever its section is
      configured, yet looking it up always fails. */
  lemma ViewExistsButCannotBeBuilt(entries: map<string, Entry>, name: string,
                                   make: (string, string, Value) -> Result<nat, string>)
    requires "view." + name !in entries && '\n' !in name
    requires GetConfig(entries).Some?
    ensures Exists(entries, "view." + name) == GetConfig(entries).value.Has("views." + name)
    ensures Resolve(entries, "view." + name, make) == (Err(UndefinedMethod("view")), entries)
  {
    MatchShortcutComplete("view", name);
    assert "view" + "." + name == "view." + name;
    assert Sections["view"] == "views";
    assert ConfigKey("view", name) == "views." + name;
  }

  /** cache, db and log refuse to build a service whose configuration value
      is missing or falsy, and nothing is stored. */
  lemma MissingConfigRefused(entries: map<string, Entry>, kind: string, name: string,
                             make: (string, string, Value) -> Result<nat, string>)
    requires kind in ["cache", "db", "log"] && '\n' !in name
    requires kind + "." + name !in entries
    requires GetConfig(entries).Some?
    requires !Truthy(Config.GetValue(GetConfig(entries).value.data, ConfigKey(kind, name), Null))
    ensures Resolve(entries, kind + "." + name, make) == (Err(MissingConfig(kind, name)), entries)
  {
    MatchShortcutComplete(kind, name);
  }

  /** getConfig answers the "config" entry exactly when it is a
      configuration object, and storing any other id does not change it. */
  lemma GetConfigReadsOnlyConfigEntry(entries: map<string, Entry>, id: string, e: Entry)
    ensures GetConfig(entries).Some? <==> "config" in entries && entries["config"].ConfigEntry?
    ensures GetConfig(entries).Some? ==> GetConfig(entries).value == entries["config"].cfg
    ensures id != "config" ==> GetConfig(entries[id := e]) == GetConfig(entries)
  {
  }

  /** Without a configuration object, an unregistered id is unknown. */
  lemma NoConfigNoShortcuts(entries: map<string, Entry>, id: string, make: (string, string, Value) -> Result<nat, string>)
    requires id !in entries && GetConfig(entries).None?
    ensures !Exists(entries, id)
    ensures Resolve(entries, id, make) == (Err(UnknownIdentifier(id)), entries)
  {
  }

  // ---------------------------------------------------------------------------
  // The container
  // ---------------------------------------------------------------------------

  class ServiceContainer {
    var entries: map<string, Entry>

    constructor (initial: map<string, Entry>)
      ensures entries == initial
    {
      entries := initial;
    }

    /** ServiceContainer::offsetExists: a registered id exists; an
        unregistered one exists only as a shortcut whose section key the
        configuration object holds. */
    predicate OffsetExists(id: string)
      reads this, ConfigFrame(entries)
      ensures id in entries ==> OffsetExists(id)
      ensures OffsetExists(id) && id !in entries ==>
        MatchShortcut(id).Some? && GetConfig(entries).Some? && MatchShortcut(id).value.0 in Sections &&
        GetConfig(entries).value.Has(ConfigKey(MatchShortcut(id).value.0, MatchShortcut(id).value.1))
    {
      Exists(entries, id)
    }

    /** ServiceContainer::offsetGet; `make` stands for the managers that
        build cache, database and log services. */
    method OffsetGet(id: string, make: (string, string, Value) -> Result<nat, string>)
      returns (r: Result<Entry, Failure>)
      modifies this
      ensures (r, entries) == Resolve(old(entries), id, make)
    {
      if id !in entries {
        var shortcut := MatchShortcut(id);
        if shortcut.Some? {
          var (kind, name) := shortcut.value;
          var cfg := GetConfig(entries);
          if cfg.Some? {
            var built := Build(kind, name, cfg.value, make);
            if built.Err? {
              return Err(built.error);
            }
            entries := entries[id := Service(built.value)];
          }
        }
      }
      if id !in entries {
        return Err(UnknownIdentifier(id));
      }
      r := Ok(entries[id]);
    }
  }
}
