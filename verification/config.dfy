/** The configuration map: aliases, the three files it is split over, and what survives a restart. */
module ConfigStores {
  import opened Bytes
  import opened Texts
  import opened Listings
  import opened ConfigText

  // ----- which file a key goes to -----

  predicate Shared(key: string) {
    key == "mcc" || key == "mnc"
  }

  predicate MmeSpecific(key: string) {
    || Shared(key)
    || key == "mme-name" || key == "mme-code" || key == "mme-group-id"
    || StartsWith(key, "s1ap-bind-") || StartsWith(key, "s6a-") || StartsWith(key, "s11-")
  }

  predicate SgsnSpecific(key: string) {
    || Shared(key)
    || key == "sgsn-code"
    || StartsWith(key, "gb-") || StartsWith(key, "gn-") || StartsWith(key, "iups-")
  }

  predicate Runtime(key: string) {
    !MmeSpecific(key) && !SgsnSpecific(key)
  }

  /** The three files, in the order they are loaded. */
  datatype Files = Files(runtime: string, mme: string, sgsn: string)

  predicate GoesToRuntime(key: string) {
    Runtime(key) || Shared(key)
  }

  // ----- aliases -----

  function Alias(config: Config, source: string, target: string): Config {
    if source in config && config[source] != "" then config[target := config[source]] else config
  }

  /**
    Sources and targets, later ones overriding earlier ones. The code looks at `gb-bind-ip` only when
    `gn-gtp-c-bind-ip` has no value, which is to let the latter override.
   */
  const ALIASES: seq<(string, string)> := [
    ("s1ap-bind-port", "s1ap-port"),
    ("s1ap-bind-ip", "mme-ip"),
    ("gn-gtp-c-port", "gtp-c-port"),
    ("gn-gtp-u-port", "gtp-u-port"),
    ("s11-bind-port", "s11-port"),
    ("s11-bind-ip", "mme-ip"),
    ("gb-bind-ip", "sgsn-ip"),
    ("gn-gtp-c-bind-ip", "sgsn-ip")
  ]

  function AliasAll(config: Config, rules: seq<(string, string)>): Config {
    if rules == [] then config
    else
      var (source, target) := rules[|rules| - 1];
      Alias(AliasAll(config, rules[..|rules| - 1]), source, target)
  }

  function ApplyAliases(config: Config): Config {
    AliasAll(config, ALIASES)
  }

  lemma UnfoldAliases(config: Config)
    ensures ApplyAliases(config)
         == var two := Alias(Alias(config, "s1ap-bind-port", "s1ap-port"), "s1ap-bind-ip", "mme-ip");
            var four := Alias(Alias(two, "gn-gtp-c-port", "gtp-c-port"), "gn-gtp-u-port", "gtp-u-port");
            var six := Alias(Alias(four, "s11-bind-port", "s11-port"), "s11-bind-ip", "mme-ip");
            Alias(Alias(six, "gb-bind-ip", "sgsn-ip"), "gn-gtp-c-bind-ip", "sgsn-ip")
  {
    Unfold(config, ALIASES, 8);
    Unfold(config, ALIASES, 7);
    Unfold(config, ALIASES, 6);
    Unfold(config, ALIASES, 5);
    Unfold(config, ALIASES, 4);
    Unfold(config, ALIASES, 3);
    Unfold(config, ALIASES, 2);
    Unfold(config, ALIASES, 1);
    assert ALIASES[..8] == ALIASES;
  }

  lemma Unfold(config: Config, rules: seq<(string, string)>, n: nat)
    requires 0 < n <= |rules|
    ensures AliasAll(config, rules[..n]) == Alias(AliasAll(config, rules[..n - 1]), rules[n - 1].0, rules[n - 1].1)
    ensures AliasAll(config, rules[..0]) == config
  {
    assert rules[..n][..n - 1] == rules[..n - 1];
  }

  /** The other key that setting one key also sets. */
  function SyncTarget(key: string): Option<string> {
    if key == "s1ap-port" then Some("s1ap-bind-port")
    else if key == "s1ap-bind-port" then Some("s1ap-port")
    else if key == "gtp-c-port" then Some("gn-gtp-c-port")
    else if key == "gn-gtp-c-port" then Some("gtp-c-port")
    else if key == "gtp-u-port" then Some("gn-gtp-u-port")
    else if key == "gn-gtp-u-port" then Some("gtp-u-port")
    else if key == "s11-port" then Some("s11-bind-port")
    else if key == "s11-bind-port" then Some("s11-port")
    else if key == "s11-ip" then Some("s11-bind-ip")
    else if key == "s11-bind-ip" then Some("s11-ip")
    else None
  }

  function Sync(config: Config, key: string, value: string): Config {
    match SyncTarget(key) case None => config case Some(other) => config[other := value]
  }

  function Set(config: Config, key: string, value: string): Config {
    ApplyAliases(Sync(config[key := value], key, value))
  }

  const DEFAULTS: Config := map[
    "mcc" := "250",
    "mnc" := "20",
    "gtp-c-port" := "2123",
    "gtp-u-port" := "2152",
    "s1ap-port" := "36412",
    "sgsn-ip" := "127.0.0.1",
    "mme-ip" := "127.0.0.1"
  ]

  /** Defaults, then the three files, then the aliases. */
  function Reload(files: Files): Config {
    ApplyAliases(LoadFrom(LoadFrom(LoadFrom(DEFAULTS, files.runtime), files.mme), files.sgsn))
  }

  // ----- writing a file -----

  function KeyOf(e: (string, string)): string {
    e.0
  }

  function ValueOf(e: (string, string)): string {
    e.1
  }

  function ConfigOf(es: seq<(string, string)>): Config {
    Table(KeyOf, ValueOf, es)
  }

  function EntryLine(e: (string, string)): string {
    LineOf(e.0, e.1) + "\n"
  }

  function Selected(config: Config, keep: string -> bool): Config {
    map key | key in config && keep(key) :: config[key]
  }

  /** The header and one line for each entry of the map, in some order. */
  ghost predicate Shows(text: string, header: string, config: Config) {
    exists es :: ConfigOf(es) == config && |es| == |config| && text == header + Flat(EntryLine, es)
  }

  const MME_HEADER := "# vMME configuration\n"
  const SGSN_HEADER := "# vSGSN configuration\n"

  ghost predicate Saved(files: Files, config: Config) {
    && Shows(files.runtime, "", Selected(config, GoesToRuntime))
    && Shows(files.mme, MME_HEADER, Selected(config, MmeSpecific))
    && Shows(files.sgsn, SGSN_HEADER, Selected(config, SgsnSpecific))
  }

  method WriteConfigFile(config: Config, keep: string -> bool, header: string) returns (text: string)
    ensures Shows(text, header, Selected(config, keep))
  {
    var entries := ListEntries(Selected(config, keep), KeyOf, ValueOf, (key, value) => (key, value));
    text := WriteLines(header, entries);
  }

  method WriteLines(header: string, entries: seq<(string, string)>) returns (text: string)
    ensures text == header + Flat(EntryLine, entries)
  {
    text := header;
    for i := 0 to |entries|
      invariant text == header + Flat(EntryLine, entries[..i])
    {
      OneMoreLine(header, entries, i);
      text := text + EntryLine(entries[i]);
    }
    assert entries[..|entries|] == entries;
  }

  lemma OneMoreLine(header: string, entries: seq<(string, string)>, i: nat)
    requires i < |entries|
    ensures header + Flat(EntryLine, entries[..i + 1]) == header + Flat(EntryLine, entries[..i]) + EntryLine(entries[i])
  {
    FlatSnoc(EntryLine, entries[..i], entries[i]);
    assert entries[..i + 1] == entries[..i] + [entries[i]];
  }

  // ----- the controller's configuration -----

  class ConfigStore {
    var config: Config
    var files: Files

    constructor (found: Files)
      ensures config == Reload(found) && files == found
    {
      new;
      files := found;
      LoadConfigFromFile();
    }

    method LoadConfigFromFile()
      modifies this`config
      ensures config == Reload(files)
    {
      config := DEFAULTS;
      config := LoadConfig(config, files.runtime);
      config := LoadConfig(config, files.mme);
      config := LoadConfig(config, files.sgsn);
      ApplyRuntimeConfigAliases();
    }

    method SetConfigAlias(source: string, target: string)
      modifies this`config
      ensures config == Alias(old(config), source, target)
    {
      if source in config && config[source] != "" {
        config := config[target := config[source]];
      }
    }

    method ApplyRuntimeConfigAliases()
      modifies this`config
      ensures config == ApplyAliases(old(config))
    {
      ghost var was := config;
      SetConfigAlias("s1ap-bind-port", "s1ap-port");
      SetConfigAlias("s1ap-bind-ip", "mme-ip");
      SetConfigAlias("gn-gtp-c-port", "gtp-c-port");
      SetConfigAlias("gn-gtp-u-port", "gtp-u-port");
      SetConfigAlias("s11-bind-port", "s11-port");
      SetConfigAlias("s11-bind-ip", "mme-ip");
      UnfoldAliases(was);
      ghost var six := config;
      if "gn-gtp-c-bind-ip" in config && config["gn-gtp-c-bind-ip"] != "" {
        config := config["sgsn-ip" := config["gn-gtp-c-bind-ip"]];
      } else {
        SetConfigAlias("gb-bind-ip", "sgsn-ip");
      }
    }

    method SaveConfigToFile()
      modifies this`files
      ensures Saved(files, config)
    {
      var runtime := WriteConfigFile(config, GoesToRuntime, "");
      var mme := WriteConfigFile(config, MmeSpecific, MME_HEADER);
      var sgsn := WriteConfigFile(config, SgsnSpecific, SGSN_HEADER);
      files := Files(runtime, mme, sgsn);
    }

    method SetValue(key: string, value: string)
      modifies this
      ensures config == Set(old(config), key, value) && Saved(files, config)
    {
      config := config[key := value];
      var other := SyncTarget(key);
      if other.Some? {
        config := config[other.value := value];
      }
      ApplyRuntimeConfigAliases();
      SaveConfigToFile();
    }
  }
}
