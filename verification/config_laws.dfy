/** The configuration key by key: which keys move together, which file each is written to, and the defaults. */
module ConfigLaws {
  import opened Bytes
  import opened Texts
  import opened ConfigText
  import opened ConfigStores
  import opened ConfigRestart

  // ----- aliases, key by key -----

  function Lookup(config: Config, key: string): Option<string> {
    if key in config then Some(config[key]) else None
  }

  /** The value of a source if it has one, and otherwise what is there. */
  function Given(config: Config, source: string, otherwise: Option<string>): Option<string> {
    if HasValue(config, source) then Some(config[source]) else otherwise
  }

  /** What a key holds once the aliases are applied. */
  function Effective(config: Config, key: string): Option<string> {
    var own := Lookup(config, key);
    match key
    case "s1ap-port" => Given(config, "s1ap-bind-port", own)
    case "gtp-c-port" => Given(config, "gn-gtp-c-port", own)
    case "gtp-u-port" => Given(config, "gn-gtp-u-port", own)
    case "s11-port" => Given(config, "s11-bind-port", own)
    case "mme-ip" => Given(config, "s11-bind-ip", Given(config, "s1ap-bind-ip", own))
    case "sgsn-ip" => Given(config, "gn-gtp-c-bind-ip", Given(config, "gb-bind-ip", own))
    case _ => own
  }

  lemma AliasesByKey(config: Config, key: string)
    ensures Lookup(ApplyAliases(config), key) == Effective(config, key)
  {
    RulesFlow();
    AliasesAt(config, ALIASES, key);
    AliasedByKey(config, key);
  }

  lemma RulesFlow()
    ensures Flow(ALIASES)
  {
  }

  lemma AliasedStep(config: Config, n: nat, key: string)
    requires 0 < n <= |ALIASES|
    ensures Aliased(config, ALIASES[..n], key)
         == if ALIASES[n - 1].1 == key && HasValue(config, ALIASES[n - 1].0) then Some(config[ALIASES[n - 1].0])
            else Aliased(config, ALIASES[..n - 1], key)
  {
    assert ALIASES[..n][..n - 1] == ALIASES[..n - 1];
  }

  /** The value of a source, if it has one. */
  function From(config: Config, source: string): Option<string> {
    if HasValue(config, source) then Some(config[source]) else None
  }

  function Either(a: Option<string>, b: Option<string>): Option<string> {
    if a.Some? then a else b
  }

  lemma AliasedByKey(config: Config, key: string)
    ensures Aliased(config, ALIASES, key)
         == match key
            case "s1ap-port" => From(config, "s1ap-bind-port")
            case "gtp-c-port" => From(config, "gn-gtp-c-port")
            case "gtp-u-port" => From(config, "gn-gtp-u-port")
            case "s11-port" => From(config, "s11-bind-port")
            case "mme-ip" => Either(From(config, "s11-bind-ip"), From(config, "s1ap-bind-ip"))
            case "sgsn-ip" => Either(From(config, "gn-gtp-c-bind-ip"), From(config, "gb-bind-ip"))
            case _ => None
  {
    AliasedStep(config, 8, key);
    AliasedStep(config, 7, key);
    AliasedStep(config, 6, key);
    AliasedStep(config, 5, key);
    AliasedStep(config, 4, key);
    AliasedStep(config, 3, key);
    AliasedStep(config, 2, key);
    AliasedStep(config, 1, key);
    assert ALIASES[..8] == ALIASES;
  }

  // ----- keys that are set together -----

  const PAIRS: seq<(string, string)> := [
    ("s1ap-port", "s1ap-bind-port"), ("gtp-c-port", "gn-gtp-c-port"), ("gtp-u-port", "gn-gtp-u-port"),
    ("s11-port", "s11-bind-port"), ("s11-ip", "s11-bind-ip")
  ]

  predicate Paired(a: string, b: string) {
    exists i :: 0 <= i < |PAIRS| && (PAIRS[i] == (a, b) || PAIRS[i] == (b, a))
  }

  /** The configuration with the key set, and with it the other key of its pair. */
  ghost predicate SetTogether(before: Config, key: string, value: string, after: Config) {
    forall k :: Lookup(after, k) == if k == key || Paired(key, k) then Some(value) else Lookup(before, k)
  }

  lemma PairedIsTarget(key: string, other: string)
    ensures Paired(key, other) <==> SyncTarget(key) == Some(other)
  {
    assert PAIRS[0] == ("s1ap-port", "s1ap-bind-port") && PAIRS[1] == ("gtp-c-port", "gn-gtp-c-port");
    assert PAIRS[2] == ("gtp-u-port", "gn-gtp-u-port") && PAIRS[3] == ("s11-port", "s11-bind-port");
    assert PAIRS[4] == ("s11-ip", "s11-bind-ip");
  }

  lemma SyncByKey(config: Config, key: string, value: string)
    ensures SetTogether(config, key, value, Sync(config[key := value], key, value))
  {
    forall k
      ensures Lookup(Sync(config[key := value], key, value), k)
           == if k == key || Paired(key, k) then Some(value) else Lookup(config, k)
    {
      PairedIsTarget(key, k);
    }
  }

  /** Setting a key sets its pair to the same value; every key then holds what the aliases make of that. */
  lemma SetByKey(config: Config, key: string, value: string)
    ensures exists written :: SetTogether(config, key, value, written)
                              && forall k :: Lookup(Set(config, key, value), k) == Effective(written, k)
  {
    var written := Sync(config[key := value], key, value);
    SyncByKey(config, key, value);
    forall k
      ensures Lookup(Set(config, key, value), k) == Effective(written, k)
    {
      AliasesByKey(written, k);
    }
  }

  /** So both keys of a pair hold the value that was set through either. */
  lemma PairsStayEqual(config: Config, i: nat, value: string, first: bool)
    requires i < |PAIRS|
    ensures var after := Set(config, if first then PAIRS[i].0 else PAIRS[i].1, value);
            Lookup(after, PAIRS[i].0) == Some(value) && Lookup(after, PAIRS[i].1) == Some(value)
  {
    var key := if first then PAIRS[i].0 else PAIRS[i].1;
    var written := Sync(config[key := value], key, value);
    SyncByKey(config, key, value);
    assert Paired(PAIRS[i].0, PAIRS[i].1) && Paired(PAIRS[i].1, PAIRS[i].0);
    assert Lookup(written, PAIRS[i].0) == Some(value) && Lookup(written, PAIRS[i].1) == Some(value);
    AliasesByKey(written, PAIRS[i].0);
    AliasesByKey(written, PAIRS[i].1);
  }

  // ----- files -----

  predicate StartsWithAny(key: string, prefixes: set<string>) {
    exists p :: p in prefixes && p <= key
  }

  predicate ForMme(key: string) {
    key in {"mcc", "mnc", "mme-name", "mme-code", "mme-group-id"} || StartsWithAny(key, {"s1ap-bind-", "s6a-", "s11-"})
  }

  predicate ForSgsn(key: string) {
    key in {"mcc", "mnc", "sgsn-code"} || StartsWithAny(key, {"gb-", "gn-", "iups-"})
  }

  predicate ForRuntime(key: string) {
    key in {"mcc", "mnc"} || !(ForMme(key) || ForSgsn(key))
  }

  /** The network codes go to all three files, the interfaces' keys to one of two, and the rest to the first. */
  lemma FilesByKey(files: Files, config: Config)
    requires Saved(files, config)
    ensures Shows(files.runtime, "", Selected(config, ForRuntime))
    ensures Shows(files.mme, "# vMME configuration\n", Selected(config, ForMme))
    ensures Shows(files.sgsn, "# vSGSN configuration\n", Selected(config, ForSgsn))
  {
    forall key
      ensures MmeSpecific(key) == ForMme(key) && SgsnSpecific(key) == ForSgsn(key)
      ensures GoesToRuntime(key) == ForRuntime(key)
    {
      SpecificByKey(key);
    }
    SameSelection(config, ForRuntime, GoesToRuntime);
    SameSelection(config, ForMme, MmeSpecific);
    SameSelection(config, ForSgsn, SgsnSpecific);
  }

  lemma SameSelection(config: Config, a: string -> bool, b: string -> bool)
    requires forall key :: a(key) == b(key)
    ensures Selected(config, a) == Selected(config, b)
  {
  }

  lemma SpecificByKey(key: string)
    ensures MmeSpecific(key) <==> ForMme(key)
    ensures SgsnSpecific(key) <==> ForSgsn(key)
  {
    var forMme, forSgsn := {"s1ap-bind-", "s6a-", "s11-"}, {"gb-", "gn-", "iups-"};
    assert "s1ap-bind-" in forMme && "s6a-" in forMme && "s11-" in forMme;
    assert "gb-" in forSgsn && "gn-" in forSgsn && "iups-" in forSgsn;
  }

  /** Without files, the configuration is the defaults. */
  lemma DefaultsByKey()
    ensures Reload(Files("", "", ""))
         == map["mcc" := "250", "mnc" := "20", "gtp-c-port" := "2123", "gtp-u-port" := "2152",
                "s1ap-port" := "36412", "sgsn-ip" := "127.0.0.1", "mme-ip" := "127.0.0.1"]
  {
    DefaultsObeyAliases();
  }

  lemma DefaultsObeyAliases()
    ensures ApplyAliases(DEFAULTS) == DEFAULTS
  {
    forall key
      ensures Lookup(ApplyAliases(DEFAULTS), key) == Lookup(DEFAULTS, key)
    {
      AliasesByKey(DEFAULTS, key);
      NoSourceByDefault(key);
    }
    assert forall key :: key in ApplyAliases(DEFAULTS) <==> Lookup(ApplyAliases(DEFAULTS), key).Some?;
    assert forall key :: key in DEFAULTS <==> Lookup(DEFAULTS, key).Some?;
  }

  lemma NoSourceByDefault(key: string)
    ensures Effective(DEFAULTS, key) == Lookup(DEFAULTS, key)
  {
  }

  function OneLine(key: string, value: string): string {
    key + " = " + value + "\n"
  }

  /** Of the three files, a later one overrides an earlier one. */
  lemma LaterFileWins(key: string, u: string, v: string, w: string)
    requires Storable(key, u) && Storable(key, v) && Storable(key, w)
    ensures Reload(Files(OneLine(key, u), "", "")) == ApplyAliases(DEFAULTS[key := u])
    ensures Reload(Files(OneLine(key, u), OneLine(key, v), "")) == ApplyAliases(DEFAULTS[key := v])
    ensures Reload(Files(OneLine(key, u), OneLine(key, v), OneLine(key, w))) == ApplyAliases(DEFAULTS[key := w])
  {
    OneLineLoads(DEFAULTS, key, u);
    OneLineLoads(DEFAULTS[key := u], key, v);
    OneLineLoads(DEFAULTS[key := v], key, w);
    Overwritten(DEFAULTS, key, u, v);
    Overwritten(DEFAULTS, key, v, w);
  }

  lemma Overwritten(config: Config, key: string, u: string, v: string)
    ensures config[key := u][key := v] == config[key := v]
  {
  }

  lemma OneLineLoads(config: Config, key: string, value: string)
    requires Storable(key, value)
    ensures LoadFrom(config, OneLine(key, value)) == config[key := value]
  {
    StorableParses(key, value);
    LoadsLine(config, LineOf(key, value), "");
    assert LineOf(key, value) + "\n" + "" == OneLine(key, value);
  }

  // ----- spacing -----

  predicate Blanks(s: string) {
    forall i :: 0 <= i < |s| ==> s[i] == ' ' || s[i] == '\t' || s[i] == '\r' || s[i] == '\n'
  }

  /** Blanks before and after the line, and around its equals sign, do not matter. */
  lemma SpacingIsIgnored(key: string, value: string, a: string, b: string, c: string, d: string)
    requires Storable(key, value) && Blanks(a) && Blanks(b) && Blanks(c) && Blanks(d)
    ensures ParseLine(a + key + b + "=" + c + value + d) == Some((key, value))
  {
    if value == "" {
      assert a + key + b + "=" + c + value + d == a + (key + b + "=") + (c + d);
      SpacedParses(a + (key + b + "=") + (c + d), key, value, a, b, "", c + d);
    } else {
      assert a + key + b + "=" + c + value + d == a + (key + b + "=" + c + value) + d;
      SpacedParses(a + (key + b + "=" + c + value) + d, key, value, a, b, c, d);
    }
  }

  /** With nothing to trim between the equals sign and an empty value. */
  lemma SpacedParses(line: string, key: string, value: string, a: string, b: string, c: string, d: string)
    requires Storable(key, value) && Blanks(a) && Blanks(b) && Blanks(c) && Blanks(d) && (value == "" ==> c == "")
    requires line == a + (key + b + "=" + c + value) + d || (value == "" && line == a + (key + b + "=") + d)
    ensures ParseLine(line) == Some((key, value))
  {
    var inner := key + b + "=" + (c + value);
    assert line == a + inner + d;
    InnerIsTrimmed(inner, key, b, c, value);
    TrimBetween(a, inner, d);
    EqualsAfter(inner, key + b, c + value);
    assert "" + key + b == key + b;
    TrimBetween("", key, b);
    ValueIsTrimmed(c, value);
  }

  lemma InnerIsTrimmed(inner: string, key: string, b: string, c: string, value: string)
    requires Storable(key, value) && (value == "" ==> c == "") && inner == key + b + "=" + (c + value)
    ensures Trimmed(inner) && inner != "" && inner[0] == key[0] && inner[0] != '#'
  {
    assert inner[|inner| - 1] == if value == "" then '=' else value[|value| - 1];
  }

  lemma ValueIsTrimmed(c: string, value: string)
    requires Blanks(c) && Trimmed(value) && (value == "" ==> c == "")
    ensures Trim(c + value) == value
  {
    if value == "" {
      assert c + value == "";
    } else {
      assert c + value + "" == c + value;
      TrimBetween(c, value, "");
    }
  }

  lemma EqualsAfter(t: string, front: string, rest: string)
    requires t == front + "=" + rest && '=' !in front
    ensures Find(t, "=") == Some(|front|) && t[..|front|] == front && t[|front| + 1..] == rest
  {
    FirstChar(t, "=", 0);
    assert t[|front|] == '=';
    assert forall i :: 0 <= i < |front| ==> t[i] == front[i];
  }

  lemma {:induction false} TrimLeftStops(blanks: string, s: string)
    requires Blanks(blanks) && (s == "" || !Blank(s[0]))
    ensures TrimLeft(blanks + s) == s
    decreases |blanks|
  {
    if blanks == "" {
      assert blanks + s == s;
    } else {
      assert (blanks + s)[1..] == blanks[1..] + s;
      TrimLeftStops(blanks[1..], s);
    }
  }

  lemma TrimBetween(a: string, s: string, b: string)
    requires Blanks(a) && Blanks(b) && s != "" && Trimmed(s)
    ensures Trim(a + s + b) == s
  {
    assert a + s + b == a + (s + b);
    TrimLeftStops(a, s + b);
    TrimRightStops(s, b);
  }
}
