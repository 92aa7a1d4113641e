/** Which configurations survive saving and a restart. */
module ConfigRestart {
  import opened Bytes
  import opened Texts
  import opened Listings
  import opened ConfigText
  import opened ConfigStores

  // ----- reading back what was written -----

  lemma {:induction false} ConfigCons(e: (string, string), es: seq<(string, string)>)
    ensures ConfigOf([e] + es) == map[e.0 := e.1] + ConfigOf(es)
    decreases |es|
  {
    var all := [e] + es;
    if es == [] {
      assert all == [e] && all[..0] == [];
      assert ConfigOf(all) == ConfigOf([])[e.0 := e.1];
    } else {
      assert all[..|all| - 1] == [e] + es[..|es| - 1];
      ConfigCons(e, es[..|es| - 1]);
    }
  }

  lemma {:induction false} LoadsEntries(config: Config, es: seq<(string, string)>)
    requires forall e | e in es :: Storable(e.0, e.1)
    ensures LoadFrom(config, Flat(EntryLine, es)) == config + ConfigOf(es)
    decreases |es|
  {
    if es != [] {
      var (key, value) := es[0];
      var rest := Flat(EntryLine, es[1..]);
      assert es[0] in es;
      StorableParses(key, value);
      assert Flat(EntryLine, es) == LineOf(key, value) + "\n" + rest;
      LoadsLine(config, LineOf(key, value), rest);
      LoadsEntries(config[key := value], es[1..]);
      ConfigCons(es[0], es[1..]);
      assert es == [es[0]] + es[1..];
      Overwrites(config, key, value, ConfigOf(es[1..]));
    }
  }

  lemma Overwrites(config: Config, key: string, value: string, rest: Config)
    ensures config[key := value] + rest == config + (map[key := value] + rest)
  {
  }

  /** A header is a comment line, or nothing. */
  lemma HeaderIsSkipped(config: Config, header: string, rest: string)
    requires header in {"", MME_HEADER, SGSN_HEADER}
    ensures LoadFrom(config, header + rest) == LoadFrom(config, rest)
  {
    if header == "" {
      assert header + rest == rest;
    } else if header == MME_HEADER {
      assert "# vMME configuration" + "\n" == MME_HEADER;
      CommentIsSkipped(config, "# vMME configuration", rest);
    } else {
      assert "# vSGSN configuration" + "\n" == SGSN_HEADER;
      CommentIsSkipped(config, "# vSGSN configuration", rest);
    }
  }

  lemma CommentIsSkipped(config: Config, line: string, rest: string)
    requires line != "" && line[0] == '#' && '\n' !in line && Trimmed(line)
    ensures LoadFrom(config, (line + "\n") + rest) == LoadFrom(config, rest)
  {
    assert (line + "\n") + rest == line + "\n" + rest;
    TrimIsTrimmed(line);
    LoadsLine(config, line, rest);
  }

  /** A written file loads as an update by exactly the settings it shows. */
  lemma LoadsShown(config: Config, text: string, header: string, shown: Config)
    requires header in {"", MME_HEADER, SGSN_HEADER}
    requires Shows(text, header, shown) && AllStorable(shown)
    ensures LoadFrom(config, text) == config + shown
  {
    var es: seq<(string, string)> :| ConfigOf(es) == shown && |es| == |shown| && text == header + Flat(EntryLine, es);
    ListedOnce(KeyOf, ValueOf, es);
    forall e | e in es
      ensures Storable(e.0, e.1)
    {
      var i :| 0 <= i < |es| && es[i] == e;
      assert KeyOf(es[i]) in shown && shown[KeyOf(es[i])] == ValueOf(es[i]);
    }
    HeaderIsSkipped(config, header, Flat(EntryLine, es));
    LoadsEntries(config, es);
  }

  /** Every key goes to some file, and the files agree. */
  lemma FilesCover(base: Config, config: Config)
    ensures base + Selected(config, GoesToRuntime) + Selected(config, MmeSpecific) + Selected(config, SgsnSpecific)
         == base + config
  {
    forall key | key in config
      ensures GoesToRuntime(key) || MmeSpecific(key) || SgsnSpecific(key)
    {
    }
  }

  // ----- aliases -----

  predicate HasValue(config: Config, key: string) {
    key in config && config[key] != ""
  }

  /** The value the last applicable rule gives a target, if any. */
  function Aliased(config: Config, rules: seq<(string, string)>, key: string): Option<string> {
    if rules == [] then None
    else
      var (source, target) := rules[|rules| - 1];
      if target == key && HasValue(config, source) then Some(config[source])
      else Aliased(config, rules[..|rules| - 1], key)
  }

  /** No rule's source is a rule's target. */
  predicate Flow(rules: seq<(string, string)>) {
    forall i, j :: 0 <= i < |rules| && 0 <= j < |rules| ==> rules[i].0 != rules[j].1
  }

  predicate IsTarget(rules: seq<(string, string)>, key: string) {
    exists i :: 0 <= i < |rules| && rules[i].1 == key
  }

  lemma {:induction false} OnlyTargetsAliased(config: Config, rules: seq<(string, string)>, key: string)
    ensures Aliased(config, rules, key).Some? ==> IsTarget(rules, key)
  {
    if rules != [] {
      OnlyTargetsAliased(config, rules[..|rules| - 1], key);
      assert forall i :: 0 <= i < |rules| - 1 ==> rules[..|rules| - 1][i] == rules[i];
    }
  }

  /** Key by key, applying the rules replaces exactly the aliased targets. */
  lemma {:induction false} AliasesAt(config: Config, rules: seq<(string, string)>, key: string)
    requires Flow(rules)
    ensures var after, a := AliasAll(config, rules), Aliased(config, rules, key);
            && (key in after <==> key in config || a.Some?)
            && (key in after ==> after[key] == if a.Some? then a.value else config[key])
    decreases |rules|
  {
    if rules != [] {
      var init, source := rules[..|rules| - 1], rules[|rules| - 1].0;
      assert Flow(init);
      AliasesAt(config, init, key);
      AliasesAt(config, init, source);
      OnlyTargetsAliased(config, init, source);
    }
  }

  lemma {:induction false} SameSourcesSameAliases(a: Config, b: Config, rules: seq<(string, string)>, key: string)
    requires forall i :: 0 <= i < |rules| ==>
              && HasValue(a, rules[i].0) == HasValue(b, rules[i].0)
              && (HasValue(a, rules[i].0) ==> a[rules[i].0] == b[rules[i].0])
    ensures Aliased(a, rules, key) == Aliased(b, rules, key)
  {
    if rules != [] {
      SameSourcesSameAliases(a, b, rules[..|rules| - 1], key);
    }
  }

  /** Applying such rules twice changes nothing more. */
  lemma AliasesAreIdempotent(config: Config, rules: seq<(string, string)>)
    requires Flow(rules)
    ensures AliasAll(AliasAll(config, rules), rules) == AliasAll(config, rules)
  {
    var once := AliasAll(config, rules);
    var twice := AliasAll(once, rules);
    forall i | 0 <= i < |rules|
      ensures HasValue(once, rules[i].0) == HasValue(config, rules[i].0)
      ensures HasValue(once, rules[i].0) ==> once[rules[i].0] == config[rules[i].0]
    {
      AliasesAt(config, rules, rules[i].0);
      OnlyTargetsAliased(config, rules, rules[i].0);
    }
    forall key: string
      ensures (key in twice <==> key in once) && (key in once ==> twice[key] == once[key])
    {
      AliasesAt(config, rules, key);
      AliasesAt(once, rules, key);
      SameSourcesSameAliases(once, config, rules, key);
    }
  }

  predicate StorableTargets(rules: seq<(string, string)>) {
    forall i :: 0 <= i < |rules| ==> Storable(rules[i].1, "")
  }

  lemma {:induction false} AliasesStayStorable(config: Config, rules: seq<(string, string)>)
    requires AllStorable(config) && StorableTargets(rules)
    ensures AllStorable(AliasAll(config, rules)) && config.Keys <= AliasAll(config, rules).Keys
  {
    if rules != [] {
      AliasesStayStorable(config, rules[..|rules| - 1]);
    }
  }

  lemma RulesAreStorable()
    ensures StorableTargets(ALIASES)
  {
  }

  // ----- the restart -----

  lemma DefaultsAreStorable()
    ensures AllStorable(DEFAULTS)
  {
  }

  /** Every reloaded configuration is storable, holds the defaults' keys and obeys the aliases. */
  lemma ReloadedIsClosed(files: Files)
    ensures var c := Reload(files);
            AllStorable(c) && DEFAULTS.Keys <= c.Keys && ApplyAliases(c) == c
  {
    DefaultsAreStorable();
    var one := LoadFrom(DEFAULTS, files.runtime);
    var two := LoadFrom(one, files.mme);
    var three := LoadFrom(two, files.sgsn);
    LoadedIsStorable(DEFAULTS, files.runtime);
    LoadKeepsKeys(DEFAULTS, files.runtime);
    LoadedIsStorable(one, files.mme);
    LoadKeepsKeys(one, files.mme);
    LoadedIsStorable(two, files.sgsn);
    LoadKeepsKeys(two, files.sgsn);
    RulesAreStorable();
    AliasesStayStorable(three, ALIASES);
    AliasesAreIdempotent(three, ALIASES);
  }

  lemma ReloadsSaved(files: Files, config: Config)
    requires Saved(files, config) && AllStorable(config)
    ensures Reload(files) == ApplyAliases(DEFAULTS + config)
  {
    var a, b, c := Selected(config, GoesToRuntime), Selected(config, MmeSpecific), Selected(config, SgsnSpecific);
    LoadsShown(DEFAULTS, files.runtime, "", a);
    LoadsShown(DEFAULTS + a, files.mme, MME_HEADER, b);
    LoadsShown(DEFAULTS + a + b, files.sgsn, SGSN_HEADER, c);
    FilesCover(DEFAULTS, config);
  }

  /**
    A saved configuration comes back from its files exactly when its settings are storable, it has a value
    for every default key, and it obeys its own aliases.
   */
  lemma RestartBoundary(files: Files, config: Config)
    requires Saved(files, config)
    ensures Reload(files) == config <==>
            AllStorable(config) && DEFAULTS.Keys <= config.Keys && ApplyAliases(config) == config
  {
    ReloadedIsClosed(files);
    if AllStorable(config) && DEFAULTS.Keys <= config.Keys {
      ReloadsSaved(files, config);
      Overridden(DEFAULTS, config);
    }
  }

  lemma Overridden(base: Config, config: Config)
    requires base.Keys <= config.Keys
    ensures base + config == config
  {
  }

  // ----- runs of settings -----

  function RunConfig(found: Files, sets: seq<(string, string)>): Config {
    if sets == [] then Reload(found)
    else
      var (key, value) := sets[|sets| - 1];
      Set(RunConfig(found, sets[..|sets| - 1]), key, value)
  }

  lemma SyncedIsStorable(config: Config, key: string, value: string)
    requires AllStorable(config) && Storable(key, value)
    ensures AllStorable(Sync(config, key, value)) && config.Keys <= Sync(config, key, value).Keys
  {
  }

  lemma SetIsClosed(config: Config, key: string, value: string)
    requires AllStorable(config) && Storable(key, value) && DEFAULTS.Keys <= config.Keys
    ensures var c := Set(config, key, value);
            AllStorable(c) && DEFAULTS.Keys <= c.Keys && ApplyAliases(c) == c
  {
    var changed := config[key := value];
    SyncedIsStorable(changed, key, value);
    RulesAreStorable();
    AliasesStayStorable(Sync(changed, key, value), ALIASES);
    AliasesAreIdempotent(Sync(changed, key, value), ALIASES);
  }

  /** Whatever files were found at start, any run of storable settings survives the next restart. */
  lemma RunSurvivesRestart(found: Files, sets: seq<(string, string)>, files: Files)
    requires forall e | e in sets :: Storable(e.0, e.1)
    requires Saved(files, RunConfig(found, sets))
    ensures Reload(files) == RunConfig(found, sets)
  {
    RunIsClosed(found, sets);
    RestartBoundary(files, RunConfig(found, sets));
  }

  lemma {:induction false} RunIsClosed(found: Files, sets: seq<(string, string)>)
    requires forall e | e in sets :: Storable(e.0, e.1)
    ensures var c := RunConfig(found, sets);
            AllStorable(c) && DEFAULTS.Keys <= c.Keys && ApplyAliases(c) == c
  {
    if sets == [] {
      ReloadedIsClosed(found);
    } else {
      var (key, value) := sets[|sets| - 1];
      assert sets[|sets| - 1] in sets;
      RunIsClosed(found, sets[..|sets| - 1]);
      SetIsClosed(RunConfig(found, sets[..|sets| - 1]), key, value);
    }
  }

  /** Setting a key keeps the value unless an alias with another value takes the key back. */
  lemma SetSticks(config: Config, key: string, value: string)
    ensures var changed := Sync(config[key := value], key, value);
            && key in Set(config, key, value)
            && (Set(config, key, value)[key] == value <==> Aliased(changed, ALIASES, key) in {None, Some(value)})
  {
    AliasesAt(Sync(config[key := value], key, value), ALIASES, key);
  }

  /** An empty key is written as a line without a key, and lost. */
  lemma EmptyKeyIsLost(value: string)
    ensures ParseLine(LineOf("", value)) == None
  {
    var line := LineOf("", value);
    assert line == " " + ("= " + value);
    assert line[1..] == "= " + value;
    assert TrimLeft(line) == "= " + value;
    TrimRightKeepsStart("= " + value);
    var t := Trim(line);
    assert t != "" ==> t[0] == '=';
    if t != "" {
      assert t[0..1] == "=";
      FindIs(t, "=", 0, 0);
      assert t[..0] == "" && Trim("") == "";
    }
  }

  lemma TrimRightKeepsStart(s: string)
    requires s != ""
    ensures TrimRight(s) != "" ==> TrimRight(s)[0] == s[0]
  {
    TrimRightIsPrefix(s);
  }
}
