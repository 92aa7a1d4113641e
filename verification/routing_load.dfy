/** Loading the groups from flat configuration keys, sorting them, and resolving the APN. */
module RoutingLoad {
  import opened Bytes
  import opened Texts
  import opened Routing

  // ----- keys -----

  const GROUP_PREFIX := "imsi-group."

  const TYPE := ".type"
  const PLMN := ".plmn"
  const SERIES_FIELD := ".series"
  const RANGE_START := ".range-start"
  const RANGE_END := ".range-end"
  const PREFIX := ".prefix"
  const APN_PROFILE := ".apn-profile"

  function FieldKey(name: string, field: string): string {
    GROUP_PREFIX + name + field
  }

  /** The group and the field a key names: the group ends at the first dot, which the field keeps. */
  function KeyParts(key: string): (r: Option<(string, string)>) {
    if !StartsWith(key, GROUP_PREFIX) then None
    else
      var remainder := key[|GROUP_PREFIX|..];
      match Find(remainder, ".")
      case None => None
      case Some(dot) => if dot == 0 then None else Some((remainder[..dot], remainder[dot..]))
  }

  predicate GroupName(name: string) {
    name != "" && '.' !in name
  }

  /** Splitting a key is the inverse of putting one together. */
  lemma KeyPartsOfField(name: string, field: string)
    requires GroupName(name) && field != "" && field[0] == '.'
    ensures KeyParts(FieldKey(name, field)) == Some((name, field))
  {
    var key := FieldKey(name, field);
    assert key == GROUP_PREFIX + (name + field);
    var remainder := key[|GROUP_PREFIX|..];
    assert remainder == name + field;
    DotAfterName(remainder, name, field);
  }

  lemma DotAfterName(s: string, name: string, field: string)
    requires s == name + field && GroupName(name) && field != "" && field[0] == '.'
    ensures Find(s, ".") == Some(|name|) && s[..|name|] == name && s[|name|..] == field
  {
    FirstChar(s, ".", 0);
    assert s[|name|] == '.';
    assert forall i :: 0 <= i < |name| ==> s[i] == name[i];
  }

  lemma FieldOfKeyParts(key: string)
    requires KeyParts(key).Some?
    ensures var (name, field) := KeyParts(key).value;
            GroupName(name) && field != "" && field[0] == '.' && key == FieldKey(name, field)
  {
    var remainder := key[|GROUP_PREFIX|..];
    FirstChar(remainder, ".", 0);
    var (name, field) := KeyParts(key).value;
    assert remainder == name + field;
    assert key == GROUP_PREFIX + remainder;
  }

  // ----- the index -----

  function Setting(config: Config, name: string, field: string): string {
    var key := FieldKey(name, field);
    if key in config then config[key] else ""
  }

  function GroupOf(config: Config, name: string): Group {
    Group(
      name,
      Setting(config, name, TYPE),
      Setting(config, name, PLMN),
      Setting(config, name, SERIES_FIELD),
      Setting(config, name, RANGE_START),
      Setting(config, name, RANGE_END),
      Setting(config, name, PREFIX),
      Setting(config, name, APN_PROFILE))
  }

  function GroupNames(config: Config): set<string> {
    set key | key in config && KeyParts(key).Some? :: KeyParts(key).value.0
  }

  /** Every group some key names, with the settings of its fields. */
  function Indexed(config: Config): map<string, Group> {
    map name | name in GroupNames(config) :: GroupOf(config, name)
  }

  const BLANK: Group := Group("", "", "", "", "", "", "", "")

  function WithField(g: Group, field: string, value: string): Group {
    if field == TYPE then g.(kind := value)
    else if field == PLMN then g.(plmn := value)
    else if field == SERIES_FIELD then g.(series := value)
    else if field == RANGE_START then g.(rangeStart := value)
    else if field == RANGE_END then g.(rangeEnd := value)
    else if field == PREFIX then g.(prefix := value)
    else if field == APN_PROFILE then g.(apnProfile := value)
    else g
  }

  lemma SettingWith(config: Config, key: string, value: string, name: string, field: string)
    requires GroupName(name) && field != "" && field[0] == '.'
    ensures Setting(config[key := value], name, field)
         == if KeyParts(key) == Some((name, field)) then value else Setting(config, name, field)
  {
    KeyPartsOfField(name, field);
    if KeyParts(key) == Some((name, field)) {
      FieldOfKeyParts(key);
    }
  }

  /** One more setting changes one field of one group. */
  lemma GroupWith(config: Config, key: string, value: string, name: string)
    requires GroupName(name) && key !in config
    ensures GroupOf(config[key := value], name)
         == match KeyParts(key)
            case None => GroupOf(config, name)
            case Some((owner, field)) =>
              if owner == name then WithField(GroupOf(config, name), field, value) else GroupOf(config, name)
  {
    SettingWith(config, key, value, name, TYPE);
    SettingWith(config, key, value, name, PLMN);
    SettingWith(config, key, value, name, SERIES_FIELD);
    SettingWith(config, key, value, name, RANGE_START);
    SettingWith(config, key, value, name, RANGE_END);
    SettingWith(config, key, value, name, PREFIX);
    SettingWith(config, key, value, name, APN_PROFILE);
  }

  lemma GroupWithoutKeys(config: Config, name: string)
    requires GroupName(name) && name !in GroupNames(config)
    ensures GroupOf(config, name) == BLANK.(name := name)
  {
    forall field: string | field != "" && field[0] == '.'
      ensures Setting(config, name, field) == ""
    {
      if FieldKey(name, field) in config {
        KeyNamesGroup(config, name, field);
        assert false;
      }
    }
  }

  lemma KeyNamesGroup(config: Config, name: string, field: string)
    requires GroupName(name) && field != "" && field[0] == '.' && FieldKey(name, field) in config
    ensures name in GroupNames(config)
  {
    KeyPartsOfField(name, field);
  }

  lemma NamesAreGroupNames(config: Config, name: string)
    requires name in GroupNames(config)
    ensures GroupName(name)
  {
    var key :| key in config && KeyParts(key).Some? && KeyParts(key).value.0 == name;
    FieldOfKeyParts(key);
  }

  /** What the index becomes when one more key is seen. */
  function IndexedWith(index: map<string, Group>, key: string, value: string): map<string, Group> {
    match KeyParts(key)
    case None => index
    case Some((name, field)) =>
      index[name := WithField(if name in index then index[name] else BLANK.(name := name), field, value)]
  }

  lemma IndexedStep(config: Config, key: string, value: string)
    requires key !in config
    ensures Indexed(config[key := value]) == IndexedWith(Indexed(config), key, value)
  {
    var more := config[key := value];
    forall name | name in GroupNames(more)
      ensures Indexed(more)[name] == IndexedWith(Indexed(config), key, value)[name]
    {
      NamesAreGroupNames(more, name);
      GroupWith(config, key, value, name);
      if name !in GroupNames(config) {
        GroupWithoutKeys(config, name);
      }
    }
  }

  method IndexGroups(config: Config) returns (indexed: map<string, Group>)
    ensures indexed == Indexed(config)
  {
    indexed := map[];
    var rest := config;
    ghost var seen: Config := map[];
    while rest != map[]
      invariant indexed == Indexed(seen)
      invariant seen.Keys !! rest.Keys && config == seen + rest
      decreases |rest|
    {
      var key :| key in rest;
      var value := rest[key];
      IndexedStep(seen, key, value);
      MovedKey(config, seen, rest, key);
      indexed := IndexKey(indexed, key, value);
      seen, rest := seen[key := value], rest - {key};
    }
    assert seen == config;
  }

  lemma MovedKey(config: Config, seen: Config, rest: Config, key: string)
    requires seen.Keys !! rest.Keys && config == seen + rest && key in rest
    ensures seen[key := rest[key]].Keys !! (rest - {key}).Keys
    ensures config == seen[key := rest[key]] + (rest - {key}) && |rest - {key}| < |rest|
  {
    assert rest == (rest - {key})[key := rest[key]];
  }

  method IndexKey(index: map<string, Group>, key: string, value: string) returns (indexed: map<string, Group>)
    ensures indexed == IndexedWith(index, key, value)
  {
    indexed := index;
    var parts := KeyParts(key);
    if parts.None? {
      return;
    }
    var (name, field) := parts.value;
    var group := if name in indexed then indexed[name] else BLANK.(name := name);
    group := SetField(group, field, value);
    indexed := indexed[name := group];
  }

  method SetField(g: Group, field: string, value: string) returns (group: Group)
    ensures group == WithField(g, field, value)
  {
    group := g;
    if field == TYPE {
      group := group.(kind := value);
    } else if field == PLMN {
      group := group.(plmn := value);
    } else if field == SERIES_FIELD {
      group := group.(series := value);
    } else if field == RANGE_START {
      group := group.(rangeStart := value);
    } else if field == RANGE_END {
      group := group.(rangeEnd := value);
    } else if field == PREFIX {
      group := group.(prefix := value);
    } else if field == APN_PROFILE {
      group := group.(apnProfile := value);
    }
  }

  // ----- the loaded list -----

  /** The groups that survive normalisation. */
  ghost predicate Accepted(config: Config, g: Group) {
    exists name :: name in GroupNames(config) && Normalised(GroupOf(config, name)) == Some(g)
  }

  /** Exactly the accepted groups, in the comparator's order. */
  ghost predicate IsLoaded(config: Config, gs: seq<Group>) {
    (forall g :: g in gs <==> Accepted(config, g)) && SortedGroups(gs)
  }

  lemma NormalisedKeepsName(g: Group)
    ensures Normalised(g).Some? ==> Normalised(g).value.name == g.name
  {
  }

  /** Two lists sorted by the comparator with the same groups are the same list. */
  lemma {:induction false} SortedListIsUnique(a: seq<Group>, b: seq<Group>)
    requires SortedGroups(a) && SortedGroups(b)
    requires forall g :: g in a <==> g in b
    requires forall g | g in a :: Loaded(g)
    ensures a == b
    decreases |a|
  {
    if b != [] {
      assert b[0] in a;
    }
    if a != [] {
      assert a[0] in b;
      SameHead(a, b);
      TailOfSorted(a);
      TailOfSorted(b);
      SortedListIsUnique(a[1..], b[1..]);
      assert a == [a[0]] + a[1..] && b == [b[0]] + b[1..];
    }
  }

  lemma SameHead(a: seq<Group>, b: seq<Group>)
    requires a != [] && b != [] && SortedGroups(a) && SortedGroups(b)
    requires forall g :: g in a <==> g in b
    requires forall g | g in a :: Loaded(g)
    ensures a[0] == b[0]
  {
    if a[0] != b[0] {
      assert a[0] in b && b[0] in a;
      BeforeIsTransitive(a[0], b[0], a[0]);
      BeforeIsIrreflexive(a[0]);
    }
  }

  lemma TailOfSorted(gs: seq<Group>)
    requires gs != [] && SortedGroups(gs)
    ensures SortedGroups(gs[1..]) && (forall g :: g in gs[1..] <==> g in gs && g != gs[0])
  {
    var rest := gs[1..];
    assert forall i :: 0 <= i < |rest| ==> rest[i] == gs[i + 1];
    forall g | g in rest
      ensures g != gs[0]
    {
      var i :| 0 <= i < |rest| && rest[i] == g;
      assert Before(gs[0], gs[i + 1]);
      BeforeIsIrreflexive(gs[0]);
    }
    assert gs == [gs[0]] + rest;
  }

  /** The loaded list does not depend on how it was sorted. */
  lemma LoadingIsDeterministic(config: Config, a: seq<Group>, b: seq<Group>)
    requires IsLoaded(config, a) && IsLoaded(config, b)
    ensures a == b
  {
    forall g | g in a
      ensures Loaded(g)
    {
    }
    SortedListIsUnique(a, b);
  }

  /** A configuration without group keys loads no groups. */
  lemma NothingLoaded(config: Config)
    requires forall key | key in config :: KeyParts(key).None?
    ensures IsLoaded(config, [])
  {
    assert GroupNames(config) == {};
  }

  // ----- the code -----

  method PlaceOf(gs: seq<Group>, g: Group) returns (i: nat)
    ensures i <= |gs| && (forall k :: 0 <= k < i ==> Before(gs[k], g)) && (i < |gs| ==> !Before(gs[i], g))
  {
    i := 0;
    while i < |gs| && Before(gs[i], g)
      invariant i <= |gs|
      invariant forall k :: 0 <= k < i ==> Before(gs[k], g)
    {
      i := i + 1;
    }
  }

  method InsertSorted(gs: seq<Group>, g: Group) returns (r: seq<Group>)
    requires SortedGroups(gs) && Loaded(g)
    requires forall other | other in gs :: Loaded(other) && other.name != g.name
    ensures SortedGroups(r) && (forall other :: other in r <==> other in gs || other == g)
  {
    var i := PlaceOf(gs, g);
    InsertedIsSorted(gs, g, i);
    r := gs[..i] + [g] + gs[i..];
  }

  lemma InsertedIsSorted(gs: seq<Group>, g: Group, i: nat)
    requires SortedGroups(gs) && Loaded(g) && i <= |gs|
    requires forall other | other in gs :: Loaded(other) && other.name != g.name
    requires forall k :: 0 <= k < i ==> Before(gs[k], g)
    requires i < |gs| ==> !Before(gs[i], g)
    ensures var r := gs[..i] + [g] + gs[i..];
            SortedGroups(r) && (forall other :: other in r <==> other in gs || other == g)
  {
    forall k | i <= k < |gs|
      ensures Before(g, gs[k])
    {
      assert gs[i] in gs && gs[k] in gs;
      BeforeIsTotal(gs[i], g);
      if i < k {
        BeforeIsTransitive(g, gs[i], gs[k]);
      }
    }
    SplicedIsSorted(gs, g, i);
    assert gs == gs[..i] + gs[i..];
  }

  lemma SplicedIsSorted(gs: seq<Group>, g: Group, i: nat)
    requires SortedGroups(gs) && i <= |gs|
    requires forall k :: 0 <= k < i ==> Before(gs[k], g)
    requires forall k :: i <= k < |gs| ==> Before(g, gs[k])
    ensures SortedGroups(gs[..i] + [g] + gs[i..])
  {
    var r := gs[..i] + [g] + gs[i..];
    forall a, b | 0 <= a < b < |r|
      ensures Before(r[a], r[b])
    {
      assert r[a] == if a < i then gs[a] else if a == i then g else gs[a - 1];
      assert r[b] == if b < i then gs[b] else if b == i then g else gs[b - 1];
    }
  }

  /** The accepted groups whose names have been visited. */
  ghost predicate LoadedSoFar(config: Config, groups: seq<Group>, rest: set<string>) {
    forall g :: g in groups <==> Accepted(config, g) && g.name !in rest
  }

  method LoadImsiGroups(config: Config) returns (groups: seq<Group>)
    ensures IsLoaded(config, groups)
  {
    var indexed := IndexGroups(config);
    groups := [];
    var rest := indexed.Keys;
    NoneYet(config);
    while rest != {}
      invariant rest <= GroupNames(config) && SortedGroups(groups) && LoadedSoFar(config, groups, rest)
      decreases |rest|
    {
      var name :| name in rest;
      var normalised := Normalised(indexed[name]);
      ghost var before := groups;
      NewName(config, groups, rest, name);
      if normalised.Some? {
        groups := InsertSorted(groups, normalised.value);
      }
      LoadedNext(config, before, groups, rest, name);
      rest := rest - {name};
    }
  }

  lemma NoneYet(config: Config)
    ensures LoadedSoFar(config, [], GroupNames(config))
  {
    forall g | Accepted(config, g)
      ensures g.name in GroupNames(config)
    {
    }
  }

  lemma NewName(config: Config, groups: seq<Group>, rest: set<string>, name: string)
    requires rest <= GroupNames(config) && name in rest && LoadedSoFar(config, groups, rest)
    ensures forall g | g in groups :: Loaded(g) && g.name != name
    ensures var n := Normalised(GroupOf(config, name)); n.Some? ==> Loaded(n.value) && n.value.name == name
  {
    NormalisedKeepsName(GroupOf(config, name));
    forall g | g in groups
      ensures Loaded(g)
    {
    }
  }

  lemma LoadedNext(config: Config, groups: seq<Group>, next: seq<Group>, rest: set<string>, name: string)
    requires rest <= GroupNames(config) && name in rest && LoadedSoFar(config, groups, rest)
    requires var n := Normalised(GroupOf(config, name));
             forall g :: g in next <==> g in groups || n == Some(g)
    ensures LoadedSoFar(config, next, rest - {name})
  {
    var n := Normalised(GroupOf(config, name));
    NormalisedKeepsName(GroupOf(config, name));
    forall g | Accepted(config, g)
      ensures g.name == name ==> n == Some(g)
    {
    }
    assert n.Some? ==> Accepted(config, n.value);
  }

  method ResolveApnForImsi(config: Config, imsi: string, requestedApn: string)
    returns (apn: string, matchedGroupName: string)
    ensures forall groups :: IsLoaded(config, groups) ==>
              (apn, matchedGroupName) == Route(config, groups, imsi, requestedApn)
  {
    matchedGroupName := "";
    var loaded := LoadImsiGroups(config);
    forall groups | IsLoaded(config, groups)
      ensures groups == loaded
    {
      LoadingIsDeterministic(config, groups, loaded);
    }
    if requestedApn != "" {
      apn := requestedApn;
      return;
    }
    var i := 0;
    while i < |loaded| && !Matches(loaded[i], imsi)
      invariant i <= |loaded| && FirstMatch(loaded, imsi) == FirstMatch(loaded[i..], imsi)
    {
      i := i + 1;
    }
    if i < |loaded| {
      matchedGroupName := loaded[i].name;
      if loaded[i].apnProfile != "" {
        apn := loaded[i].apnProfile;
        return;
      }
    }
    apn := DefaultApn(config);
  }

  /** Longer prefix or boundary, a range before a series, then the smaller name. */
  predicate MoreSpecific(g: Group, other: Group) {
    var length := if g.kind == "range" then |g.rangeStart| else |SeriesPrefix(g)|;
    var otherLength := if other.kind == "range" then |other.rangeStart| else |SeriesPrefix(other)|;
    || length > otherLength
    || (length == otherLength && g.kind == "range" && other.kind == "series")
    || (length == otherLength && g.kind == other.kind && LexLess(g.name, other.name))
  }

  /**
    With no APN requested, the group consulted is the accepted group matching the IMSI that has the longest
    prefix or boundary, a range before a series, then the smallest name; and no group if none matches.
   */
  lemma RoutesToMostSpecific(config: Config, groups: seq<Group>, imsi: string)
    requires IsLoaded(config, groups)
    ensures var fallback := if "default-apn" in config then config["default-apn"] else "";
            match FirstMatch(groups, imsi)
            case None => (forall g | Accepted(config, g) :: !Matches(g, imsi))
                         && Route(config, groups, imsi, "") == (fallback, "")
            case Some(g) =>
              && Accepted(config, g) && Matches(g, imsi)
              && Route(config, groups, imsi, "") == (if g.apnProfile != "" then g.apnProfile else fallback, g.name)
              && forall other | Accepted(config, other) && Matches(other, imsi) && other != g :: MoreSpecific(g, other)
  {
    FirstMatchIsLeast(groups, imsi);
    forall other | Accepted(config, other)
      ensures other.kind == RANGE || other.kind == SERIES
    {
    }
  }
}
