/**
  APN selection in terms of the configured texts: the settings of a group by their keys, what prefix or range they
  amount to, which IMSIs that covers, and which of several groups wins. Nothing here goes through the comparator.
 */
module RoutingLaws {
  import opened Bytes
  import opened Texts
  import opened Routing
  import opened RoutingLoad

  // ----- a group as its keys configure it -----

  function At(config: Config, name: string, field: string): string {
    var key := "imsi-group." + name + "." + field;
    if key in config then config[key] else ""
  }

  /** A group is named by any key that starts with its name and a dot. */
  ghost predicate Names(config: Config, name: string) {
    name != "" && '.' !in name && exists key :: key in config && StartsWith(key, "imsi-group." + name + ".")
  }

  /** The configured text if it starts with the PLMN, and otherwise the PLMN followed by it. */
  function Whole(plmn: string, text: string): string {
    if plmn <= text then text else plmn + text
  }

  predicate PlmnIsFine(plmn: string) {
    plmn == "" || (AllDigits(plmn) && (|plmn| == 5 || |plmn| == 6))
  }

  predicate Digits5To15(s: string) {
    AllDigits(s) && 5 <= |s| <= 15
  }

  /** A group with its settings, by their keys. */
  function Configured(config: Config, name: string): Group {
    Group(name, At(config, name, "type"), At(config, name, "plmn"), At(config, name, "series"),
          At(config, name, "range-start"), At(config, name, "range-end"), At(config, name, "prefix"),
          At(config, name, "apn-profile"))
  }

  /** The prefix of a group that is configured as a usable series: its series, or else its prefix setting. */
  function UsablePrefix(g: Group): Option<string> {
    var text := if g.series != "" then g.series else g.prefix;
    if && (g.kind == "series" || (g.kind == "" && g.rangeStart == "" && g.rangeEnd == ""))
       && text != "" && Digits5To15(Whole(g.plmn, text)) && PlmnIsFine(g.plmn)
    then Some(Whole(g.plmn, text))
    else None
  }

  /** The boundaries of a group that is configured as a usable range. */
  function UsableRange(g: Group): Option<(string, string)> {
    var low, high := Whole(g.plmn, g.rangeStart), Whole(g.plmn, g.rangeEnd);
    if && (g.kind == "range" || g.kind == "") && g.rangeStart != "" && g.rangeEnd != ""
       && Digits5To15(low) && Digits5To15(high) && PlmnIsFine(g.plmn)
       && |low| == |high| && NumberOf(low) <= NumberOf(high)
    then Some((low, high))
    else None
  }

  function PrefixOf(config: Config, name: string): Option<string> {
    UsablePrefix(Configured(config, name))
  }

  function BoundariesOf(config: Config, name: string): Option<(string, string)> {
    UsableRange(Configured(config, name))
  }

  /** The IMSIs a group covers: those with its prefix, or those of its length between its boundaries. */
  predicate Covers(config: Config, name: string, imsi: string) {
    && imsi != "" && AllDigits(imsi)
    && match PrefixOf(config, name)
       case Some(p) => p <= imsi
       case None =>
         match BoundariesOf(config, name)
         case None => false
         case Some((low, high)) =>
           Digits5To15(low) && Digits5To15(high) && |imsi| == |low| && NumberOf(low) <= NumberOf(imsi) <= NumberOf(high)
  }

  /** How many digits of an IMSI a group looks at. */
  function LengthOf(config: Config, name: string): nat {
    match PrefixOf(config, name)
    case Some(p) => |p|
    case None => match BoundariesOf(config, name) case None => 0 case Some((low, _)) => |low|
  }

  // ----- the loaded groups are those -----

  lemma SettingIsAt(config: Config, name: string)
    ensures GroupOf(config, name) == Configured(config, name)
  {
    KeyIs(config, name, ".type", "type");
    KeyIs(config, name, ".plmn", "plmn");
    KeyIs(config, name, ".series", "series");
    KeyIs(config, name, ".range-start", "range-start");
    KeyIs(config, name, ".range-end", "range-end");
    KeyIs(config, name, ".prefix", "prefix");
    KeyIs(config, name, ".apn-profile", "apn-profile");
  }

  lemma KeyIs(config: Config, name: string, field: string, bare: string)
    requires field == "." + bare
    ensures Setting(config, name, field) == At(config, name, bare)
  {
    assert "imsi-group." + name + "." + bare == "imsi-group." + name + field;
  }

  lemma NamesAreGroups(config: Config, name: string)
    ensures Names(config, name) <==> name in GroupNames(config)
  {
    var front := "imsi-group." + name + ".";
    if name in GroupNames(config) {
      var key :| key in config && KeyParts(key).Some? && KeyParts(key).value.0 == name;
      FieldOfKeyParts(key);
      var field := KeyParts(key).value.1;
      assert field == "." + field[1..];
      assert key == front + field[1..];
      assert StartsWith(key, front);
    }
    if Names(config, name) {
      var key :| key in config && StartsWith(key, front);
      var field := "." + key[|front|..];
      assert key == FieldKey(name, field);
      KeyPartsOfField(name, field);
    }
  }

  /** A configured group is loaded exactly when it is a usable series or a usable range, and then as that. */
  lemma LoadedByText(config: Config, name: string)
    ensures match Normalised(GroupOf(config, name))
            case None => PrefixOf(config, name).None? && BoundariesOf(config, name).None?
            case Some(g) =>
              && g.name == name && g.apnProfile == At(config, name, "apn-profile")
              && if g.kind == "range" then
                   PrefixOf(config, name).None? && BoundariesOf(config, name) == Some((g.rangeStart, g.rangeEnd))
                 else g.kind == "series" && PrefixOf(config, name) == Some(SeriesPrefix(g))
  {
    SettingIsAt(config, name);
    SeriesByText(Configured(config, name));
    RangeByText(Configured(config, name));
  }

  lemma SeriesByText(g: Group)
    ensures (Normalised(g).Some? && Normalised(g).value.kind != "range") <==> UsablePrefix(g).Some?
    ensures UsablePrefix(g).Some? ==>
              var n := Normalised(g).value;
              n.kind == "series" && n.name == g.name && n.apnProfile == g.apnProfile
              && Some(SeriesPrefix(n)) == UsablePrefix(g)
  {
    WholeIsWithPlmn(g.plmn, if g.series != "" then g.series else g.prefix);
  }

  lemma RangeByText(g: Group)
    ensures (Normalised(g).Some? && Normalised(g).value.kind == "range") <==> UsableRange(g).Some?
    ensures UsableRange(g).Some? ==>
              var n := Normalised(g).value;
              n.name == g.name && n.apnProfile == g.apnProfile && UsableRange(g) == Some((n.rangeStart, n.rangeEnd))
  {
    WholeIsWithPlmn(g.plmn, g.rangeStart);
    WholeIsWithPlmn(g.plmn, g.rangeEnd);
    RangeIsNumeric(Whole(g.plmn, g.rangeStart), Whole(g.plmn, g.rangeEnd));
  }

  lemma WholeIsWithPlmn(plmn: string, text: string)
    ensures WithPlmn(plmn, text) == Whole(plmn, text)
  {
  }

  lemma RangeIsNumeric(low: string, high: string)
    ensures ValidRange(low, high) <==>
            && Digits5To15(low) && Digits5To15(high) && |low| == |high| && NumberOf(low) <= NumberOf(high)
  {
    if Digits5To15(low) && Digits5To15(high) && |low| == |high| {
      LexIsNumeric(low, high);
      LexIsNumeric(high, low);
      LexTotal(low, high);
      LexAsymmetric(low, high);
    }
  }

  lemma LexAsymmetric(a: string, b: string)
    ensures !(LexLess(a, b) && LexLess(b, a))
  {
    if LexLess(a, b) && LexLess(b, a) {
      LexTransitive(a, b, a);
      LexIrreflexive(a);
    }
  }

  lemma MatchesByText(config: Config, name: string, imsi: string)
    requires Normalised(GroupOf(config, name)).Some?
    ensures Matches(Normalised(GroupOf(config, name)).value, imsi) <==> Covers(config, name, imsi)
  {
    var g := Normalised(GroupOf(config, name)).value;
    LoadedByText(config, name);
    assert Loaded(g);
    if g.kind == "range" {
      RangeMatchIsNumeric(g, imsi);
    } else {
      SeriesMatchIsPrefix(g, imsi);
    }
  }

  // ----- selection -----

  /** The first name wins over the second for an IMSI both cover: more digits, then a range, then the smaller name. */
  predicate Wins(config: Config, winner: string, other: string) {
    || LengthOf(config, winner) > LengthOf(config, other)
    || (LengthOf(config, winner) == LengthOf(config, other)
        && if PrefixOf(config, winner).None? != PrefixOf(config, other).None? then PrefixOf(config, winner).None?
           else LexLess(winner, other))
  }

  function Fallback(config: Config): string {
    if "default-apn" in config then config["default-apn"] else ""
  }

  /**
    A requested APN is taken as it is. Otherwise the named group that covers the IMSI and wins over every other such
    group gives its profile, or the default APN if it has none; and the default APN serves where no group covers.
   */
  lemma SelectionByText(config: Config, groups: seq<Group>, imsi: string, requested: string)
    requires IsLoaded(config, groups)
    ensures requested != "" ==> Route(config, groups, imsi, requested) == (requested, "")
    ensures requested == "" ==>
              var (apn, winner) := Route(config, groups, imsi, requested);
              if winner == "" then
                apn == Fallback(config) && forall name :: Names(config, name) ==> !Covers(config, name, imsi)
              else
                && Names(config, winner) && Covers(config, winner, imsi)
                && apn == (if At(config, winner, "apn-profile") != "" then At(config, winner, "apn-profile")
                           else Fallback(config))
                && forall name :: Names(config, name) && Covers(config, name, imsi) && name != winner ==>
                     Wins(config, winner, name)
  {
    if requested == "" {
      RoutesToMostSpecific(config, groups, imsi);
      match FirstMatch(groups, imsi) {
        case None => NoneCovers(config, imsi);
        case Some(g) => WinnerByText(config, imsi, g);
      }
    }
  }

  lemma NoneCovers(config: Config, imsi: string)
    requires forall g | Accepted(config, g) :: !Matches(g, imsi)
    ensures forall name :: Names(config, name) ==> !Covers(config, name, imsi)
  {
    forall name | Names(config, name)
      ensures !Covers(config, name, imsi)
    {
      NamesAreGroups(config, name);
      LoadedByText(config, name);
      if Normalised(GroupOf(config, name)).Some? {
        MatchesByText(config, name, imsi);
        assert Accepted(config, Normalised(GroupOf(config, name)).value);
      }
    }
  }

  /** An accepted group is the normal form of the group of its name. */
  lemma AcceptedHasName(config: Config, g: Group)
    requires Accepted(config, g)
    ensures g.name in GroupNames(config) && g.name != "" && Normalised(GroupOf(config, g.name)) == Some(g)
  {
    var name :| name in GroupNames(config) && Normalised(GroupOf(config, name)) == Some(g);
    NormalisedKeepsName(GroupOf(config, name));
    NamesAreGroupNames(config, name);
  }

  lemma WinnerByText(config: Config, imsi: string, g: Group)
    requires Accepted(config, g) && Matches(g, imsi)
    requires forall other | Accepted(config, other) && Matches(other, imsi) && other != g :: MoreSpecific(g, other)
    ensures g.name != "" && Names(config, g.name) && Covers(config, g.name, imsi)
    ensures g.apnProfile == At(config, g.name, "apn-profile")
    ensures forall name :: Names(config, name) && Covers(config, name, imsi) && name != g.name ==>
              Wins(config, g.name, name)
  {
    AcceptedHasName(config, g);
    NamesAreGroups(config, g.name);
    LoadedByText(config, g.name);
    MatchesByText(config, g.name, imsi);
    forall name | Names(config, name) && Covers(config, name, imsi) && name != g.name
      ensures Wins(config, g.name, name)
    {
      CoveringIsMatch(config, imsi, name);
      OtherLoses(config, g, Normalised(GroupOf(config, name)).value);
    }
  }

  lemma CoveringIsMatch(config: Config, imsi: string, name: string)
    requires Names(config, name) && Covers(config, name, imsi)
    ensures name in GroupNames(config) && Normalised(GroupOf(config, name)).Some?
    ensures var other := Normalised(GroupOf(config, name)).value;
            Accepted(config, other) && other.name == name && Matches(other, imsi)
  {
    NamesAreGroups(config, name);
    LoadedByText(config, name);
    MatchesByText(config, name, imsi);
    assert Accepted(config, Normalised(GroupOf(config, name)).value);
  }

  lemma OtherLoses(config: Config, g: Group, other: Group)
    requires Normalised(GroupOf(config, g.name)) == Some(g) && Normalised(GroupOf(config, other.name)) == Some(other)
    requires MoreSpecific(g, other)
    ensures Wins(config, g.name, other.name)
  {
    LoadedByText(config, g.name);
    LoadedByText(config, other.name);
  }
}
