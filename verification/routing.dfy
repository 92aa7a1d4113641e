/** IMSI groups and the APN they route to: `src/subscriber_config.h`. */
module Routing {
  import opened Bytes
  import opened Texts

  type Config = map<string, string>

  const RANGE := "range"
  const SERIES := "series"

  datatype Group = Group(
    name: string,
    kind: string,
    plmn: string,
    series: string,
    rangeStart: string,
    rangeEnd: string,
    prefix: string,
    apnProfile: string)

  // ----- validity and normalisation -----

  predicate ValidPlmn(s: string) {
    (|s| == 5 || |s| == 6) && DigitsOnly(s)
  }

  /** `isValidImsiPrefix` and `isValidImsiRangeBoundary`, which are the same test. */
  predicate ValidBoundary(s: string) {
    5 <= |s| <= 15 && DigitsOnly(s)
  }

  /** `compareImsiNumeric`: the strings are comparable, and then whether the first is less. */
  function CompareNumeric(a: string, b: string): Option<bool> {
    if |a| != |b| || !DigitsOnly(a) || !DigitsOnly(b) then None else Some(LexLess(a, b))
  }

  /** The text, made to start with the PLMN unless it does already. */
  function WithPlmn(plmn: string, s: string): string {
    if plmn != "" && !StartsWith(s, plmn) then plmn + s else s
  }

  /** `normalizeImsiSeriesPrefix`. */
  function SeriesPrefix(g: Group): string {
    var s := if g.series == "" then g.prefix else g.series;
    if s == "" then "" else WithPlmn(g.plmn, s)
  }

  /** `normalizeImsiRangeBoundaries`. */
  function RangeBoundaries(g: Group): Option<(string, string)> {
    if g.rangeStart == "" || g.rangeEnd == "" then None
    else Some((WithPlmn(g.plmn, g.rangeStart), WithPlmn(g.plmn, g.rangeEnd)))
  }

  /** Boundaries of one length, digits only, in order. */
  predicate ValidRange(start: string, end: string) {
    && ValidBoundary(start) && ValidBoundary(end)
    && match CompareNumeric(start, end)
       case None => false
       case Some(less) => less || start == end
  }

  predicate Matches(g: Group, imsi: string) {
    && DigitsOnly(imsi)
    && (g.plmn != "" ==> StartsWith(imsi, g.plmn))
    && if g.kind == RANGE then
         match RangeBoundaries(g)
         case None => false
         case Some((start, end)) =>
           && ValidRange(start, end) && |imsi| == |start|
           && !LexLess(imsi, start) && !LexLess(end, imsi)
       else
         SeriesPrefix(g) != "" && StartsWith(imsi, SeriesPrefix(g))
  }

  /** What loading makes of one indexed group: nothing, or the group with its type and boundaries settled. */
  function Normalised(g: Group): Option<Group> {
    var kind := if g.kind != "" then g.kind else if g.rangeStart != "" || g.rangeEnd != "" then RANGE else SERIES;
    var n := g.(kind := kind);
    if kind == SERIES then
      var s := if n.series == "" then n.(series := n.prefix) else n;
      if SeriesPrefix(s) != "" && ValidBoundary(SeriesPrefix(s)) && (s.plmn == "" || ValidPlmn(s.plmn)) then Some(s)
      else None
    else if kind == RANGE then
      match RangeBoundaries(n)
      case None => None
      case Some((start, end)) =>
        if ValidRange(start, end) && (n.plmn == "" || ValidPlmn(n.plmn)) then
          Some(n.(rangeStart := start, rangeEnd := end))
        else None
    else None
  }

  // ----- the comparator -----

  function Score(g: Group): nat {
    if g.kind == RANGE then |g.rangeStart| else |SeriesPrefix(g)|
  }

  predicate Before(a: Group, b: Group) {
    if Score(a) != Score(b) then Score(a) > Score(b)
    else if a.kind != b.kind then a.kind == RANGE
    else LexLess(a.name, b.name)
  }

  predicate SortedGroups(gs: seq<Group>) {
    forall i, j :: 0 <= i < j < |gs| ==> Before(gs[i], gs[j])
  }

  /** What loading returns: groups it has normalised. */
  ghost predicate Loaded(g: Group) {
    exists raw :: Normalised(raw) == Some(g)
  }

  lemma BeforeIsIrreflexive(a: Group)
    ensures !Before(a, a)
  {
    LexIrreflexive(a.name);
  }

  lemma BeforeIsTransitive(a: Group, b: Group, c: Group)
    requires Loaded(a) && Loaded(b) && Loaded(c)
    requires Before(a, b) && Before(b, c)
    ensures Before(a, c)
  {
    if Score(a) == Score(c) && a.kind == c.kind {
      LexTransitive(a.name, b.name, c.name);
    }
  }

  lemma BeforeIsTotal(a: Group, b: Group)
    requires Loaded(a) && Loaded(b) && a.name != b.name
    ensures Before(a, b) || Before(b, a)
  {
    LexTotal(a.name, b.name);
  }

  // ----- matching, restated -----

  /** Normalising twice is normalising once. */
  lemma NormalisationIsIdempotent(g: Group)
    ensures Normalised(g).Some? ==> Normalised(Normalised(g).value) == Normalised(g)
  {
  }

  lemma {:induction false} PrefixIsConvex(p: string, a: string, x: string, b: string)
    requires StartsWith(a, p) && StartsWith(b, p)
    requires !LexLess(x, a) && !LexLess(b, x)
    ensures StartsWith(x, p)
  {
    if p != "" {
      if x != "" {
        PrefixIsConvex(p[1..], a[1..], x[1..], b[1..]);
        assert x == [x[0]] + x[1..] && p == [p[0]] + p[1..];
      }
    }
  }

  /** A loaded range matches exactly the digit strings of its length whose number lies between its boundaries. */
  lemma RangeMatchIsNumeric(g: Group, imsi: string)
    requires Loaded(g) && g.kind == RANGE
    ensures DigitsOnly(g.rangeStart) && DigitsOnly(g.rangeEnd) && |g.rangeStart| == |g.rangeEnd|
    ensures Matches(g, imsi) <==>
            && DigitsOnly(imsi) && |imsi| == |g.rangeStart|
            && NumberOf(g.rangeStart) <= NumberOf(imsi) <= NumberOf(g.rangeEnd)
  {
    if DigitsOnly(imsi) && |imsi| == |g.rangeStart| {
      LexIsNumeric(imsi, g.rangeStart);
      LexIsNumeric(g.rangeEnd, imsi);
      if !LexLess(imsi, g.rangeStart) && !LexLess(g.rangeEnd, imsi) && g.plmn != "" {
        PrefixIsConvex(g.plmn, g.rangeStart, imsi, g.rangeEnd);
      }
    }
  }

  /** A loaded series matches exactly the digit strings that start with its prefix; the PLMN test adds nothing. */
  lemma SeriesMatchIsPrefix(g: Group, imsi: string)
    requires Loaded(g) && g.kind == SERIES
    ensures ValidBoundary(SeriesPrefix(g))
    ensures Matches(g, imsi) <==> DigitsOnly(imsi) && StartsWith(imsi, SeriesPrefix(g))
  {
    var raw :| Normalised(raw) == Some(g);
    if StartsWith(imsi, SeriesPrefix(g)) && g.plmn != "" {
      assert g.plmn <= SeriesPrefix(g) <= imsi;
    }
  }

  // ----- selection -----

  function FirstMatch(gs: seq<Group>, imsi: string): Option<Group> {
    if gs == [] then None
    else if Matches(gs[0], imsi) then Some(gs[0])
    else FirstMatch(gs[1..], imsi)
  }

  const DEFAULT_APN := "default-apn"

  function DefaultApn(config: Config): string {
    if DEFAULT_APN in config then config[DEFAULT_APN] else ""
  }

  /** The APN and, when a group was consulted, its name. */
  function Route(config: Config, gs: seq<Group>, imsi: string, requested: string): (string, string) {
    if requested != "" then (requested, "")
    else
      match FirstMatch(gs, imsi)
      case None => (DefaultApn(config), "")
      case Some(g) => (if g.apnProfile != "" then g.apnProfile else DefaultApn(config), g.name)
  }

  /** Of a sorted list, the first match is the match that comes before every other match. */
  lemma {:induction false} FirstMatchIsLeast(gs: seq<Group>, imsi: string)
    requires SortedGroups(gs)
    ensures match FirstMatch(gs, imsi)
            case None => forall g | g in gs :: !Matches(g, imsi)
            case Some(g) =>
              && g in gs && Matches(g, imsi)
              && forall other | other in gs && Matches(other, imsi) :: other == g || Before(g, other)
  {
    if gs != [] && !Matches(gs[0], imsi) {
      var rest := gs[1..];
      assert forall i, j :: 0 <= i < j < |rest| ==> rest[i] == gs[i + 1] && rest[j] == gs[j + 1];
      FirstMatchIsLeast(rest, imsi);
      assert gs == [gs[0]] + rest;
    }
  }
}
