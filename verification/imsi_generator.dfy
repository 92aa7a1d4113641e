/** IMSI specifications and their generation: `src/imsi_module.cpp`. Counters are 64-bit and wrap. */
module ImsiGenerator {
  import opened Texts
  import JsonScan

  const WORD: nat := 0x1_0000_0000_0000_0000

  type uint64 = x: int | 0 <= x < 0x1_0000_0000_0000_0000

  datatype Selection = Range(first: uint64, last: uint64) | Series(prefix: string, count: uint64)

  datatype Spec = Spec(plmns: seq<string>, selection: Selection)

  predicate ValidPlmn(p: string) {
    DigitsOnly(p) && (|p| == 5 || |p| == 6)
  }

  function MsinLength(plmn: string): nat {
    if |plmn| < 15 then 15 - |plmn| else 0
  }

  // ----- powers of ten in 64 bits -----

  lemma PowersFit(n: nat)
    requires n <= 10
    ensures Pow10(n) <= 10_000_000_000
  {
    if n < 10 {
      PowersGrow(n, 10);
    }
  }

  lemma {:induction false} PowersGrow(m: nat, n: nat)
    requires m < n
    ensures Pow10(m) < Pow10(n)
  {
    if m < n - 1 {
      PowersGrow(m, n - 1);
    }
  }

  lemma {:induction false} PowersMultiply(m: nat, n: nat)
    ensures Pow10(m + n) == Pow10(m) * Pow10(n)
  {
    if n > 0 {
      PowersMultiply(m, n - 1);
      assert Pow10(m + n) == 10 * Pow10(m + (n - 1));
      assert 10 * (Pow10(m) * Pow10(n - 1)) == Pow10(m) * (10 * Pow10(n - 1));
    }
  }

  // ----- validation -----

  /** Where a series starts: its prefix, followed by zeros up to the given length. */
  function SeriesStart(prefix: string, length: nat): nat
    requires AllDigits(prefix)
  {
    if |prefix| < length then NumberOf(prefix) * Pow10(length - |prefix|) else NumberOf(prefix)
  }

  /** Validation looks at the first PLMN only, and adds in 64 bits. */
  predicate Valid(spec: Spec) {
    && spec.plmns != []
    && (forall p | p in spec.plmns :: ValidPlmn(p))
    && var ml := MsinLength(spec.plmns[0]);
       match spec.selection
       case Range(first, last) => first <= last && last < Pow10(ml)
       case Series(prefix, count) =>
         && DigitsOnly(prefix) && |prefix| <= ml && count != 0
         && (SeriesStart(prefix, ml) + count - 1) % WORD < Pow10(ml)
  }

  lemma StartIsSmall(prefix: string, length: nat)
    requires AllDigits(prefix) && |prefix| <= length
    ensures SeriesStart(prefix, length) < Pow10(length)
  {
    NumberBelow(prefix);
    var shift := length - |prefix|;
    PowersMultiply(|prefix|, shift);
    ProductLess(NumberOf(prefix), Pow10(|prefix|), Pow10(shift));
    assert |prefix| + shift == length;
    assert shift == 0 ==> Pow10(shift) == 1;
  }

  lemma ProductLess(a: nat, b: nat, c: nat)
    requires a < b && c > 0
    ensures a * c < b * c
  {
    assert b * c - a * c == (b - a) * c;
  }

  /** The multiplying loop of the code, which does not overflow. */
  method ShiftPrefix(prefix: string, length: nat) returns (start: uint64)
    requires AllDigits(prefix) && |prefix| <= length <= 10
    ensures start == SeriesStart(prefix, length)
  {
    StartFits(prefix, |prefix|, length);
    start := NumberOf(prefix);
    for i := |prefix| to length
      invariant start == SeriesStart(prefix, i)
    {
      StartFits(prefix, i + 1, length);
      StartShifts(prefix, i);
      start := start * 10;
    }
  }

  lemma StartShifts(prefix: string, i: nat)
    requires AllDigits(prefix) && |prefix| <= i
    ensures SeriesStart(prefix, i + 1) == SeriesStart(prefix, i) * 10
  {
    assert Pow10(i + 1 - |prefix|) == 10 * Pow10(i - |prefix|);
  }

  lemma StartFits(prefix: string, i: nat, length: nat)
    requires AllDigits(prefix) && |prefix| <= i <= length <= 10
    ensures SeriesStart(prefix, i) < WORD
  {
    StartIsSmall(prefix, i);
    PowersFit(i);
  }

  method MaxMsin(ml: nat) returns (max: uint64)
    requires ml <= 10
    ensures max == Pow10(ml)
  {
    max := 1;
    for i := 0 to ml
      invariant max == Pow10(i)
    {
      PowersFit(i + 1);
      max := max * 10;
    }
  }

  method IsValid(spec: Spec) returns (ok: bool)
    ensures ok == Valid(spec)
  {
    if spec.plmns == [] {
      return false;
    }
    for i := 0 to |spec.plmns|
      invariant forall k :: 0 <= k < i ==> ValidPlmn(spec.plmns[k])
    {
      if !ValidPlmn(spec.plmns[i]) {
        assert spec.plmns[i] in spec.plmns;
        return false;
      }
    }
    assert spec.plmns[0] in spec.plmns;
    var ml := MsinLength(spec.plmns[0]);
    match spec.selection {
      case Range(first, last) =>
        var max := MaxMsin(ml);
        ok := first <= last && last < max;
      case Series(prefix, count) =>
        if !DigitsOnly(prefix) || |prefix| > ml {
          return false;
        }
        var max := MaxMsin(ml);
        var start := ShiftPrefix(prefix, ml);
        if count == 0 {
          return false;
        }
        ok := (start + count - 1) % WORD < max;
    }
  }

  /**
    A series over well-formed PLMNs with a usable prefix and a nonzero count is accepted exactly when it ends
    below the limit, or when its end does not fit 64 bits.
   */
  lemma SeriesAcceptance(plmns: seq<string>, prefix: string, count: uint64)
    requires plmns != [] && forall p | p in plmns :: ValidPlmn(p)
    requires DigitsOnly(prefix) && |prefix| <= MsinLength(plmns[0]) && count != 0
    ensures var ml := MsinLength(plmns[0]);
            var end := SeriesStart(prefix, ml) + count - 1;
            Valid(Spec(plmns, Series(prefix, count))) <==> end < Pow10(ml) || end >= WORD
  {
    var ml := MsinLength(plmns[0]);
    assert plmns[0] in plmns;
    StartIsSmall(prefix, ml);
    PowersFit(ml);
  }

  /** A range over well-formed PLMNs is accepted exactly when it is ordered and ends below the first PLMN's limit. */
  lemma RangeAcceptance(plmns: seq<string>, first: uint64, last: uint64)
    ensures Valid(Spec(plmns, Range(first, last))) <==>
            && plmns != [] && (forall p | p in plmns :: AllDigits(p) && (|p| == 5 || |p| == 6))
            && first <= last && last < (if |plmns[0]| == 5 then 10_000_000_000 else 1_000_000_000)
  {
    TenDigits();
    assert plmns != [] ==> plmns[0] in plmns;
  }

  lemma TenDigits()
    ensures Pow10(9) == 1_000_000_000 && Pow10(10) == 10_000_000_000
  {
    assert Pow10(3) == 1000;
    PowersMultiply(3, 3);
    PowersMultiply(6, 3);
    PowersMultiply(9, 1);
  }

  /** A count of 2^64 - 1 from any start above one is accepted, though no such range of numbers exists. */
  lemma WrappedSeriesAccepted(plmn: string, prefix: string)
    requires ValidPlmn(plmn) && DigitsOnly(prefix) && |prefix| <= MsinLength(plmn)
    requires SeriesStart(prefix, MsinLength(plmn)) > 1
    ensures Valid(Spec([plmn], Series(prefix, 0xFFFF_FFFF_FFFF_FFFF)))
  {
    SeriesAcceptance([plmn], prefix, 0xFFFF_FFFF_FFFF_FFFF);
  }

  // ----- the module: a list of valid specifications -----

  /** Commas separate, white space is dropped, empty names are skipped. */
  function SplitPlmns(list: string, current: string): seq<string> {
    if list == "" then (if current == "" then [] else [current])
    else if list[0] == ',' then (if current == "" then [] else [current]) + SplitPlmns(list[1..], "")
    else if JsonScan.Space(list[0]) then SplitPlmns(list[1..], current)
    else SplitPlmns(list[1..], current + [list[0]])
  }

  method SplitPlmnList(list: string) returns (out: seq<string>)
    ensures out == SplitPlmns(list, "")
  {
    out := [];
    var cur := "";
    assert list[0..] == list;
    for i := 0 to |list|
      invariant SplitPlmns(list, "") == out + SplitPlmns(list[i..], cur)
    {
      assert list[i..][1..] == list[i + 1..];
      if list[i] == ',' {
        if cur != "" {
          out, cur := out + [cur], "";
        }
      } else if !JsonScan.Space(list[i]) {
        cur := cur + [list[i]];
      }
    }
    assert list[|list|..] == "";
    if cur != "" {
      out := out + [cur];
    }
  }

  function Joined(plmns: seq<string>): string {
    if plmns == [] then ""
    else if |plmns| == 1 then plmns[0]
    else plmns[0] + "," + Joined(plmns[1..])
  }

  predicate ListItem(s: string) {
    s != "" && forall i :: 0 <= i < |s| ==> s[i] != ',' && !JsonScan.Space(s[i])
  }

  lemma {:induction false} SplitsItem(s: string, current: string, rest: string)
    requires forall i :: 0 <= i < |s| ==> s[i] != ',' && !JsonScan.Space(s[i])
    ensures SplitPlmns(s + rest, current) == SplitPlmns(rest, current + s)
    decreases |s|
  {
    if s == "" {
      assert s + rest == rest && current + s == current;
    } else {
      assert (s + rest)[1..] == s[1..] + rest;
      SplitsItem(s[1..], current + [s[0]], rest);
      assert current + [s[0]] + s[1..] == current + s;
    }
  }

  /** Splitting undoes joining with commas. */
  lemma {:induction false} SplitRoundTrip(plmns: seq<string>)
    requires forall p | p in plmns :: ListItem(p)
    ensures SplitPlmns(Joined(plmns), "") == plmns
    decreases |plmns|
  {
    if plmns != [] {
      assert plmns[0] in plmns;
    }
    if |plmns| == 1 {
      SplitsItem(plmns[0], "", "");
      assert plmns[0] + "" == plmns[0] && "" + plmns[0] == plmns[0];
    } else if plmns != [] {
      var tail := "," + Joined(plmns[1..]);
      SplitsItem(plmns[0], "", tail);
      assert Joined(plmns) == plmns[0] + tail && "" + plmns[0] == plmns[0];
      assert tail[1..] == Joined(plmns[1..]);
      SplitRoundTrip(plmns[1..]);
      assert plmns == [plmns[0]] + plmns[1..];
    }
  }

  /** The characters of a list that are dropped. */
  predicate WhiteSpace(c: char) {
    c == ' ' || c == '\t' || c == '\n' || c == '\r' || c as int == 11 || c as int == 12
  }

  /** A text without a comma is one name, its white space dropped, or none if nothing is left. */
  function OneName(s: string): seq<string> {
    if WithoutSpace(s) == "" then [] else [WithoutSpace(s)]
  }

  function WithoutSpace(s: string): string {
    if s == "" then "" else (if WhiteSpace(s[0]) then "" else [s[0]]) + WithoutSpace(s[1..])
  }

  lemma {:induction false} SplitsUpToComma(s: string, current: string, rest: string)
    requires ',' !in s
    ensures SplitPlmns(s + rest, current) == SplitPlmns(rest, current + WithoutSpace(s))
    decreases |s|
  {
    if s == "" {
      assert s + rest == rest && current + "" == current;
    } else {
      assert (s + rest)[1..] == s[1..] + rest;
      var kept := if WhiteSpace(s[0]) then "" else [s[0]];
      SplitsUpToComma(s[1..], current + kept, rest);
      assert current + kept + WithoutSpace(s[1..]) == current + (kept + WithoutSpace(s[1..]));
      assert current + "" == current;
    }
  }

  /** The names of a list are those of its pieces between commas, in order. */
  lemma NamesBetweenCommas(s: string, rest: string)
    requires ',' !in s
    ensures SplitPlmns(s, "") == OneName(s)
    ensures SplitPlmns(s + "," + rest, "") == OneName(s) + SplitPlmns(rest, "")
  {
    SplitsUpToComma(s, "", "");
    assert s + "" == s && "" + WithoutSpace(s) == WithoutSpace(s);
    SplitsUpToComma(s, "", "," + rest);
    assert s + "," + rest == s + ("," + rest);
    assert ("," + rest)[1..] == rest;
  }

  class ImsiModule {
    var specs: seq<Spec>

    ghost predicate AllValid()
      reads this
    {
      forall s | s in specs :: Valid(s)
    }

    constructor ()
      ensures specs == [] && AllValid()
    {
      specs := [];
    }

    method AddRange(plmnList: string, first: uint64, last: uint64) returns (added: bool)
      requires AllValid()
      modifies this
      ensures AllValid()
      ensures var s := Spec(SplitPlmns(plmnList, ""), Range(first, last));
              added == Valid(s) && specs == if added then old(specs) + [s] else old(specs)
    {
      var plmns := SplitPlmnList(plmnList);
      var s := Spec(plmns, Range(first, last));
      added := IsValid(s);
      if added {
        specs := specs + [s];
      }
    }

    method AddSeries(plmnList: string, prefix: string, count: uint64) returns (added: bool)
      requires AllValid()
      modifies this
      ensures AllValid()
      ensures var s := Spec(SplitPlmns(plmnList, ""), Series(prefix, count));
              added == Valid(s) && specs == if added then old(specs) + [s] else old(specs)
    {
      var plmns := SplitPlmnList(plmnList);
      var s := Spec(plmns, Series(prefix, count));
      added := IsValid(s);
      if added {
        specs := specs + [s];
      }
    }
  }
}
