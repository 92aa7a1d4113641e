/** Which IMSIs a specification emits: `ImsiModule::generateForSpec`. */
module ImsiEmit {
  import opened Texts
  import opened ImsiGenerator

  // ----- one IMSI -----

  function Zeros(n: nat): (z: string)
    ensures |z| == n && AllDigits(z)
  {
    seq(n, i => '0')
  }

  /** `setw` with a zero fill: padded to the width, never cut. */
  function ZeroPadded(v: nat, width: nat): (s: string)
    ensures AllDigits(s)
  {
    var d := Decimal(v);
    if |d| < width then Zeros(width - |d|) + d else d
  }

  function Imsi(plmn: string, v: nat): string {
    plmn + ZeroPadded(v, MsinLength(plmn))
  }

  lemma {:induction false} ZerosAreZero(n: nat)
    ensures NumberOf(Zeros(n)) == 0
  {
    if n > 0 {
      ZerosAreZero(n - 1);
      assert Zeros(n)[..n - 1] == Zeros(n - 1);
    }
  }

  lemma {:induction false} LeadingZeros(n: nat, s: string)
    requires AllDigits(s)
    ensures NumberOf(Zeros(n) + s) == NumberOf(s)
  {
    if s == "" {
      ZerosAreZero(n);
      assert Zeros(n) + s == Zeros(n);
    } else {
      LeadingZeros(n, s[..|s| - 1]);
      var t := Zeros(n) + s;
      assert t[..|t| - 1] == Zeros(n) + s[..|s| - 1];
    }
  }

  lemma {:induction false} DecimalLength(v: nat, width: nat)
    requires v < Pow10(width) && width > 0
    ensures |Decimal(v)| <= width
  {
    if v >= 10 {
      assert Pow10(width) == 10 * Pow10(width - 1);
      assert width > 1;
      DecimalLength(v / 10, width - 1);
    }
  }

  lemma LongDecimal(v: nat, width: nat)
    requires v >= Pow10(width)
    ensures |Decimal(v)| > width
  {
    NumberBelow(Decimal(v));
    if |Decimal(v)| < width {
      PowersGrow(|Decimal(v)|, width);
    }
  }

  /** The padded number has the width exactly when it fits, and always reads as the number. */
  lemma PaddedNumber(v: nat, width: nat)
    requires width > 0
    ensures NumberOf(ZeroPadded(v, width)) == v
    ensures |ZeroPadded(v, width)| == width <==> v < Pow10(width)
  {
    var d := Decimal(v);
    if v < Pow10(width) {
      DecimalLength(v, width);
    } else {
      LongDecimal(v, width);
    }
    if |d| < width {
      LeadingZeros(width - |d|, d);
      assert ZeroPadded(v, width) == Zeros(width - |d|) + d;
    }
  }

  // ----- what one specification emits -----

  function Size(spec: Spec): nat {
    match spec.selection
    case Range(first, last) => if first <= last then last - first + 1 else 0
    case Series(_, count) => count
  }

  /** 64-bit addition. */
  function Wrapped(start: nat, i: nat): nat {
    (start + i) % WORD
  }

  /** The numbers of one PLMN, in 64 bits. */
  function NumberAt(spec: Spec, plmn: string, i: nat): nat
    requires spec.selection.Series? ==> AllDigits(spec.selection.prefix)
  {
    match spec.selection
    case Range(first, _) => first + i
    case Series(prefix, _) => Wrapped(SeriesStart(prefix, MsinLength(plmn)), i)
  }

  function ForPlmn(spec: Spec, plmn: string): (s: seq<string>)
    requires spec.selection.Series? ==> AllDigits(spec.selection.prefix)
    ensures |s| == Size(spec)
    ensures forall i :: 0 <= i < |s| ==> s[i] == Imsi(plmn, NumberAt(spec, plmn, i))
  {
    seq(Size(spec), i requires 0 <= i < Size(spec) => Imsi(plmn, NumberAt(spec, plmn, i)))
  }

  function ForPlmns(spec: Spec, plmns: seq<string>): seq<string>
    requires spec.selection.Series? ==> AllDigits(spec.selection.prefix)
  {
    if plmns == [] then [] else ForPlmns(spec, plmns[..|plmns| - 1]) + ForPlmn(spec, plmns[|plmns| - 1])
  }

  method GenerateRange(plmn: string, first: uint64, last: uint64) returns (out: seq<string>)
    requires first <= last && last + 1 < WORD
    ensures |out| == last - first + 1 && forall i :: 0 <= i < |out| ==> out[i] == Imsi(plmn, first + i)
  {
    out := [];
    var v := first;
    while v <= last
      invariant first <= v <= last + 1 && |out| == v - first
      invariant forall i :: 0 <= i < |out| ==> out[i] == Imsi(plmn, first + i)
      decreases last + 1 - v
    {
      out := out + [Imsi(plmn, v)];
      v := v + 1;
    }
  }

  method GenerateSeries(plmn: string, start: uint64, count: uint64) returns (out: seq<string>)
    ensures |out| == count && forall i :: 0 <= i < |out| ==> out[i] == Imsi(plmn, Wrapped(start, i))
  {
    out := [];
    for i := 0 to count
      invariant |out| == i
      invariant forall k :: 0 <= k < |out| ==> out[k] == Imsi(plmn, Wrapped(start, k))
    {
      var v := Wrapped(start, i);
      out := out + [Imsi(plmn, v)];
    }
  }

  method GenerateOne(spec: Spec, plmn: string) returns (out: seq<string>)
    requires Valid(spec) && ValidPlmn(plmn)
    ensures out == ForPlmn(spec, plmn)
  {
    match spec.selection {
      case Range(first, last) =>
        EndsBelowWord(spec);
        out := GenerateRange(plmn, first, last);
      case Series(prefix, count) =>
        PrefixFits(spec, plmn);
        var start := LongShift(prefix, MsinLength(plmn));
        out := GenerateSeries(plmn, start, count);
    }
  }

  lemma EndsBelowWord(spec: Spec)
    requires Valid(spec) && spec.selection.Range?
    ensures spec.selection.last + 1 < WORD
  {
    assert spec.plmns[0] in spec.plmns;
    PowersFit(MsinLength(spec.plmns[0]));
  }

  lemma PrefixFits(spec: Spec, plmn: string)
    requires Valid(spec) && ValidPlmn(plmn) && spec.selection.Series?
    ensures |spec.selection.prefix| <= 10 && MsinLength(plmn) <= 10
  {
    assert spec.plmns[0] in spec.plmns;
  }

  /** The shift at generation starts from a prefix that may be longer than this PLMN allows. */
  method LongShift(prefix: string, length: nat) returns (start: uint64)
    requires AllDigits(prefix) && |prefix| <= 10 && length <= 10
    ensures start == SeriesStart(prefix, length)
  {
    if |prefix| <= length {
      start := ShiftPrefix(prefix, length);
    } else {
      StartFits(prefix, |prefix|, |prefix|);
      assert SeriesStart(prefix, |prefix|) == NumberOf(prefix);
      start := NumberOf(prefix);
    }
  }

  method GenerateForSpec(spec: Spec) returns (out: seq<string>)
    requires Valid(spec)
    ensures out == ForPlmns(spec, spec.plmns)
  {
    out := [];
    for k := 0 to |spec.plmns|
      invariant out == ForPlmns(spec, spec.plmns[..k])
    {
      assert spec.plmns[k] in spec.plmns;
      assert spec.plmns[..k + 1][..k] == spec.plmns[..k];
      var one := GenerateOne(spec, spec.plmns[k]);
      out := out + one;
    }
    assert spec.plmns[..|spec.plmns|] == spec.plmns;
  }

  // ----- how many -----

  /** As many IMSIs as PLMNs times the size of the range or series. */
  lemma {:induction false} HowMany(spec: Spec, plmns: seq<string>)
    requires spec.selection.Series? ==> AllDigits(spec.selection.prefix)
    ensures |ForPlmns(spec, plmns)| == |plmns| * Size(spec)
  {
    if plmns != [] {
      HowMany(spec, plmns[..|plmns| - 1]);
      assert (|plmns| - 1) * Size(spec) + Size(spec) == |plmns| * Size(spec);
    }
  }

  // ----- what they look like -----

  /** Every number of the specification fits the digits this PLMN leaves. */
  predicate FitsPlmn(spec: Spec, plmn: string)
    requires Valid(spec)
  {
    forall i :: 0 <= i < Size(spec) ==> NumberAt(spec, plmn, i) < Pow10(MsinLength(plmn))
  }

  /** An IMSI of 15 digits that starts with its PLMN. */
  predicate WellFormed(s: string, plmn: string) {
    |s| == 15 && AllDigits(s) && StartsWith(s, plmn)
  }

  lemma ImsiIsWellFormed(plmn: string, v: nat)
    requires ValidPlmn(plmn)
    ensures WellFormed(Imsi(plmn, v), plmn) <==> v < Pow10(MsinLength(plmn))
    ensures AllDigits(Imsi(plmn, v)) && StartsWith(Imsi(plmn, v), plmn)
  {
    PaddedNumber(v, MsinLength(plmn));
  }

  /** The last number of the specification has room in the digits this PLMN leaves. */
  predicate HasRoom(spec: Spec, plmn: string)
    requires Valid(spec)
  {
    match spec.selection
    case Range(_, last) => last < Pow10(MsinLength(plmn))
    case Series(prefix, count) => SeriesStart(prefix, MsinLength(plmn)) + count - 1 < Pow10(MsinLength(plmn))
  }

  /** What a caller can check before anything is emitted. */
  predicate RoomForAll(spec: Spec)
    requires Valid(spec)
  {
    forall p | p in spec.plmns :: HasRoom(spec, p)
  }

  lemma StartBelowWord(spec: Spec, plmn: string)
    requires Valid(spec) && plmn in spec.plmns && spec.selection.Series?
    ensures SeriesStart(spec.selection.prefix, MsinLength(plmn)) < WORD && Pow10(MsinLength(plmn)) < WORD
  {
    var prefix, width := spec.selection.prefix, MsinLength(plmn);
    PrefixFits(spec, plmn);
    PowersFit(width);
    if |prefix| <= width {
      StartFits(prefix, width, width);
    } else {
      StartFits(prefix, |prefix|, |prefix|);
    }
  }

  /** With room, the numbers count up from the start without a wrap. */
  lemma NumbersCountUp(spec: Spec, plmn: string)
    requires Valid(spec) && plmn in spec.plmns && HasRoom(spec, plmn)
    ensures FitsPlmn(spec, plmn)
    ensures forall i, j :: 0 <= i < j < Size(spec) ==> NumberAt(spec, plmn, i) < NumberAt(spec, plmn, j)
  {
    if spec.selection.Series? {
      StartBelowWord(spec, plmn);
      var start := SeriesStart(spec.selection.prefix, MsinLength(plmn));
      assert forall i :: 0 <= i < Size(spec) ==> Wrapped(start, i) == start + i;
    }
  }

  /** The guard decides whether all the numbers fit, for a series also when its counter wraps. */
  lemma FitsIffRoom(spec: Spec, plmn: string)
    requires Valid(spec) && plmn in spec.plmns
    ensures FitsPlmn(spec, plmn) <==> HasRoom(spec, plmn)
  {
    if HasRoom(spec, plmn) {
      NumbersCountUp(spec, plmn);
    } else {
      var i := Misfit(spec, plmn);
    }
  }

  /** Without room, some number does not fit: the last of a range, the first of a series beyond the limit. */
  lemma Misfit(spec: Spec, plmn: string) returns (i: nat)
    requires Valid(spec) && plmn in spec.plmns && !HasRoom(spec, plmn)
    ensures i < Size(spec) && NumberAt(spec, plmn, i) >= Pow10(MsinLength(plmn))
  {
    match spec.selection {
      case Range(first, last) =>
        i := last - first;
      case Series(prefix, count) =>
        var start, limit := SeriesStart(prefix, MsinLength(plmn)), Pow10(MsinLength(plmn));
        StartBelowWord(spec, plmn);
        i := if start >= limit then 0 else limit - start;
    }
  }

  /** All of a PLMN's IMSIs have 15 digits exactly when its numbers have room. */
  lemma WellFormedIffRoom(spec: Spec, plmn: string)
    requires Valid(spec) && plmn in spec.plmns
    ensures (forall s | s in ForPlmn(spec, plmn) :: WellFormed(s, plmn)) <==> HasRoom(spec, plmn)
    ensures (forall s | s in ForPlmn(spec, plmn) :: |s| == 15) <==> HasRoom(spec, plmn)
  {
    var out := ForPlmn(spec, plmn);
    FitsIffRoom(spec, plmn);
    forall i | 0 <= i < Size(spec)
      ensures |out[i]| == 15 <==> NumberAt(spec, plmn, i) < Pow10(MsinLength(plmn))
      ensures |out[i]| == 15 <==> WellFormed(out[i], plmn)
    {
      ImsiIsWellFormed(plmn, NumberAt(spec, plmn, i));
    }
    if !HasRoom(spec, plmn) {
      var i := Misfit(spec, plmn);
      assert out[i] in out;
    }
  }

  lemma {:induction false} EmittedForPlmn(spec: Spec, plmns: seq<string>, plmn: string, s: string)
    requires spec.selection.Series? ==> AllDigits(spec.selection.prefix)
    requires plmn in plmns && s in ForPlmn(spec, plmn)
    ensures s in ForPlmns(spec, plmns)
  {
    var n := |plmns| - 1;
    if plmn != plmns[n] {
      assert plmns == plmns[..n] + [plmns[n]];
      EmittedForPlmn(spec, plmns[..n], plmn, s);
    }
  }

  /**
    A valid specification emits only 15-digit IMSIs exactly when its last number has room beside every one of
    its PLMNs. Validation checks the first PLMN only, and for a series modulo 2^64.
   */
  lemma EmitsFifteenDigitsIffRoom(spec: Spec)
    requires Valid(spec)
    ensures (forall s | s in ForPlmns(spec, spec.plmns) :: |s| == 15 && AllDigits(s)) <==> RoomForAll(spec)
  {
    if RoomForAll(spec) {
      forall s | s in ForPlmns(spec, spec.plmns)
        ensures |s| == 15 && AllDigits(s)
      {
        EachHasItsPlmn(spec, spec.plmns, s);
        var k :| 0 <= k < |spec.plmns| && s in ForPlmn(spec, spec.plmns[k]);
        WellFormedIffRoom(spec, spec.plmns[k]);
      }
    } else {
      var p :| p in spec.plmns && !HasRoom(spec, p);
      WellFormedIffRoom(spec, p);
      var s :| s in ForPlmn(spec, p) && |s| != 15;
      EmittedForPlmn(spec, spec.plmns, p, s);
    }
  }

  /** A specification whose first PLMN is no shorter than any other has room unless validation wrapped. */
  lemma RoomUnlessLongerOrWrapped(spec: Spec)
    requires Valid(spec) && forall p | p in spec.plmns :: |p| <= |spec.plmns[0]|
    ensures RoomForAll(spec) <==> HasRoom(spec, spec.plmns[0])
    ensures spec.selection.Range? ==> RoomForAll(spec)
  {
    assert spec.plmns[0] in spec.plmns;
    if HasRoom(spec, spec.plmns[0]) {
      forall p | p in spec.plmns
        ensures HasRoom(spec, p)
      {
        RoomInShorter(spec, p);
      }
    }
  }

  lemma RoomInShorter(spec: Spec, plmn: string)
    requires Valid(spec) && HasRoom(spec, spec.plmns[0]) && plmn in spec.plmns && |plmn| <= |spec.plmns[0]|
    ensures HasRoom(spec, plmn)
  {
    assert spec.plmns[0] in spec.plmns;
    var ml, width := MsinLength(spec.plmns[0]), MsinLength(plmn);
    assert width == ml || width == ml + 1;
    assert Pow10(ml + 1) == 10 * Pow10(ml);
    if spec.selection.Series? {
      SeriesFits(spec.selection.prefix, spec.selection.count, ml, width);
    }
  }

  lemma SeriesFits(prefix: string, count: uint64, ml: nat, width: nat)
    requires AllDigits(prefix) && |prefix| <= ml <= 10 && width <= 10 && (width == ml || width == ml + 1) && count > 0
    requires SeriesStart(prefix, ml) + count - 1 < Pow10(ml)
    ensures SeriesStart(prefix, width) + count - 1 < Pow10(width)
  {
    StartShifts(prefix, ml);
    assert Pow10(ml + 1) == 10 * Pow10(ml);
  }

  // ----- order and distinctness -----

  lemma {:induction false} LexAfterPrefix(p: string, a: string, b: string)
    ensures LexLess(p + a, p + b) <==> LexLess(a, b)
  {
    if p == "" {
      assert p + a == a && p + b == b;
    } else {
      assert (p + a)[1..] == p[1..] + a && (p + b)[1..] == p[1..] + b;
      LexAfterPrefix(p[1..], a, b);
    }
  }

  lemma LargerNumberLater(plmn: string, v: nat, w: nat)
    requires ValidPlmn(plmn) && v < w < Pow10(MsinLength(plmn))
    ensures LexLess(Imsi(plmn, v), Imsi(plmn, w))
  {
    var width := MsinLength(plmn);
    PaddedNumber(v, width);
    PaddedNumber(w, width);
    LexIsNumeric(ZeroPadded(v, width), ZeroPadded(w, width));
    LexAfterPrefix(plmn, ZeroPadded(v, width), ZeroPadded(w, width));
  }

  predicate Increasing(ss: seq<string>) {
    forall i, j :: 0 <= i < j < |ss| ==> LexLess(ss[i], ss[j])
  }

  lemma PlmnIncreases(spec: Spec, plmn: string)
    requires Valid(spec) && plmn in spec.plmns && HasRoom(spec, plmn)
    ensures Increasing(ForPlmn(spec, plmn))
  {
    NumbersCountUp(spec, plmn);
    var out := ForPlmn(spec, plmn);
    forall i, j | 0 <= i < j < |out|
      ensures LexLess(out[i], out[j])
    {
      LargerNumberLater(plmn, NumberAt(spec, plmn, i), NumberAt(spec, plmn, j));
    }
  }

  predicate Distinct(ss: seq<string>) {
    forall i, j :: 0 <= i < j < |ss| ==> ss[i] != ss[j]
  }

  predicate PrefixFree(plmns: seq<string>) {
    forall i, j :: 0 <= i < |plmns| && 0 <= j < |plmns| && i != j ==> !StartsWith(plmns[i], plmns[j])
  }

  lemma IncreasingIsDistinct(ss: seq<string>)
    requires Increasing(ss)
    ensures Distinct(ss)
  {
    forall i, j | 0 <= i < j < |ss|
      ensures ss[i] != ss[j]
    {
      LexIrreflexive(ss[i]);
    }
  }

  predicate Apart(a: seq<string>, b: seq<string>) {
    forall s | s in a :: s !in b
  }

  lemma PlmnIsDistinct(spec: Spec, plmn: string)
    requires Valid(spec) && plmn in spec.plmns && HasRoom(spec, plmn)
    ensures Distinct(ForPlmn(spec, plmn))
  {
    PlmnIncreases(spec, plmn);
    IncreasingIsDistinct(ForPlmn(spec, plmn));
  }

  lemma DistinctConcat(a: seq<string>, b: seq<string>)
    requires Distinct(a) && Distinct(b) && Apart(a, b)
    ensures Distinct(a + b)
  {
    forall i, j | 0 <= i < j < |a + b|
      ensures (a + b)[i] != (a + b)[j]
    {
      if i < |a| <= j {
        assert a[i] in a && b[j - |a|] in b;
      }
    }
  }

  /** The PLMNs generated so far, and what each of their IMSIs starts with. */
  lemma {:induction false} EachHasItsPlmn(spec: Spec, plmns: seq<string>, s: string)
    requires spec.selection.Series? ==> AllDigits(spec.selection.prefix)
    requires s in ForPlmns(spec, plmns)
    ensures exists k :: 0 <= k < |plmns| && s in ForPlmn(spec, plmns[k]) && StartsWith(s, plmns[k])
  {
    var n := |plmns| - 1;
    if s in ForPlmns(spec, plmns[..n]) {
      EachHasItsPlmn(spec, plmns[..n], s);
      var k :| 0 <= k < n && s in ForPlmn(spec, plmns[..n][k]) && StartsWith(s, plmns[..n][k]);
      assert plmns[k] == plmns[..n][k];
    } else {
      assert s in ForPlmn(spec, plmns[n]);
    }
  }

  lemma {:induction false} AllDistinct(spec: Spec, n: nat)
    requires Valid(spec) && RoomForAll(spec) && n <= |spec.plmns| && PrefixFree(spec.plmns)
    ensures Distinct(ForPlmns(spec, spec.plmns[..n]))
    decreases n
  {
    if n > 0 {
      var init, plmn := spec.plmns[..n - 1], spec.plmns[n - 1];
      assert plmn in spec.plmns;
      OneMorePlmn(spec, spec.plmns, n);
      AllDistinct(spec, n - 1);
      PlmnIsDistinct(spec, plmn);
      OthersDiffer(spec, n - 1);
      DistinctConcat(ForPlmns(spec, init), ForPlmn(spec, plmn));
    }
  }

  lemma OneMorePlmn(spec: Spec, plmns: seq<string>, n: nat)
    requires spec.selection.Series? ==> AllDigits(spec.selection.prefix)
    requires 0 < n <= |plmns|
    ensures ForPlmns(spec, plmns[..n]) == ForPlmns(spec, plmns[..n - 1]) + ForPlmn(spec, plmns[n - 1])
  {
    assert plmns[..n][..n - 1] == plmns[..n - 1];
  }

  lemma OthersDiffer(spec: Spec, n: nat)
    requires Valid(spec) && n < |spec.plmns| && PrefixFree(spec.plmns)
    ensures Apart(ForPlmns(spec, spec.plmns[..n]), ForPlmn(spec, spec.plmns[n]))
  {
    forall s | s in ForPlmns(spec, spec.plmns[..n])
      ensures s !in ForPlmn(spec, spec.plmns[n])
    {
      OtherPlmnsDiffer(spec, n, s);
    }
  }

  lemma OtherPlmnsDiffer(spec: Spec, n: nat, s: string)
    requires Valid(spec) && n < |spec.plmns| && PrefixFree(spec.plmns)
    requires s in ForPlmns(spec, spec.plmns[..n])
    ensures s !in ForPlmn(spec, spec.plmns[n])
  {
    EachHasItsPlmn(spec, spec.plmns[..n], s);
    var k :| 0 <= k < n && s in ForPlmn(spec, spec.plmns[..n][k]) && StartsWith(s, spec.plmns[..n][k]);
    if StartsWith(s, spec.plmns[n]) {
      assert false;
    }
  }

  /**
    A valid specification with room for all its PLMNs emits as many IMSIs as PLMNs times numbers, each of 15
    digits starting with its PLMN, increasing within each PLMN; and all different when no PLMN starts another.
   */
  lemma GenerationIsExact(spec: Spec)
    requires Valid(spec) && RoomForAll(spec)
    ensures |ForPlmns(spec, spec.plmns)| == |spec.plmns| * Size(spec)
    ensures forall p | p in spec.plmns ::
              Increasing(ForPlmn(spec, p)) && forall s | s in ForPlmn(spec, p) :: WellFormed(s, p)
    ensures PrefixFree(spec.plmns) ==> Distinct(ForPlmns(spec, spec.plmns))
  {
    HowMany(spec, spec.plmns);
    forall p | p in spec.plmns
      ensures Increasing(ForPlmn(spec, p)) && forall s | s in ForPlmn(spec, p) :: WellFormed(s, p)
    {
      PlmnIncreases(spec, p);
      WellFormedIffRoom(spec, p);
    }
    if PrefixFree(spec.plmns) {
      AllDistinct(spec, |spec.plmns|);
      assert spec.plmns[..|spec.plmns|] == spec.plmns;
    }
  }

  /** A longer PLMN after a shorter first one: a valid range that emits an IMSI of 16 digits. */
  lemma LongerPlmnOverflows()
    ensures var spec := Spec(["25001", "250011"], Range(9_999_999_999, 9_999_999_999));
            && Valid(spec)
            && ForPlmn(spec, "250011") == [Imsi("250011", 9_999_999_999)]
            && |Imsi("250011", 9_999_999_999)| > 15
  {
    LongDecimal(9_999_999_999, 9);
  }

  /** The number an emitted string carries after its PLMN. */
  predicate Carries(s: string, plmn: string, v: nat) {
    plmn <= s && AllDigits(s[|plmn|..]) && NumberOf(s[|plmn|..]) == v
  }

  lemma ImsiCarries(plmn: string, v: nat)
    requires ValidPlmn(plmn)
    ensures Carries(Imsi(plmn, v), plmn, v)
  {
    PaddedNumber(v, MsinLength(plmn));
    assert Imsi(plmn, v)[|plmn|..] == ZeroPadded(v, MsinLength(plmn));
  }

  /** A range emits its numbers, first to last, after each PLMN. */
  lemma RangeEmitsItsNumbers(spec: Spec, plmn: string, i: nat)
    requires Valid(spec) && plmn in spec.plmns && spec.selection.Range?
    requires i <= spec.selection.last - spec.selection.first
    ensures |ForPlmn(spec, plmn)| == spec.selection.last - spec.selection.first + 1
    ensures Carries(ForPlmn(spec, plmn)[i], plmn, spec.selection.first + i)
  {
    ImsiCarries(plmn, spec.selection.first + i);
  }

  /** The prefix, followed by zeros up to the digits the PLMN leaves. */
  function FilledPrefix(prefix: string, plmn: string): string {
    if |plmn| + |prefix| <= 15 then prefix + Zeros(15 - |plmn| - |prefix|) else prefix
  }

  lemma StartIsFilledPrefix(prefix: string, plmn: string)
    requires AllDigits(prefix) && ValidPlmn(plmn)
    ensures AllDigits(FilledPrefix(prefix, plmn))
    ensures SeriesStart(prefix, MsinLength(plmn)) == NumberOf(FilledPrefix(prefix, plmn))
  {
    if |plmn| + |prefix| <= 15 {
      TrailingZeros(prefix, 15 - |plmn| - |prefix|);
      assert Pow10(0) == 1;
    }
  }

  /** With room, a series emits as many numbers as it counts, upwards from its prefix filled with zeros. */
  lemma SeriesEmitsItsNumbers(spec: Spec, plmn: string, i: nat)
    requires Valid(spec) && plmn in spec.plmns && HasRoom(spec, plmn) && spec.selection.Series?
    requires i < spec.selection.count
    ensures |ForPlmn(spec, plmn)| == spec.selection.count && AllDigits(FilledPrefix(spec.selection.prefix, plmn))
    ensures Carries(ForPlmn(spec, plmn)[i], plmn, NumberOf(FilledPrefix(spec.selection.prefix, plmn)) + i)
  {
    var v := SeriesNumber(spec, plmn, i);
    StartIsFilledPrefix(spec.selection.prefix, plmn);
    ImsiCarries(plmn, v);
  }

  lemma SeriesNumber(spec: Spec, plmn: string, i: nat) returns (v: nat)
    requires Valid(spec) && plmn in spec.plmns && HasRoom(spec, plmn) && spec.selection.Series?
    requires i < spec.selection.count
    ensures v == SeriesStart(spec.selection.prefix, MsinLength(plmn)) + i && ForPlmn(spec, plmn)[i] == Imsi(plmn, v)
  {
    v := SeriesStart(spec.selection.prefix, MsinLength(plmn)) + i;
    assert v < WORD by {
      StartBelowWord(spec, plmn);
    }
    DoesNotWrap(v - i, i);
    assert NumberAt(spec, plmn, i) == v;
  }

  lemma DoesNotWrap(start: nat, i: nat)
    requires start + i < WORD
    ensures Wrapped(start, i) == start + i
  {
  }

  lemma {:induction false} TrailingZeros(s: string, n: nat)
    requires AllDigits(s)
    ensures NumberOf(s + Zeros(n)) == NumberOf(s) * Pow10(n)
  {
    if n == 0 {
      assert s + Zeros(0) == s;
    } else {
      TrailingZeros(s, n - 1);
      var t := s + Zeros(n);
      assert t[..|t| - 1] == s + Zeros(n - 1) && t[|t| - 1] == '0';
      assert NumberOf(s) * Pow10(n) == 10 * (NumberOf(s) * Pow10(n - 1));
    }
  }
}
