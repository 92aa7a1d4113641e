/** String helpers: searching, trimming, decimal numerals and lexicographic order. */
module Texts {
  import opened Bytes

  // ----- searching -----

  predicate OccursAt(text: string, token: string, p: nat) {
    p + |token| <= |text| && text[p..p + |token|] == token
  }

  /** A concatenation occurs where its parts occur one after the other. */
  lemma OccursConcat(text: string, a: string, b: string, p: nat)
    ensures OccursAt(text, a + b, p) <==> OccursAt(text, a, p) && OccursAt(text, b, p + |a|)
  {
    if p + |a| + |b| <= |text| {
      var piece := text[p..p + |a| + |b|];
      assert piece[..|a|] == text[p..p + |a|];
      assert piece[|a|..] == text[p + |a|..p + |a| + |b|];
      assert piece == piece[..|a|] + piece[|a|..];
      assert (a + b)[..|a|] == a && (a + b)[|a|..] == b;
    }
  }

  /** `std::string::find` from a position. */
  function FindFrom(text: string, token: string, from: nat): (r: Option<nat>)
    ensures r.Some? ==> from <= r.value && r.value + |token| <= |text|
    decreases |text| - from
  {
    if from + |token| > |text| then None
    else if OccursAt(text, token, from) then Some(from)
    else FindFrom(text, token, from + 1)
  }

  function Find(text: string, token: string): Option<nat> {
    FindFrom(text, token, 0)
  }

  lemma {:induction false} FindIs(text: string, token: string, from: nat, p: nat)
    requires from <= p && OccursAt(text, token, p)
    requires forall q :: from <= q < p ==> !OccursAt(text, token, q)
    ensures FindFrom(text, token, from) == Some(p)
    decreases p - from
  {
    if from < p {
      assert !OccursAt(text, token, from);
      FindIs(text, token, from + 1, p);
    }
  }

  lemma {:induction false} NeverFound(text: string, token: string, from: nat)
    requires forall q :: from <= q <= |text| ==> !OccursAt(text, token, q)
    ensures FindFrom(text, token, from) == None
    decreases |text| - from
  {
    if from + |token| <= |text| {
      assert !OccursAt(text, token, from);
      NeverFound(text, token, from + 1);
    }
  }

  /** Searching for a one-character token finds its first occurrence. */
  lemma {:induction false} FirstChar(s: string, token: string, from: nat)
    requires |token| == 1 && from <= |s| && forall i :: 0 <= i < from ==> s[i] != token[0]
    ensures match FindFrom(s, token, from)
            case None => token[0] !in s
            case Some(n) => n < |s| && s[n] == token[0] && forall i :: 0 <= i < n ==> s[i] != token[0]
    decreases |s| - from
  {
    if from < |s| {
      assert s[from..from + 1] == [s[from]];
      if s[from] != token[0] {
        FirstChar(s, token, from + 1);
      }
    }
  }

  predicate StartsWith(text: string, prefix: string) {
    prefix <= text
  }

  predicate EndsWith(text: string, suffix: string) {
    |suffix| <= |text| && text[|text| - |suffix|..] == suffix
  }

  // ----- concatenation -----

  /** Every element replaced by its text, in order. */
  function Flat<T>(code: T -> string, s: seq<T>): string {
    if s == [] then "" else code(s[0]) + Flat(code, s[1..])
  }

  lemma {:induction false} FlatConcat<T>(code: T -> string, a: seq<T>, b: seq<T>)
    ensures Flat(code, a + b) == Flat(code, a) + Flat(code, b)
  {
    if a == [] {
      assert a + b == b;
    } else {
      FlatConcat(code, a[1..], b);
      assert (a + b)[1..] == a[1..] + b;
      var x, y, z := code(a[0]), Flat(code, a[1..]), Flat(code, b);
      assert x + (y + z) == (x + y) + z;
    }
  }

  lemma FlatSnoc<T>(code: T -> string, s: seq<T>, c: T)
    ensures Flat(code, s + [c]) == Flat(code, s) + code(c)
  {
    FlatConcat(code, s, [c]);
    assert Flat(code, [c]) == code(c) + Flat(code, []);
  }

  lemma FlatLast<T>(code: T -> string, s: seq<T>)
    requires s != []
    ensures Flat(code, s) == Flat(code, s[..|s| - 1]) + code(s[|s| - 1])
  {
    FlatSnoc(code, s[..|s| - 1], s[|s| - 1]);
    assert s == s[..|s| - 1] + [s[|s| - 1]];
  }

  // ----- trimming -----

  predicate Blank(c: char) {
    c == ' ' || c == '\t' || c == '\r' || c == '\n'
  }

  function TrimLeft(s: string): string {
    if s != "" && Blank(s[0]) then TrimLeft(s[1..]) else s
  }

  function TrimRight(s: string): string {
    if s != "" && Blank(s[|s| - 1]) then TrimRight(s[..|s| - 1]) else s
  }

  /** `trimCopy`. */
  function Trim(s: string): string {
    TrimRight(TrimLeft(s))
  }

  predicate Trimmed(s: string) {
    s == "" || (!Blank(s[0]) && !Blank(s[|s| - 1]))
  }

  lemma {:induction false} TrimRightIsTrimmed(s: string)
    requires s == "" || !Blank(s[0])
    ensures Trimmed(TrimRight(s)) && TrimRight(s) <= s
  {
    if s != "" && Blank(s[|s| - 1]) {
      TrimRightIsTrimmed(s[..|s| - 1]);
    }
  }

  lemma {:induction false} TrimLeftStart(s: string)
    ensures TrimLeft(s) == "" || !Blank(TrimLeft(s)[0])
    ensures EndsWith(s, TrimLeft(s))
  {
    if s != "" && Blank(s[0]) {
      TrimLeftStart(s[1..]);
    }
  }

  /** Trimming leaves a trimmed text, and leaves exactly the trimmed texts alone. */
  lemma TrimIsTrimmed(s: string)
    ensures Trimmed(Trim(s))
    ensures Trim(s) == s <==> Trimmed(s)
  {
    TrimLeftStart(s);
    TrimRightIsTrimmed(TrimLeft(s));
  }

  // ----- decimal numerals -----

  predicate IsDigit(c: char) {
    '0' <= c <= '9'
  }

  predicate AllDigits(s: string) {
    forall i :: 0 <= i < |s| ==> IsDigit(s[i])
  }

  predicate DigitsOnly(s: string) {
    s != "" && AllDigits(s)
  }

  function DigitValue(c: char): nat
    requires IsDigit(c)
  {
    c as int - '0' as int
  }

  function DigitChar(d: nat): (c: char)
    requires d < 10
    ensures IsDigit(c) && DigitValue(c) == d
  {
    d as char + '0'
  }

  /** The number a string of digits denotes. */
  function NumberOf(s: string): nat
    requires AllDigits(s)
  {
    if s == "" then 0 else NumberOf(s[..|s| - 1]) * 10 + DigitValue(s[|s| - 1])
  }

  function Decimal(n: nat): (s: string)
    ensures s != "" && AllDigits(s) && NumberOf(s) == n
    decreases n
  {
    if n < 10 then
      var s := [DigitChar(n)];
      assert s[..0] == "";
      s
    else
      var s := Decimal(n / 10) + [DigitChar(n % 10)];
      assert s[..|s| - 1] == Decimal(n / 10);
      s
  }

  function Pow10(n: nat): (p: nat)
    ensures p > 0
  {
    if n == 0 then 1 else 10 * Pow10(n - 1)
  }

  lemma {:induction false} NumberBelow(s: string)
    requires AllDigits(s)
    ensures NumberOf(s) < Pow10(|s|)
  {
    if s != "" {
      NumberBelow(s[..|s| - 1]);
    }
  }

  // ----- lexicographic order -----

  /** `std::string::operator<` on octets. */
  predicate LexLess(a: string, b: string) {
    if b == "" then false
    else if a == "" then true
    else a[0] < b[0] || (a[0] == b[0] && LexLess(a[1..], b[1..]))
  }

  /** Whether the texts agree before a position, and there the first ends or has the smaller character. */
  predicate LessAt(a: string, b: string, i: nat) {
    i <= |a| && i < |b| && a[..i] == b[..i] && (i == |a| || a[i] < b[i])
  }

  /** One text comes before another exactly when they first differ in its favour. */
  lemma {:induction false} LexByFirstDifference(a: string, b: string)
    ensures LexLess(a, b) <==> exists i :: LessAt(a, b, i)
  {
    if a == "" || b == "" || a[0] != b[0] {
      assert LexLess(a, b) ==> LessAt(a, b, 0);
      assert forall i :: 0 < i <= |a| && i < |b| ==> a[..i][0] == a[0] && b[..i][0] == b[0];
    } else {
      LexByFirstDifference(a[1..], b[1..]);
      if i: nat :| LessAt(a[1..], b[1..], i) {
        assert a[..i + 1] == [a[0]] + a[1..][..i] && b[..i + 1] == [b[0]] + b[1..][..i];
        assert LessAt(a, b, i + 1);
      }
      if i: nat :| LessAt(a, b, i) {
        assert i > 0 && a[1..][..i - 1] == a[..i][1..] && b[1..][..i - 1] == b[..i][1..];
        assert LessAt(a[1..], b[1..], i - 1);
      }
    }
  }

  lemma {:induction false} LexIrreflexive(a: string)
    ensures !LexLess(a, a)
  {
    if a != "" {
      LexIrreflexive(a[1..]);
    }
  }

  lemma {:induction false} LexTransitive(a: string, b: string, c: string)
    requires LexLess(a, b) && LexLess(b, c)
    ensures LexLess(a, c)
  {
    if a != "" && a[0] == b[0] == c[0] {
      LexTransitive(a[1..], b[1..], c[1..]);
    }
  }

  lemma {:induction false} LexTotal(a: string, b: string)
    ensures a == b || LexLess(a, b) || LexLess(b, a)
  {
    if a != "" && b != "" && a[0] == b[0] {
      LexTotal(a[1..], b[1..]);
      assert a == [a[0]] + a[1..] && b == [b[0]] + b[1..];
    }
  }

  lemma {:induction false} LexSnoc(a: string, b: string, x: char, y: char)
    requires |a| == |b|
    ensures LexLess(a + [x], b + [y]) <==> LexLess(a, b) || (a == b && x < y)
  {
    if a == "" {
      assert a + [x] == [x] && b + [y] == [y];
    } else {
      assert (a + [x])[1..] == a[1..] + [x] && (b + [y])[1..] == b[1..] + [y];
      assert a == [a[0]] + a[1..] && b == [b[0]] + b[1..];
      LexSnoc(a[1..], b[1..], x, y);
    }
  }

  /** On digit strings of one length, string order is numeric order. */
  lemma {:induction false} LexIsNumeric(a: string, b: string)
    requires |a| == |b| && AllDigits(a) && AllDigits(b)
    ensures LexLess(a, b) <==> NumberOf(a) < NumberOf(b)
    ensures a == b <==> NumberOf(a) == NumberOf(b)
  {
    if a != "" {
      var n := |a| - 1;
      LexIsNumeric(a[..n], b[..n]);
      LexSnoc(a[..n], b[..n], a[n], b[n]);
      assert a == a[..n] + [a[n]] && b == b[..n] + [b[n]];
    }
  }
}
