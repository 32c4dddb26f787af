/** Printing and parsing token amounts with a fixed number of decimals. */
module Amounts {
  import opened Prelude
  import opened Division

  predicate Digit(c: char) { '0' <= c <= '9' }

  predicate AllDigits(s: string) { forall i :: 0 <= i < |s| ==> Digit(s[i]) }

  function DigitOf(n: nat): char
    requires n < 10
  {
    '0' + n as char
  }

  function ValueOf(c: char): nat
    requires Digit(c)
  {
    (c - '0') as nat
  }

  function Pow(b: nat, n: nat): nat { if n == 0 then 1 else b * Pow(b, n - 1) }

  /** `BigInt.toString`. */
  function Print(n: nat): (s: string)
    ensures s != "" && AllDigits(s)
  {
    if n < 10 then [DigitOf(n)] else Print(n / 10) + [DigitOf(n % 10)]
  }

  /** `BigInt(string)` on decimal digits; the empty string is zero. */
  function Read(s: string): nat
    requires AllDigits(s)
  {
    if s == "" then 0 else Read(s[..|s| - 1]) * 10 + ValueOf(s[|s| - 1])
  }

  function Zeros(n: nat): (s: string)
    ensures |s| == n && AllDigits(s) && forall c :: c in s ==> c == '0'
  {
    if n == 0 then "" else Zeros(n - 1) + "0"
  }

  function PadStart(s: string, n: nat): string { if |s| >= n then s else Zeros(n - |s|) + s }

  function PadEnd(s: string, n: nat): string { if |s| >= n then s else s + Zeros(n - |s|) }

  function StripZeros(s: string): (r: string)
    ensures r <= s
  {
    if s != "" && s[|s| - 1] == '0' then StripZeros(s[..|s| - 1]) else s
  }

  /** The text before the first dot, and between it and the next one. */
  function BeforeDot(s: string): string {
    if s == "" || s[0] == '.' then "" else [s[0]] + BeforeDot(s[1..])
  }

  function AfterDot(s: string): string {
    if s == "" then "" else if s[0] == '.' then BeforeDot(s[1..]) else AfterDot(s[1..])
  }

  /** The other texts BigInt reads here: a minus sign and digits. */
  predicate Negated(s: string) { |s| > 1 && s[0] == '-' && AllDigits(s[1..]) }

  function PrintNegated(n: nat): string { if n == 0 then "0" else "-" + Print(n) }

  /** `divisor` is `BigInt(10 ** decimals)`: None where the power overflows to infinity and BigInt throws. */
  function FormatAmount(amount: string, decimals: nat, divisor: Option<nat>): Option<string>
    requires divisor.Some? ==> divisor.value > 0
  {
    if divisor.None? then None
    else if AllDigits(amount) then
      var n := Read(amount);
      Some(Spell(n / divisor.value, n % divisor.value, decimals))
    else if Negated(amount) then
      var n := Read(amount[1..]);
      Some(SpellNegated(n / divisor.value, n % divisor.value, decimals))
    else None
  }

  /** Quotient and remainder of a negative amount are both negative, and the remainder is padded with its sign. */
  function SpellNegated(integer: nat, remainder: nat, decimals: nat): string {
    if remainder == 0 then PrintNegated(integer)
    else PrintNegated(integer) + "." + StripZeros(PadStart("-" + Print(remainder), decimals))
  }

  function Spell(integer: nat, remainder: nat, decimals: nat): string {
    if remainder == 0 then Print(integer) else Print(integer) + "." + Decimals(remainder, decimals)
  }

  /** The decimals the printer writes for a remainder. */
  function Decimals(remainder: nat, decimals: nat): string {
    StripZeros(PadStart(Print(remainder), decimals))
  }

  function ParseAmount(amount: string, decimals: nat): Option<string> {
    var total := BeforeDot(amount) + PadEnd(AfterDot(amount), decimals);
    if AllDigits(total) then Some(Print(Read(total)))
    else if Negated(total) then Some(PrintNegated(Read(total[1..])))
    else None
  }

  // ---- Digits -------------------------------------------------------------------------

  lemma {:induction false} ReadPrinted(n: nat)
    ensures Read(Print(n)) == n
  {
    if n >= 10 {
      ReadPrinted(n / 10);
      assert Print(n)[..|Print(n)| - 1] == Print(n / 10);
    } else {
      assert Print(n)[..0] == "";
    }
  }

  lemma TimesPow(x: nat, b: nat, n: nat)
    requires n > 0
    ensures x * Pow(b, n) == b * (x * Pow(b, n - 1))
  {
    var p := Pow(b, n - 1);
    assert x * (b * p) == b * (x * p);
  }

  lemma {:induction false} ReadConcat(a: string, b: string)
    requires AllDigits(a) && AllDigits(b)
    ensures AllDigits(a + b) && Read(a + b) == Read(a) * Pow(10, |b|) + Read(b)
  {
    if b == "" {
      assert a + b == a;
    } else {
      ReadConcat(a, b[..|b| - 1]);
      assert (a + b)[..|a + b| - 1] == a + b[..|b| - 1];
      TimesPow(Read(a), 10, |b|);
    }
  }

  lemma {:induction false} ReadIsBelowPower(s: string)
    requires AllDigits(s)
    ensures Read(s) < Pow(10, |s|)
  {
    if s != "" {
      ReadIsBelowPower(s[..|s| - 1]);
    }
  }

  lemma {:induction false} ReadZeros(n: nat)
    ensures Read(Zeros(n)) == 0
  {
    if n > 0 {
      ReadZeros(n - 1);
      assert Zeros(n)[..n - 1] == Zeros(n - 1);
    }
  }

  /** Digit strings of one length are equal exactly when their values are. */
  lemma {:induction false} SameLengthSameValue(a: string, b: string)
    requires AllDigits(a) && AllDigits(b) && |a| == |b| && Read(a) == Read(b)
    ensures a == b
  {
    if a != "" {
      var n := |a| - 1;
      SameLengthSameValue(a[..n], b[..n]);
      assert a == a[..n] + [a[n]] && b == b[..n] + [b[n]];
    }
  }

  lemma {:induction false} PrintIsShort(n: nat, d: nat)
    requires n < Pow(10, d) && d >= 1
    ensures |Print(n)| <= d
  {
    assert Pow(10, 1) == 10 * Pow(10, 0);
    if n >= 10 && d > 1 {
      PrintIsShort(n / 10, d - 1);
    }
  }

  /** No leading zero, unless the number is zero itself. */
  predicate Plain(s: string) { AllDigits(s) && s != "" && (|s| > 1 ==> s[0] != '0') }

  lemma {:induction false} PrintIsPlain(n: nat)
    ensures Plain(Print(n)) && (n > 0 ==> Print(n)[0] != '0')
  {
    if n >= 10 {
      PrintIsPlain(n / 10);
    }
  }

  lemma {:induction false} PlainIsPositive(s: string)
    requires AllDigits(s) && s != "" && s[0] != '0'
    ensures Read(s) > 0
  {
    if |s| > 1 {
      PlainIsPositive(s[..|s| - 1]);
    } else {
      assert s[..0] == "";
    }
  }

  lemma PrintOneMore(n: nat, c: char)
    requires n > 0 && Digit(c)
    ensures Print(n * 10 + ValueOf(c)) == Print(n) + [c]
  {
  }

  lemma {:induction false} PrintRead(s: string)
    requires Plain(s)
    ensures Print(Read(s)) == s
  {
    var n := |s| - 1;
    if n == 0 {
      assert s[..0] == "" && s == [s[0]];
    } else {
      PlainIsPositive(s[..n]);
      PrintRead(s[..n]);
      PrintOneMore(Read(s[..n]), s[n]);
      assert s == s[..n] + [s[n]];
    }
  }

  lemma {:induction false} PadUndoesStrip(s: string)
    ensures PadEnd(StripZeros(s), |s|) == s
  {
    if s != "" && s[|s| - 1] == '0' {
      var c := s[..|s| - 1];
      PadUndoesStrip(c);
      var r := StripZeros(c);
      assert s == c + "0";
      assert Zeros(|s| - |r|) == Zeros(|c| - |r|) + "0";
      assert PadEnd(r, |s|) == r + Zeros(|c| - |r|) + "0";
    }
  }

  lemma {:induction false} StripUndoesPad(s: string, n: nat)
    requires s == "" || s[|s| - 1] != '0'
    ensures StripZeros(s + Zeros(n)) == s
  {
    if n == 0 {
      assert s + Zeros(0) == s;
    } else {
      assert (s + Zeros(n))[..|s| + n - 1] == s + Zeros(n - 1);
      StripUndoesPad(s, n - 1);
    }
  }

  lemma {:induction false} NoDot(s: string)
    requires '.' !in s
    ensures BeforeDot(s) == s && AfterDot(s) == ""
  {
    if s != "" {
      NoDot(s[1..]);
    }
  }

  lemma {:induction false} SplitAtDot(a: string, b: string)
    requires '.' !in a && '.' !in b
    ensures BeforeDot(a + "." + b) == a && AfterDot(a + "." + b) == b
  {
    if a == "" {
      assert (a + "." + b)[0] == '.' && (a + "." + b)[1..] == b;
      NoDot(b);
    } else {
      SplitAtDot(a[1..], b);
      assert (a + "." + b)[1..] == a[1..] + "." + b;
    }
  }

  lemma NoDotInDigits(s: string)
    requires AllDigits(s)
    ensures '.' !in s
  {
  }

  lemma {:induction false} LeadingZeros(k: nat, text: string)
    requires AllDigits(text)
    ensures AllDigits(Zeros(k) + text) && Read(Zeros(k) + text) == Read(text)
  {
    if text == "" {
      ReadZeros(k);
      assert Zeros(k) + text == Zeros(k);
    } else {
      var n := |text| - 1;
      LeadingZeros(k, text[..n]);
      assert (Zeros(k) + text)[..k + n] == Zeros(k) + text[..n];
    }
  }

  lemma PaddingKeepsTheValue(text: string, d: nat)
    requires AllDigits(text) && |text| <= d
    ensures var x := PadStart(text, d); AllDigits(x) && |x| == d && Read(x) == Read(text)
  {
    LeadingZeros(d - |text|, text);
  }

  /** A remainder padded to `d` digits keeps its value and has exactly `d` digits. */
  lemma PaddedRemainder(r: nat, d: nat)
    requires r < Pow(10, d) && d >= 1
    ensures var x := PadStart(Print(r), d); AllDigits(x) && |x| == d && Read(x) == r
  {
    PrintIsShort(r, d);
    ReadPrinted(r);
    PaddingKeepsTheValue(Print(r), d);
  }

  lemma {:induction false} PowIsPositive(b: nat, n: nat)
    requires b > 0
    ensures Pow(b, n) > 0
  {
    if n > 0 {
      PowIsPositive(b, n - 1);
    }
  }

  // ---- Round trips ----------------------------------------------------------------------

  /** `i` whole units, in the smallest unit. */
  function Scale(i: nat, d: nat): (r: nat) {
    i * Pow(10, d)
  }

  lemma TrailingZeros(text: string, k: nat)
    requires AllDigits(text)
    ensures AllDigits(text + Zeros(k)) && Read(text + Zeros(k)) == Scale(Read(text), k)
  {
    ReadZeros(k);
    ReadConcat(text, Zeros(k));
  }

  lemma ParseWhole(i: nat, d: nat)
    ensures ParseAmount(Print(i), d) == Some(Print(Scale(i, d)))
  {
    var text := Print(i);
    NoDotInDigits(text);
    NoDot(text);
    assert PadEnd("", d) == Zeros(d);
    TrailingZeros(text, d);
    ReadPrinted(i);
  }

  lemma ParseFraction(i: nat, r: nat, d: nat)
    requires r < Pow(10, d) && d >= 1
    ensures ParseAmount(Print(i) + "." + Decimals(r, d), d) == Some(Print(Scale(i, d) + r))
  {
    var text, x := Print(i), PadStart(Print(r), d);
    PaddedRemainder(r, d);
    PadUndoesStrip(x);
    NoDotInDigits(text);
    NoDotInDigits(Decimals(r, d));
    SplitAtDot(text, Decimals(r, d));
    ReadConcat(text, x);
    ReadPrinted(i);
  }

  lemma ParseSpelled(i: nat, r: nat, d: nat)
    requires r < Pow(10, d)
    ensures ParseAmount(Spell(i, r, d), d) == Some(Print(Scale(i, d) + r))
  {
    if r == 0 {
      ParseWhole(i, d);
    } else {
      assert Pow(10, 0) == 1;
      ParseFraction(i, r, d);
    }
  }

  /** The printer spells the one quotient and remainder of the amount. */
  lemma FormatSpells(amount: string, d: nat, p: nat) returns (q: nat, r: nat)
    requires AllDigits(amount) && p > 0
    ensures Read(amount) == q * p + r && r < p
    ensures FormatAmount(amount, d, Some(p)) == Some(Spell(q, r, d))
  {
    DivideAndRest(Read(amount), p);
    q, r := Read(amount) / p, Read(amount) % p;
  }

  /** With an exact divisor, parsing what was printed gives the amount back. */
  lemma ParseUndoesFormat(amount: string, d: nat)
    requires AllDigits(amount) && Pow(10, d) > 0
    ensures var text := FormatAmount(amount, d, Some(Pow(10, d)));
            text.Some? && ParseAmount(text.value, d) == Some(Print(Read(amount)))
  {
    var q, r := FormatSpells(amount, d, Pow(10, d));
    ParseSpelled(q, r, d);
  }

  ghost predicate RoundTrips(d: nat, divisor: Option<nat>)
    requires divisor.Some? ==> divisor.value > 0
  {
    forall n: nat ::
      FormatAmount(Print(n), d, divisor).Some? && ParseAmount(FormatAmount(Print(n), d, divisor).value, d) == Some(Print(n))
  }

  /** Every amount survives printing and parsing exactly when the divisor is the true power of ten. */
  lemma RoundTripsIffDivisorExact(d: nat, divisor: Option<nat>)
    requires divisor.Some? ==> divisor.value > 0
    ensures RoundTrips(d, divisor) <==> divisor == Some(Pow(10, d))
  {
    PowIsPositive(10, d);
    if divisor == Some(Pow(10, d)) {
      forall n: nat
        ensures FormatAmount(Print(n), d, divisor).Some? && ParseAmount(FormatAmount(Print(n), d, divisor).value, d) == Some(Print(n))
      {
        ParseUndoesFormat(Print(n), d);
        ReadPrinted(n);
      }
    } else if divisor.Some? {
      var n := divisor.value;
      ReadPrinted(n);
      assert n / n == 1 && n % n == 0;
      assert FormatAmount(Print(n), d, divisor) == Some("1");
      assert Print(1) == "1";
      ParseWhole(1, d);
      ReadPrinted(Pow(10, d));
      assert Print(n) != Print(Pow(10, d));
    } else {
      assert FormatAmount(Print(0), d, divisor).None?;
    }
  }

  /** A number without its factors of two: what a floating-point significand has to hold. */
  function OddPart(n: nat): nat
    requires n > 0
  {
    if n % 2 == 0 then OddPart(n / 2) else n
  }

  /** A whole number that a 53-bit significand represents exactly. */
  predicate FitsADouble(n: nat)
    requires n > 0
  {
    OddPart(n) < 0x20_0000_0000_0000
  }

  lemma OddPartOfDouble(n: nat)
    requires n > 0
    ensures OddPart(2 * n) == OddPart(n)
  {
  }

  lemma {:induction false} OddPartOfProduct(k: nat, odd: nat)
    requires odd % 2 == 1
    ensures odd * Pow(2, k) > 0 && OddPart(odd * Pow(2, k)) == odd
  {
    if k > 0 {
      OddPartOfProduct(k - 1, odd);
      TimesPow(odd, 2, k);
      OddPartOfDouble(odd * Pow(2, k - 1));
    } else {
      assert odd * Pow(2, 0) == odd;
    }
  }

  lemma Regroup(t: nat, f: nat)
    ensures 10 * (f * t) == (5 * f) * (2 * t)
  {
  }

  lemma {:induction false} TenIsTwoTimesFive(d: nat)
    ensures Pow(10, d) == Pow(5, d) * Pow(2, d)
  {
    if d > 0 {
      TenIsTwoTimesFive(d - 1);
      Regroup(Pow(2, d - 1), Pow(5, d - 1));
    }
  }

  lemma {:induction false} FivesAreOdd(d: nat)
    ensures Pow(5, d) % 2 == 1
  {
    if d > 0 {
      FivesAreOdd(d - 1);
    }
  }

  lemma {:induction false} FivesGrow(a: nat, b: nat)
    requires a <= b
    ensures Pow(5, a) <= Pow(5, b)
  {
    if a < b {
      FivesGrow(a, b - 1);
    }
  }

  lemma PowersOfFive()
    ensures Pow(5, 22) == 2_384_185_791_015_625 && Pow(5, 23) == 11_920_928_955_078_125
  {
    assert Pow(5, 4) == 625;
    assert Pow(5, 8) == 390_625 by { assert Pow(5, 6) == 15_625; }
    assert Pow(5, 12) == 244_140_625 by { assert Pow(5, 10) == 9_765_625; }
    assert Pow(5, 16) == 152_587_890_625 by { assert Pow(5, 14) == 6_103_515_625; }
    assert Pow(5, 20) == 95_367_431_640_625 by { assert Pow(5, 18) == 3_814_697_265_625; }
  }

  /**
   * `10 ** decimals` is a double, so the divisor can be exact only up to 22 decimals: with a
   * correctly rounded power the round trip holds exactly for those, and from 23 on some
   * amount comes back changed.
   */
  lemma TwentyTwoDecimalsAtMost(d: nat, divisor: nat)
    requires divisor > 0 && FitsADouble(divisor)
    requires FitsADouble(if Pow(10, d) > 0 then Pow(10, d) else 1) ==> divisor == Pow(10, d)
    ensures RoundTrips(d, Some(divisor)) <==> d <= 22
  {
    PowIsPositive(10, d);
    TenIsTwoTimesFive(d);
    FivesAreOdd(d);
    OddPartOfProduct(d, Pow(5, d));
    PowersOfFive();
    if d <= 22 {
      FivesGrow(d, 22);
    } else {
      FivesGrow(23, d);
    }
    RoundTripsIffDivisorExact(d, Some(divisor));
  }

  /** What the printer can produce: a plain integer, or one with at most `d` decimals and no trailing zero. */
  predicate Canonical(s: string, d: nat) {
    var integer, decimals := BeforeDot(s), AfterDot(s);
    && Plain(integer) && AllDigits(decimals)
    && (s == integer || (s == integer + "." + decimals && 0 < |decimals| <= d && decimals[|decimals| - 1] != '0'))
  }

  lemma SpellIsCanonical(i: nat, r: nat, d: nat)
    requires r < Pow(10, d)
    ensures Canonical(Spell(i, r, d), d)
  {
    PrintIsPlain(i);
    NoDotInDigits(Print(i));
    if r == 0 {
      NoDot(Print(i));
    } else {
      assert Pow(10, 0) == 1;
      DecimalsAreTrimmed(r, d);
      NoDotInDigits(Decimals(r, d));
      SplitAtDot(Print(i), Decimals(r, d));
    }
  }

  lemma FormatIsCanonical(n: nat, d: nat)
    requires Pow(10, d) > 0
    ensures FormatAmount(Print(n), d, Some(Pow(10, d))).Some? && Canonical(FormatAmount(Print(n), d, Some(Pow(10, d))).value, d)
  {
    var q, r := FormatSpells(Print(n), d, Pow(10, d));
    SpellIsCanonical(q, r, d);
  }

  lemma DecimalsAreTrimmed(r: nat, d: nat)
    requires 0 < r < Pow(10, d) && d >= 1
    ensures var x := Decimals(r, d); AllDigits(x) && 0 < |x| <= d && x[|x| - 1] != '0'
  {
    PaddedRemainder(r, d);
    StripEndsInNonZero(PadStart(Print(r), d));
  }

  lemma {:induction false} StripEndsInNonZero(s: string)
    requires AllDigits(s) && Read(s) > 0
    ensures StripZeros(s) != "" && StripZeros(s)[|StripZeros(s)| - 1] != '0'
  {
    if s[|s| - 1] == '0' {
      StripEndsInNonZero(s[..|s| - 1]);
    }
  }

  lemma {:induction false} LastDigitCounts(s: string)
    requires AllDigits(s) && s != "" && s[|s| - 1] != '0'
    ensures Read(s) > 0
  {
  }

  lemma ReadPaddedPositive(s: string, n: nat)
    requires AllDigits(s) && s != "" && s[|s| - 1] != '0'
    ensures AllDigits(s + Zeros(n)) && Read(s + Zeros(n)) > 0
  {
    LastDigitCounts(s);
    ReadZeros(n);
    ReadConcat(s, Zeros(n));
    PowIsPositive(10, n);
    TimesIsMonotone(1, Read(s), Pow(10, n));
  }

  /** Trimmed decimals, padded and printed as a remainder, are themselves again. */
  lemma DecimalsOfPadded(decimals: string, k: nat)
    requires AllDigits(decimals) && decimals != "" && decimals[|decimals| - 1] != '0'
    ensures var x := decimals + Zeros(k);
            AllDigits(x) && 0 < Read(x) < Pow(10, |x|) && Decimals(Read(x), |x|) == decimals
  {
    var x := decimals + Zeros(k);
    ReadPaddedPositive(decimals, k);
    ReadIsBelowPower(x);
    PaddedRemainder(Read(x), |x|);
    SameLengthSameValue(PadStart(Print(Read(x)), |x|), x);
    StripUndoesPad(decimals, k);
  }

  lemma FormatOf(i: nat, r: nat, d: nat)
    requires r < Pow(10, d)
    ensures FormatAmount(Print(Scale(i, d) + r), d, Some(Pow(10, d))) ==
            Some(Spell(i, r, d))
  {
    ReadPrinted(Scale(i, d) + r);
    QuotientIsUnique(Scale(i, d) + r, Pow(10, d), i, r);
  }

  lemma FractionIsSpelled(integer: string, decimals: string, d: nat) returns (r: nat)
    requires Plain(integer) && AllDigits(decimals) && 0 < |decimals| <= d && decimals[|decimals| - 1] != '0'
    ensures r < Pow(10, d) && Spell(Read(integer), r, d) == integer + "." + decimals
  {
    PrintRead(integer);
    DecimalsOfPadded(decimals, d - |decimals|);
    r := Read(decimals + Zeros(d - |decimals|));
  }

  /** Every canonical text is the spelling of some whole and fractional part. */
  lemma CanonicalIsSpelled(s: string, d: nat) returns (i: nat, r: nat)
    requires Canonical(s, d) && Pow(10, d) > 0
    ensures r < Pow(10, d) && Spell(i, r, d) == s
  {
    var integer := BeforeDot(s);
    i := Read(integer);
    if s == integer {
      PrintRead(integer);
      r := 0;
    } else {
      r := FractionIsSpelled(integer, AfterDot(s), d);
    }
  }

  lemma FormatUndoesParse(s: string, d: nat)
    requires Canonical(s, d) && Pow(10, d) > 0
    ensures ParseAmount(s, d).Some? && FormatAmount(ParseAmount(s, d).value, d, Some(Pow(10, d))) == Some(s)
  {
    var i, r := CanonicalIsSpelled(s, d);
    ParseSpelled(i, r, d);
    FormatOf(i, r, d);
  }

  // ---- What a text is worth -----------------------------------------------------------------

  /** Any digits before and after the dot, trailing zeros and all: up to `d` decimals are worth their scaled value. */
  lemma DecimalTextIsScaled(whole: string, decimals: string, d: nat)
    requires AllDigits(whole) && AllDigits(decimals) && |decimals| <= d
    ensures ParseAmount(whole + "." + decimals, d) == Some(Print(Scale(Read(whole + decimals), d - |decimals|)))
  {
    NoDotInDigits(whole);
    NoDotInDigits(decimals);
    SplitAtDot(whole, decimals);
    var padded := decimals + Zeros(d - |decimals|);
    assert PadEnd(decimals, d) == padded;
    assert whole + padded == (whole + decimals) + Zeros(d - |decimals|);
    TrailingZeros(whole + decimals, d - |decimals|);
  }

  /** Digits without a dot are whole units, leading zeros and all; no digits are zero. */
  lemma WholeTextIsScaled(whole: string, d: nat)
    requires AllDigits(whole)
    ensures ParseAmount(whole, d) == Some(Print(Scale(Read(whole), d)))
  {
    NoDotInDigits(whole);
    NoDot(whole);
    assert PadEnd("", d) == Zeros(d);
    TrailingZeros(whole, d);
  }

  /** Decimals beyond `d` are not cut off: all digits count as units. */
  lemma ExcessDecimalsAreUnits(whole: string, decimals: string, d: nat)
    requires AllDigits(whole) && AllDigits(decimals) && |decimals| >= d
    ensures ParseAmount(whole + "." + decimals, d) == Some(Print(Read(whole + decimals)))
  {
    NoDotInDigits(whole);
    NoDotInDigits(decimals);
    SplitAtDot(whole, decimals);
  }

  /** The text's digits, with as many decimals as it has, are worth this many units. */
  predicate WorthItsValue(whole: string, decimals: string, d: nat, units: nat)
    requires AllDigits(whole + decimals)
  {
    Scale(units, |decimals|) == Scale(Read(whole + decimals), d)
  }

  lemma {:induction false} PowersMultiply(b: nat, m: nat, n: nat)
    ensures Pow(b, m + n) == Pow(b, m) * Pow(b, n)
  {
    if m > 0 {
      PowersMultiply(b, m - 1, n);
      var x, y := Pow(b, m - 1), Pow(b, n);
      assert b * (x * y) == (b * x) * y;
    }
  }

  lemma ScaleTwice(i: nat, m: nat, n: nat)
    ensures Scale(Scale(i, m), n) == Scale(i, m + n)
  {
    PowersMultiply(10, m, n);
    var x, y := Pow(10, m), Pow(10, n);
    assert i * x * y == i * (x * y);
  }

  lemma FewDecimalsKeepTheirValue(value: nat, n: nat, d: nat)
    requires n <= d
    ensures Scale(Scale(value, d - n), n) == Scale(value, d)
  {
    ScaleTwice(value, d - n, n);
  }

  /** What a text of digits is parsed to is its value in units exactly when it has at most `d` decimals, or is zero. */
  lemma ParsedValueIsRightIff(whole: string, decimals: string, d: nat) returns (units: nat)
    requires AllDigits(whole) && AllDigits(decimals)
    ensures ParseAmount(whole + "." + decimals, d) == Some(Print(units))
    ensures WorthItsValue(whole, decimals, d, units) <==> |decimals| <= d || Read(whole + decimals) == 0
  {
    var value, n := Read(whole + decimals), |decimals|;
    if n <= d {
      units := Scale(value, d - n);
      DecimalTextIsScaled(whole, decimals, d);
      FewDecimalsKeepTheirValue(value, n, d);
    } else {
      units := value;
      ExcessDecimalsAreUnits(whole, decimals, d);
      ScalesDiffer(value, d, n);
    }
  }

  lemma ScalesDiffer(i: nat, m: nat, n: nat)
    requires m < n
    ensures Scale(i, n) == Scale(i, m) <==> i == 0
  {
    ScaleTwice(i, m, n - m);
    PowIsLarge(n - m);
    if i > 0 {
      ScaleIsPositive(i, m);
      TimesIsMonotone(2, Pow(10, n - m), Scale(i, m));
    }
  }

  lemma {:induction false} PowIsLarge(n: nat)
    requires n > 0
    ensures Pow(10, n) >= 10
  {
    if n > 1 {
      PowIsLarge(n - 1);
    }
  }

  // ---- Negative amounts -------------------------------------------------------------------

  lemma ReadNegated(n: nat)
    requires n > 0
    ensures var s := "-" + Print(n); Negated(s) && !AllDigits(s) && Read(s[1..]) == n && s[1..] == Print(n)
  {
    ReadPrinted(n);
    assert ("-" + Print(n))[1..] == Print(n) && ("-" + Print(n))[0] == '-';
  }

  lemma {:induction false} MinusIsNotStripped(s: string)
    requires '-' in s
    ensures '-' in StripZeros(s)
  {
    if s[|s| - 1] == '0' {
      assert s == s[..|s| - 1] + "0";
      MinusIsNotStripped(s[..|s| - 1]);
    }
  }

  lemma {:induction false} NothingAddedByStripping(s: string, c: char)
    requires c !in s
    ensures c !in StripZeros(s)
  {
    if s != "" && s[|s| - 1] == '0' {
      NothingAddedByStripping(s[..|s| - 1], c);
    }
  }

  /** A minus sign after the first character is what BigInt refuses. */
  lemma MinusInsideIsRefused(whole: string, rest: string)
    requires whole != "" && '-' in rest
    ensures !AllDigits(whole + rest) && !Negated(whole + rest)
  {
    var s := whole + rest;
    var k :| 0 <= k < |rest| && rest[k] == '-';
    assert s[|whole| + k] == '-';
    if Negated(s) {
      assert s[1..][|whole| + k - 1] == '-';
    }
  }

  lemma NegativeFractionIsRefused(i: nat, r: nat, d: nat)
    requires r > 0
    ensures ParseAmount(SpellNegated(i, r, d), d) == None
  {
    var whole, decimals := PrintNegated(i), PadStart("-" + Print(r), d);
    assert ("-" + Print(r))[0] == '-' && '-' in decimals;
    NoDotInDigits(Print(i));
    NoDotInDigits(Print(r));
    MinusIsNotStripped(decimals);
    NothingAddedByStripping(decimals, '.');
    SplitAtDot(whole, StripZeros(decimals));
    MinusInsideIsRefused(whole, PadEnd(StripZeros(decimals), d));
  }

  lemma ScaleIsPositive(i: nat, d: nat)
    requires i > 0
    ensures Scale(i, d) > 0
  {
    PowIsPositive(10, d);
    TimesIsMonotone(1, i, Pow(10, d));
  }

  lemma NegativeTotal(i: nat, d: nat)
    requires i > 0
    ensures var total := "-" + Print(i) + Zeros(d);
            Negated(total) && !AllDigits(total) && Read(total[1..]) == Scale(i, d) > 0
  {
    var total := "-" + Print(i) + Zeros(d);
    assert total[0] == '-' && total[1..] == Print(i) + Zeros(d);
    TrailingZeros(Print(i), d);
    ReadPrinted(i);
    ScaleIsPositive(i, d);
  }

  lemma ParseNegativeWhole(i: nat, d: nat)
    requires i > 0
    ensures ParseAmount("-" + Print(i), d) == Some("-" + Print(Scale(i, d)))
  {
    var text := "-" + Print(i);
    NoDotInDigits(Print(i));
    NoDot(text);
    assert PadEnd("", d) == Zeros(d);
    NegativeTotal(i, d);
  }

  /** The printer spells the quotient and the remainder of the amount's absolute value. */
  lemma FormatSpellsNegated(n: nat, d: nat, p: nat) returns (q: nat, r: nat)
    requires n > 0 && p > 0
    ensures n == q * p + r && r < p && r == n % p && (r == 0 ==> q > 0)
    ensures FormatAmount("-" + Print(n), d, Some(p)) == Some(SpellNegated(q, r, d))
  {
    ReadNegated(n);
    DivideAndRest(n, p);
    q, r := n / p, n % p;
    if q == 0 {
      QuotientIsUnique(n, p, 0, r);
    }
  }

  function Text(n: int): string { if n >= 0 then Print(n) else "-" + Print(-n) }

  /** Printing an amount with an exact divisor and parsing the text gives the amount back. */
  predicate RoundTripsAt(n: int, d: nat)
    requires Pow(10, d) > 0
  {
    var text := FormatAmount(Text(n), d, Some(Pow(10, d)));
    text.Some? && ParseAmount(text.value, d) == Some(Text(n))
  }

  lemma NegativeAmountSplits(n: nat, d: nat) returns (q: nat, r: nat)
    requires n > 0 && Pow(10, d) > 0
    ensures n == Scale(q, d) + r && r < Pow(10, d) && r == n % Pow(10, d) && (r == 0 ==> q > 0)
    ensures FormatAmount("-" + Print(n), d, Some(Pow(10, d))) == Some(SpellNegated(q, r, d))
  {
    q, r := FormatSpellsNegated(n, d, Pow(10, d));
  }

  /** The text of a negative amount parses exactly when it has no fraction. */
  lemma ParseSpelledNegated(q: nat, r: nat, d: nat)
    requires r == 0 ==> q > 0
    ensures ParseAmount(SpellNegated(q, r, d), d) == if r == 0 then Some("-" + Print(Scale(q, d))) else None
  {
    if r == 0 {
      ParseNegativeWhole(q, d);
    } else {
      NegativeFractionIsRefused(q, r, d);
    }
  }

  lemma NegativeRoundTrip(n: nat, d: nat)
    requires n > 0 && Pow(10, d) > 0
    ensures var text := FormatAmount("-" + Print(n), d, Some(Pow(10, d)));
            && text.Some?
            && (ParseAmount(text.value, d) == Some("-" + Print(n)) <==> n % Pow(10, d) == 0)
  {
    var q, r := NegativeAmountSplits(n, d);
    ParseSpelledNegated(q, r, d);
  }

  /** With an exact divisor an amount survives printing and parsing exactly when it is not negative, or whole: the remainder of a negative amount prints its own sign. */
  lemma RoundTripIffNoNegativeFraction(n: int, d: nat)
    requires Pow(10, d) > 0
    ensures RoundTripsAt(n, d) <==> n >= 0 || -n % Pow(10, d) == 0
  {
    if n >= 0 {
      ParseUndoesFormat(Print(n), d);
      ReadPrinted(n);
    } else {
      NegativeRoundTrip(-n, d);
    }
  }

  /** What the printer and the parser agree on among negative texts: whole amounts. */
  predicate CanonicalNegative(s: string) { Negated(s) && Plain(s[1..]) && s[1..] != "0" }

  lemma PlainIsZeroOrPositive(s: string)
    requires Plain(s) && s != "0"
    ensures Read(s) > 0
  {
    PrintRead(s);
    assert Print(0) == "0";
  }

  lemma WholeAmountSplits(i: nat, d: nat)
    requires i > 0 && Pow(10, d) > 0
    ensures FormatAmount("-" + Print(Scale(i, d)), d, Some(Pow(10, d))) == Some("-" + Print(i))
  {
    ScaleIsPositive(i, d);
    ReadNegated(Scale(i, d));
    QuotientIsUnique(Scale(i, d), Pow(10, d), i, 0);
  }

  lemma NegativeWholeReturns(i: nat, d: nat)
    requires i > 0 && Pow(10, d) > 0
    ensures var total := ParseAmount("-" + Print(i), d);
            total.Some? && FormatAmount(total.value, d, Some(Pow(10, d))) == Some("-" + Print(i))
  {
    ParseNegativeWhole(i, d);
    WholeAmountSplits(i, d);
  }

  lemma NegativeTextIsPrinted(s: string) returns (i: nat)
    requires CanonicalNegative(s)
    ensures i > 0 && s == "-" + Print(i)
  {
    i := Read(s[1..]);
    assert s == "-" + s[1..];
    PlainIsZeroOrPositive(s[1..]);
    PrintRead(s[1..]);
  }

  lemma NegativeTextReturns(s: string, d: nat)
    requires CanonicalNegative(s) && Pow(10, d) > 0
    ensures ParseAmount(s, d).Some? && FormatAmount(ParseAmount(s, d).value, d, Some(Pow(10, d))) == Some(s)
  {
    var i := NegativeTextIsPrinted(s);
    NegativeWholeReturns(i, d);
  }

  lemma SpelledNegativeTextIsWhole(q: nat, r: nat, d: nat)
    requires (r == 0 ==> q > 0) && ParseAmount(SpellNegated(q, r, d), d).Some?
    ensures CanonicalNegative(SpellNegated(q, r, d))
  {
    ParseSpelledNegated(q, r, d);
    ReadNegated(q);
    PrintIsPlain(q);
  }

  lemma ReturnedNegativeTextIsWhole(s: string, d: nat, n: nat, p: nat)
    requires p > 0 && n > 0
    requires ParseAmount(s, d).Some? && FormatAmount("-" + Print(n), d, Some(p)) == Some(s)
    ensures CanonicalNegative(s)
  {
    var q, r := FormatSpellsNegated(n, d, p);
    SpelledNegativeTextIsWhole(q, r, d);
  }

  /** Printing what was parsed returns the text exactly when the text is canonical, or a negative whole amount. */
  lemma PrintedTextIffCanonical(s: string, d: nat)
    requires Pow(10, d) > 0
    ensures Canonical(s, d) || CanonicalNegative(s) <==>
            ParseAmount(s, d).Some? && FormatAmount(ParseAmount(s, d).value, d, Some(Pow(10, d))) == Some(s)
  {
    var total := BeforeDot(s) + PadEnd(AfterDot(s), d);
    if Canonical(s, d) {
      FormatUndoesParse(s, d);
    } else if CanonicalNegative(s) {
      NegativeTextReturns(s, d);
    } else if AllDigits(total) {
      FormatIsCanonical(Read(total), d);
    } else if Negated(total) {
      var n := Read(total[1..]);
      if n == 0 {
        assert Print(0) == "0";
        FormatIsCanonical(0, d);
      } else if FormatAmount("-" + Print(n), d, Some(Pow(10, d))) == Some(s) {
        ReturnedNegativeTextIsWhole(s, d, n, Pow(10, d));
      }
    }
  }
}
