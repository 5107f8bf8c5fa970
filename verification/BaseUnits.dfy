/** Deposit amounts as strings of smallest units: the printer that places the decimal point
    and the writer that scales an amount back are exact inverses. */
module BaseUnits {
  import opened Options

  predicate IsDigit(c: char) { '0' <= c <= '9' }

  predicate Digits(s: string) { forall i | 0 <= i < |s| :: IsDigit(s[i]) }

  function DigitValue(c: char): (d: nat)
    requires IsDigit(c)
    ensures d < 10 && (d == 0 <==> c == '0')
  {
    c as int - '0' as int
  }

  function DigitChar(d: nat): (c: char)
    requires d < 10
    ensures IsDigit(c) && DigitValue(c) == d
  {
    ('0' as int + d) as char
  }

  /** What a string of digits denotes. */
  function Num(s: string): nat
    requires Digits(s)
  {
    if s == [] then 0 else 10 * Num(s[..|s| - 1]) + DigitValue(s[|s| - 1])
  }

  /** The shortest digits of a number. */
  function Str(n: nat): (s: string)
    ensures s != [] && Digits(s)
  {
    if n < 10 then [DigitChar(n)] else Str(n / 10) + [DigitChar(n % 10)]
  }

  function Pow10(k: nat): (p: nat)
    ensures p >= 1
  {
    if k == 0 then 1 else 10 * Pow10(k - 1)
  }

  function Zeros(n: nat): (z: string)
    ensures |z| == n && Digits(z) && forall i | 0 <= i < n :: z[i] == '0'
  {
    seq(n, i => '0')
  }

  /** Leading zeros dropped, the last digit never. */
  function StripLeadingZeros(s: string): (t: string)
    requires Digits(s)
    ensures Digits(t) && |t| <= |s| && (s != [] ==> t != [])
  {
    if |s| > 1 && s[0] == '0' then StripLeadingZeros(s[1..]) else s
  }

  function StripTrailingZeros(s: string): (t: string)
    requires Digits(s)
    ensures Digits(t) && |t| <= |s|
  {
    if s != [] && s[|s| - 1] == '0' then StripTrailingZeros(s[..|s| - 1]) else s
  }

  predicate IntegerString(raw: string) {
    if raw != [] && raw[0] == '-' then |raw| > 1 && Digits(raw[1..]) else raw != [] && Digits(raw)
  }

  /** Digits filled up with leading zeros to a width. */
  function Padded(s: string, width: nat): (p: string)
    requires Digits(s)
    ensures Digits(p) && |p| >= width && |p| >= |s|
  {
    if |s| < width then Zeros(width - |s|) + s else s
  }

  /** The digits split at the decimal point. */
  datatype Decimal = Decimal(negative: bool, whole: string, frac: string)

  predicate SomeNonZero(s: string) { exists i :: 0 <= i < |s| && s[i] != '0' }

  function Place(negative: bool, abs: string, scale: nat): Decimal
    requires Digits(abs)
  {
    var padded := Padded(abs, scale + 1);
    var point := |padded| - scale;
    Decimal(negative && SomeNonZero(abs), padded[..point], StripTrailingZeros(padded[point..]))
  }

  function Sign(negative: bool): string { if negative then "-" else "" }

  function Body(d: Decimal): string { if d.frac == [] then d.whole else d.whole + "." + d.frac }

  function Render(d: Decimal): string { Sign(d.negative) + Body(d) }

  /** The printer. A raw amount that is no integer string takes a floating-point path. */
  function FromBaseUnits(raw: string, scale: nat): Option<string> {
    if !IntegerString(raw) then None
    else
      var negative := raw[0] == '-';
      var abs := StripLeadingZeros(if negative then raw[1..] else raw);
      if scale == 0 then Some(Sign(negative) + abs)
      else Some(Render(Place(negative, abs, scale)))
  }

  function Magnitude(x: real): real { if x < 0.0 then -x else x }

  /** Half up, on a magnitude. */
  function Round(x: real): nat
    requires x >= 0.0
  {
    (x + 0.5).Floor
  }

  /** Exactly rounded decimal digits: `scale` of them after the point. */
  function ToFixed(x: real, scale: nat): (d: Decimal)
    requires x >= 0.0
    ensures Digits(d.whole) && Digits(d.frac) && |d.frac| == scale
  {
    var padded := Padded(Str(Round(Upscaled(x, scale))), scale + 1);
    Decimal(false, padded[..|padded| - scale], padded[|padded| - scale..])
  }

  /** The writer. */
  function ToBaseUnits(x: real, scale: nat): string {
    var fixed := ToFixed(Magnitude(x), scale);
    Sign(x < 0.0) + StripLeadingZeros(fixed.whole + fixed.frac)
  }

  /** An integer as the ledger stores it. */
  function StrInt(z: int): string { if z < 0 then "-" + Str(-z) else Str(z) }

  function Scaled(a: nat, k: nat): (r: nat)
    ensures r == 0 <==> a == 0
  {
    Positive(a, Pow10(k));
    a * Pow10(k)
  }

  function Upscaled(x: real, k: nat): (r: real)
    ensures x >= 0.0 ==> r >= 0.0
  {
    x * Pow10(k) as real
  }

  function Over(x: real, k: nat): real { x / Pow10(k) as real }

  lemma Positive(a: nat, b: nat)
    requires b >= 1
    ensures a * b >= 0 && (a * b == 0 <==> a == 0)
  {}

  // ---------------------------------------------------------------- digits and numbers

  lemma NumOfOne(c: char)
    requires IsDigit(c)
    ensures Num([c]) == DigitValue(c)
  {
    assert [c][..0] == [];
  }

  /** Digits and place values are the decimal ones. */
  lemma DecimalNotation(s: string, d: nat, k: nat)
    requires Digits(s) && d < 10
    ensures var c := "0123456789"[d];
            IsDigit(c) && Digits(s + [c]) && Num(s + [c]) == 10 * Num(s) + d && Num([]) == 0
    ensures Pow10(0) == 1 && Pow10(k + 1) == 10 * Pow10(k)
  {
    NumSnoc(s, "0123456789"[d]);
  }

  lemma NumSnoc(s: string, c: char)
    requires Digits(s) && IsDigit(c)
    ensures Digits(s + [c]) && Num(s + [c]) == 10 * Num(s) + DigitValue(c)
  {
    assert (s + [c])[..|s|] == s;
  }

  lemma ScaledStep(a: nat, k: nat)
    requires k > 0
    ensures Scaled(a, k) == 10 * Scaled(a, k - 1)
  {
    TimesTen(a, Pow10(k - 1));
  }

  lemma TimesTen(a: int, b: int)
    ensures 10 * (a * b) == a * (10 * b)
  {}

  lemma {:induction false} NumAppend(a: string, b: string)
    requires Digits(a) && Digits(b)
    ensures Digits(a + b) && Num(a + b) == Scaled(Num(a), |b|) + Num(b)
  {
    if b == [] {
      assert a + b == a;
    } else {
      var init, c := b[..|b| - 1], b[|b| - 1];
      hide Num, Scaled;
      NumAppend(a, init);
      NumSnoc(a + init, c);
      NumSnoc(init, c);
      ScaledStep(Num(a), |b|);
      assert b == init + [c];
      assert a + b == (a + init) + [c];
    }
  }

  lemma {:induction false} NumOfZeros(n: nat)
    ensures Num(Zeros(n)) == 0
  {
    if n > 0 {
      NumOfZeros(n - 1);
      assert Zeros(n) == Zeros(n - 1) + ['0'];
      NumSnoc(Zeros(n - 1), '0');
    }
  }

  lemma {:induction false} NumOfStr(n: nat)
    ensures Num(Str(n)) == n
    ensures n > 0 ==> Str(n)[0] != '0'
    ensures n == 0 ==> Str(n) == "0"
  {
    if n < 10 {
      NumOfOne(DigitChar(n));
    } else {
      NumOfStr(n / 10);
      NumSnoc(Str(n / 10), DigitChar(n % 10));
    }
  }

  lemma PaddedNum(s: string, width: nat)
    requires Digits(s)
    ensures Num(Padded(s, width)) == Num(s)
  {
    if |s| < width {
      hide Num, Scaled;
      NumOfZeros(width - |s|);
      NumAppend(Zeros(width - |s|), s);
    }
  }

  /** No redundant leading zero. */
  predicate Shortest(s: string) { s != [] && (|s| == 1 || s[0] != '0') }

  /** A digit string without redundant leading zeros is the spelling of its number. */
  lemma {:induction false} ShortestIsStr(s: string)
    requires Digits(s) && Shortest(s)
    ensures s == Str(Num(s))
    ensures |s| > 1 ==> Num(s) >= 10
    ensures Num(s) == 0 ==> s == "0"
  {
    var init, c := s[..|s| - 1], s[|s| - 1];
    assert s == init + [c];
    if |s| == 1 {
      assert s == [c];
      NumOfOne(c);
    } else {
      ShortestIsStr(init);
      NumSnoc(init, c);
      assert init[0] != '0';
    }
  }

  lemma StrIsShortest(n: nat)
    ensures Shortest(Str(n))
  {
    NumOfStr(n);
  }

  lemma {:induction false} StripKeepsNum(s: string)
    requires Digits(s) && s != []
    ensures Num(StripLeadingZeros(s)) == Num(s)
    ensures Shortest(StripLeadingZeros(s))
  {
    if |s| > 1 && s[0] == '0' {
      StripKeepsNum(s[1..]);
      assert s == [s[0]] + s[1..];
      NumAppend([s[0]], s[1..]);
      NumOfOne(s[0]);
    }
  }

  /** Stripping leading zeros gives the shortest spelling. */
  lemma StripIsStr(s: string)
    requires Digits(s) && s != []
    ensures StripLeadingZeros(s) == Str(Num(s))
  {
    hide *;
    StripKeepsNum(s);
    ShortestIsStr(StripLeadingZeros(s));
  }

  lemma {:induction false} StripTrailing(s: string)
    requires Digits(s)
    ensures var t := StripTrailingZeros(s);
            Num(s) == Scaled(Num(t), |s| - |t|) && (t == [] || t[|t| - 1] != '0')
  {
    hide Num, Scaled;
    if s != [] && s[|s| - 1] == '0' {
      var init := s[..|s| - 1];
      StripTrailing(init);
      NumSnoc(init, '0');
      assert s == init + ['0'];
      ScaledStep(Num(StripTrailingZeros(init)), |s| - |StripTrailingZeros(init)|);
    } else {
      Unscaled(Num(s));
    }
  }

  lemma Unscaled(a: nat)
    ensures Scaled(a, 0) == a
  {}

  // ---------------------------------------------------------------- what the printer denotes

  /** No redundant zero on either side, and no sign on zero. */
  predicate Canonical(d: Decimal) {
    && Digits(d.whole) && Digits(d.frac)
    && Shortest(d.whole)
    && (d.frac == [] || d.frac[|d.frac| - 1] != '0')
    && (d.negative ==> d.whole != "0" || d.frac != [])
  }

  /** The numerator of a decimal over 10^scale. */
  function Units(d: Decimal, scale: nat): nat
    requires Digits(d.whole) && Digits(d.frac) && |d.frac| <= scale
  {
    Scaled(Num(d.whole), scale) + Scaled(Num(d.frac), scale - |d.frac|)
  }

  lemma NonZeroDigits(n: nat)
    ensures SomeNonZero(Str(n)) <==> n > 0
  {
    NumOfStr(n);
    if n > 0 {
      assert Str(n)[0] != '0';
    }
  }

  lemma NumSplit(s: string, point: nat)
    requires Digits(s) && point <= |s|
    ensures Digits(s[..point]) && Digits(s[point..])
    ensures Num(s) == Scaled(Num(s[..point]), |s| - point) + Num(s[point..])
  {
    hide Num, Scaled;
    NumAppend(s[..point], s[point..]);
    assert s == s[..point] + s[point..];
  }

  /** Dropping the zeros at the end of the fraction does not change the numerator. */
  lemma TailUnits(whole: string, tail: string)
    requires Digits(whole) && Digits(tail)
    ensures var d := Decimal(false, whole, StripTrailingZeros(tail));
            && Units(d, |tail|) == Scaled(Num(whole), |tail|) + Num(tail)
            && (d.frac == [] || d.frac[|d.frac| - 1] != '0')
  {
    hide Num, Scaled, StripTrailingZeros, Digits;
    StripTrailing(tail);
  }

  lemma PlaceUnits(abs: string, scale: nat)
    requires Digits(abs)
    ensures var d := Place(false, abs, scale);
            && Digits(d.whole) && Digits(d.frac) && |d.frac| <= scale && Units(d, scale) == Num(abs)
            && (d.frac == [] || d.frac[|d.frac| - 1] != '0') && !d.negative
  {
    hide Num, Scaled, StripTrailingZeros, Padded, SomeNonZero, Digits, Units;
    var padded := Padded(abs, scale + 1);
    var point := |padded| - scale;
    PaddedNum(abs, scale + 1);
    NumSplit(padded, point);
    TailUnits(padded[..point], padded[point..]);
    assert Place(false, abs, scale) == Decimal(false, padded[..point], StripTrailingZeros(padded[point..]));
  }

  lemma PlaceShortest(abs: string, scale: nat)
    requires Digits(abs) && Shortest(abs)
    ensures Shortest(Place(false, abs, scale).whole)
  {
    hide Num, Scaled, StripTrailingZeros, SomeNonZero;
  }

  lemma PlaceUnsigned(n: nat, scale: nat)
    ensures var d := Place(false, Str(n), scale);
            && Canonical(d) && |d.frac| <= scale && Units(d, scale) == n
  {
    hide Num, Place, Str, Units;
    NumOfStr(n);
    StrIsShortest(n);
    PlaceShortest(Str(n), scale);
    PlaceUnits(Str(n), scale);
  }

  lemma PlaceSigns(negative: bool, n: nat, scale: nat)
    ensures Place(negative, Str(n), scale) == Place(false, Str(n), scale).(negative := negative && n > 0)
  {
    hide Str, Padded, StripTrailingZeros, SomeNonZero;
    NonZeroDigits(n);
  }

  /** Placing the point in the shortest digits of n prints exactly n / 10^scale, canonically. */
  lemma PlaceIsExact(negative: bool, n: nat, scale: nat)
    ensures var d := Place(negative, Str(n), scale);
            && Canonical(d) && |d.frac| <= scale && Units(d, scale) == n
            && (d.negative <==> negative && n > 0)
  {
    hide Num, Scaled, Place, Str, StripTrailingZeros, SomeNonZero, Digits;
    var d := Place(negative, Str(n), scale);
    PlaceSigns(negative, n, scale);
    PlaceUnsigned(n, scale);
    if d.frac == [] && d.whole == "0" {
      NumOfOne('0');
      NumOfNone();
    }
  }

  lemma NumOfNone()
    ensures Num([]) == 0
  {}

  // ---------------------------------------------------------------- reading a printed decimal

  function IndexOfPoint(s: string): (i: nat)
    ensures i <= |s| && (i < |s| ==> s[i] == '.') && forall j | 0 <= j < i :: s[j] != '.'
  {
    if s == [] || s[0] == '.' then 0 else 1 + IndexOfPoint(s[1..])
  }

  /** Unsigned digits read back into their parts. */
  function Parts(negative: bool, body: string): Decimal {
    var i := IndexOfPoint(body);
    Decimal(negative, body[..i], if i < |body| then body[i + 1..] else [])
  }

  /** A printed decimal read back. */
  function Read(s: string): Decimal {
    if s != [] && s[0] == '-' then Parts(true, s[1..]) else Parts(false, s)
  }

  lemma PartsOfBody(d: Decimal)
    requires Digits(d.whole)
    ensures Parts(d.negative, Body(d)) == d
  {
    hide IndexOfPoint;
    var body := Body(d);
    assert forall j | 0 <= j < |d.whole| :: body[j] == d.whole[j] && IsDigit(d.whole[j]);
    var i := IndexOfPoint(body);
    if d.frac == [] {
      assert body[..|d.whole|] == d.whole;
    } else {
      assert body[|d.whole|] == '.';
      assert i == |d.whole|;
      assert body[..i] == d.whole && body[i + 1..] == d.frac;
    }
  }

  lemma ReadRendered(d: Decimal)
    requires Digits(d.whole) && d.whole != []
    ensures Read(Render(d)) == d
  {
    hide Parts;
    PartsOfBody(d);
    var body := Body(d);
    assert body != [] && body[0] == d.whole[0] != '-';
    if d.negative {
      assert Render(d)[1..] == body;
    } else {
      assert Render(d) == body;
    }
  }

  /** The amount a printed decimal stands for. */
  function Amount(d: Decimal, scale: nat): real
    requires Digits(d.whole) && Digits(d.frac) && |d.frac| <= scale
  {
    var u := Units(d, scale) as real;
    Over(if d.negative then -u else u, scale)
  }

  // ---------------------------------------------------------------- the round trip

  lemma OverMagnitude(z: int, scale: nat)
    ensures Upscaled(Magnitude(Over(z as real, scale)), scale) == Magnitude(z as real)
    ensures Over(z as real, scale) < 0.0 <==> z < 0
  {
    var p := Pow10(scale) as real;
    RatioSign(z as real, p);
  }

  lemma RatioSign(a: real, p: real)
    requires p > 0.0
    ensures a / p * p == a && (-(a / p)) * p == -a
    ensures a / p < 0.0 <==> a < 0.0
  {
    var r := a / p;
    assert r * p == a;
    if r >= 0.0 {
      assert r * p >= 0.0;
    } else {
      NegativeTimes(r, p);
    }
  }

  lemma NegativeTimes(r: real, p: real)
    requires r < 0.0 < p
    ensures r * p < 0.0
  {}

  lemma RoundIsExact(n: nat)
    ensures Round(n as real) == n
  {
    assert (n as real + 0.5).Floor == n;
  }

  lemma FixedDigits(x: real, n: nat, scale: nat)
    requires x >= 0.0 && Round(Upscaled(x, scale)) == n
    ensures var fixed := ToFixed(x, scale);
            StripLeadingZeros(fixed.whole + fixed.frac) == Str(n)
  {
    hide Num, StripLeadingZeros, Padded, Str, Upscaled, Round, Digits;
    var padded := Padded(Str(n), scale + 1);
    var fixed := ToFixed(x, scale);
    assert fixed.whole + fixed.frac == padded;
    NumOfStr(n);
    PaddedNum(Str(n), scale + 1);
    StripIsStr(padded);
  }

  /** The writer gives the digits of z for the amount z / 10^scale. */
  lemma WriterIsStr(z: int, scale: nat)
    ensures ToBaseUnits(Over(z as real, scale), scale) == StrInt(z)
  {
    var x, n: nat := Over(z as real, scale), if z < 0 then -z else z;
    OverMagnitude(z, scale);
    hide ToFixed, StripLeadingZeros, Str, Upscaled, Over;
    assert Magnitude(z as real) == n as real;
    RoundIsExact(n);
    FixedDigits(Magnitude(x), n, scale);
    assert "" + Str(n) == Str(n);
  }

  /** The writer keeps the sign and the nearest number of units. It spells minus zero exactly for
      a negative amount of less than half a unit. */
  lemma WriterIsNearest(x: real, scale: nat)
    ensures var units := Upscaled(Magnitude(x), scale);
            && ToBaseUnits(x, scale) == Sign(x < 0.0) + Str(Round(units))
            && -0.5 < Round(units) as real - units <= 0.5
    ensures ToBaseUnits(x, scale) == "-0" <==> x < 0.0 && Upscaled(Magnitude(x), scale) < 0.5
  {
    var n := Round(Upscaled(Magnitude(x), scale));
    FixedDigits(Magnitude(x), n, scale);
    NumOfStr(n);
    hide ToFixed, StripLeadingZeros, Str, Upscaled, Num;
    assert x < 0.0 ==> (Sign(true) + Str(n))[1..] == Str(n);
    assert "-0"[1..] == "0";
    assert x >= 0.0 ==> (Sign(false) + Str(n))[0] != '-';
  }

  lemma PrinterPlaces(negative: bool, digits: string, scale: nat)
    requires Digits(digits) && digits != [] && scale >= 1
    ensures FromBaseUnits(Sign(negative) + digits, scale) == Some(Render(Place(negative, Str(Num(digits)), scale)))
  {
    hide Place, Render, Num, Str, StripLeadingZeros;
    var raw := Sign(negative) + digits;
    StripIsStr(digits);
    if negative {
      assert raw[1..] == digits;
    } else {
      assert raw == digits && IsDigit(raw[0]);
    }
  }

  lemma PrinterPlacesInt(z: int, scale: nat)
    requires scale >= 1
    ensures FromBaseUnits(StrInt(z), scale) == Some(Render(Place(z < 0, Str(if z < 0 then -z else z), scale)))
  {
    hide Place, Render, Num, Str, FromBaseUnits;
    var n: nat := if z < 0 then -z else z;
    PrinterPlaces(z < 0, Str(n), scale);
    NumOfStr(n);
    assert "" + Str(n) == Str(n);
  }

  /** For every integer z and every scale of at least one digit: the printer denotes exactly
      z / 10^scale, canonically and never as minus zero, and the writer gives the digits of z
      back. */
  lemma RoundTrip(z: int, scale: nat)
    requires scale >= 1
    ensures var printed := FromBaseUnits(StrInt(z), scale);
            && printed.Some?
            && var d := Read(printed.value);
            && Canonical(d) && |d.frac| <= scale
            && (d.negative <==> z < 0)
            && Amount(d, scale) == z as real / Pow10(scale) as real
            && ToBaseUnits(Amount(d, scale), scale) == StrInt(z)
  {
    hide Place, Render, Read, Str, FromBaseUnits, StrInt, ToBaseUnits, Units;
    var n: nat := if z < 0 then -z else z;
    var d := Place(z < 0, Str(n), scale);
    PrinterPlacesInt(z, scale);
    PlaceIsExact(z < 0, n, scale);
    ReadRendered(d);
    WriterIsStr(z, scale);
    assert Amount(d, scale) == Over(z as real, scale);
  }

  /** At least one digit, with a minus or without. */
  predicate SpellsInteger(raw: string, negative: bool, digits: string) {
    && raw == (if negative then "-" else "") + digits
    && digits != [] && forall i | 0 <= i < |digits| :: digits[i] in "0123456789"
  }

  /** The printer handles the integer strings and no other. */
  lemma PrintsIntegersOnly(raw: string, scale: nat)
    ensures FromBaseUnits(raw, scale).Some? <==> exists negative, digits :: SpellsInteger(raw, negative, digits)
  {
    hide Place, Render, StripLeadingZeros;
    forall s: string ensures Digits(s) <==> forall i | 0 <= i < |s| :: s[i] in "0123456789" {
      DigitsAre(s);
    }
    if IntegerString(raw) {
      var negative := raw[0] == '-';
      assert SpellsInteger(raw, negative, if negative then raw[1..] else raw);
    }
    forall negative, digits | SpellsInteger(raw, negative, digits) ensures IntegerString(raw) {
      if negative {
        assert raw[1..] == digits;
      } else {
        assert raw == digits && IsDigit(raw[0]);
      }
    }
  }

  lemma DigitsAre(s: string)
    ensures Digits(s) <==> forall i | 0 <= i < |s| :: s[i] in "0123456789"
  {
    forall c: char ensures IsDigit(c) <==> c in "0123456789" {
      if IsDigit(c) {
        assert "0123456789"[c as int - '0' as int] == c;
      }
    }
  }

  /** The value a signed digit string spells. */
  function Spelled(negative: bool, digits: string): int
    requires Digits(digits)
  {
    if negative then -(Num(digits) as int) else Num(digits)
  }

  /** Spellings of one integer that differ in leading zeros, or in the sign of zero, print alike. */
  lemma LeadingZerosPrintAlike(negative: bool, digits: string, scale: nat)
    requires Digits(digits) && digits != [] && scale >= 1
    ensures FromBaseUnits(Sign(negative) + digits, scale) == FromBaseUnits(StrInt(Spelled(negative, digits)), scale)
  {
    hide Render, Num, Str, FromBaseUnits, StrInt, Padded, StripTrailingZeros, SomeNonZero;
    PrinterPlaces(negative, digits, scale);
    PrinterPlacesInt(Spelled(negative, digits), scale);
    NonZeroDigits(Num(digits));
  }

  /** A minus sign on zero survives exactly when there is no scale: the fix-up for "-0" comes
      after the early return. */
  lemma MinusZeroPrintedIffUnscaled(digits: string, scale: nat)
    requires Digits(digits) && digits != [] && Num(digits) == 0
    ensures FromBaseUnits("-" + digits, scale) == Some(if scale == 0 then "-0" else "0")
  {
    hide Num, Str, StripLeadingZeros, Render, Place;
    StripIsStr(digits);
    NumOfStr(0);
    if scale == 0 {
      assert ("-" + digits)[1..] == digits;
      assert StripLeadingZeros(digits) == "0";
      assert "-" + "0" == "-0";
    } else {
      PrinterPlaces(true, digits, scale);
      PlaceOfZero(scale);
    }
  }

  lemma PlaceOfZero(scale: nat)
    ensures Render(Place(true, Str(0), scale)) == "0"
  {
    PlaceIsExact(true, 0, scale);
    hide Place, Str, Num, Scaled, StripTrailingZeros;
    var d := Place(true, Str(0), scale);
    ShortestIsStr(d.whole);
    if d.frac != [] {
      NoTail(d.frac);
    }
  }

  /** Digits that do not end in zero are not zero. */
  lemma NoTail(s: string)
    requires Digits(s) && s != [] && s[|s| - 1] != '0'
    ensures Num(s) > 0
  {
    var init, c := s[..|s| - 1], s[|s| - 1];
    assert s == init + [c];
    NumSnoc(init, c);
  }
}
