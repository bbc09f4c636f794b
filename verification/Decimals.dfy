/**
 Decimal strings of any length: normalising, comparing and scaling them.

 The functions follow the string operations of services/xrpl-swap.service.ts one by
 one. What a string means is given separately, as the real number `ValueOf`.
 */
module Decimals {
  import opened Prelude

  datatype DecimalError = InvalidAmount | DivisionByZero

  // ---------- Digit strings and the numbers they denote ----------

  predicate IsDigit(c: char) { '0' <= c <= '9' }

  predicate AllDigits(s: string) { forall i :: 0 <= i < |s| ==> IsDigit(s[i]) }

  type Digits = s: string | AllDigits(s)

  function DigitValue(c: char): nat
    requires IsDigit(c)
  {
    c as int - '0' as int
  }

  /** Positional value of a digit string; the empty string is zero. */
  function NatOf(s: Digits): nat
  {
    if s == "" then 0 else 10 * NatOf(s[..|s| - 1]) + DigitValue(s[|s| - 1])
  }

  /** `n` with `k` zeros written after it: n * 10^k. */
  function Shift(n: nat, k: nat): nat
  {
    if k == 0 then n else 10 * Shift(n, k - 1)
  }

  function Pow10(k: nat): (p: nat)
    ensures p >= 1
  {
    ShiftPositive(1, k);
    Shift(1, k)
  }

  lemma {:induction false} ShiftAdds(x: nat, y: nat, k: nat)
    ensures Shift(x + y, k) == Shift(x, k) + Shift(y, k)
  {
    if k != 0 {
      ShiftAdds(x, y, k - 1);
    }
  }

  lemma {:induction false} ShiftTwice(n: nat, a: nat, b: nat)
    ensures Shift(Shift(n, a), b) == Shift(n, a + b)
  {
    if b != 0 {
      ShiftTwice(n, a, b - 1);
    }
  }

  lemma {:induction false} ShiftPositive(n: nat, k: nat)
    requires n >= 1
    ensures Shift(n, k) >= 1
  {
    if k != 0 {
      ShiftPositive(n, k - 1);
    }
  }

  /** A larger number is larger by at least one full unit after shifting. */
  lemma ShiftGap(x: nat, y: nat, k: nat)
    requires x > y
    ensures Shift(x, k) >= Shift(y, k) + Pow10(k)
  {
  }

  lemma {:induction false} ShiftMore(a: nat, b: nat)
    requires a <= b
    ensures Pow10(a) <= Pow10(b)
  {
    if a < b {
      ShiftMore(a, b - 1);
    }
  }

  lemma {:induction false} NatOfConcat(a: Digits, b: Digits)
    ensures AllDigits(a + b)
    ensures NatOf(a + b) == Shift(NatOf(a), |b|) + NatOf(b)
  {
    if b == "" {
      assert a + b == a;
    } else {
      var b' := b[..|b| - 1];
      NatOfConcat(a, b');
      assert (a + b)[..|a + b| - 1] == a + b';
      assert (a + b)[|a + b| - 1] == b[|b| - 1];
    }
  }

  lemma {:induction false} NatOfBound(s: Digits)
    ensures NatOf(s) < Pow10(|s|)
  {
    if s != "" {
      NatOfBound(s[..|s| - 1]);
    }
  }

  lemma NatOfSingle(c: char)
    requires IsDigit(c)
    ensures NatOf([c]) == DigitValue(c)
  {
  }

  /** Splitting off the first digit instead of the last. */
  lemma NatOfHead(s: Digits)
    requires s != ""
    ensures NatOf(s) == Shift(DigitValue(s[0]), |s| - 1) + NatOf(s[1..])
  {
    assert s == [s[0]] + s[1..];
    NatOfConcat([s[0]], s[1..]);
    NatOfSingle(s[0]);
  }

  lemma {:induction false} ShiftZero(k: nat)
    ensures Shift(0, k) == 0
  {
    if k != 0 {
      ShiftZero(k - 1);
    }
  }

  lemma {:induction false} NatOfInjective(a: Digits, b: Digits)
    requires |a| == |b| && NatOf(a) == NatOf(b)
    ensures a == b
  {
    if a != "" {
      NatOfInjective(a[..|a| - 1], b[..|b| - 1]);
      assert a == a[..|a| - 1] + [a[|a| - 1]];
      assert b == b[..|b| - 1] + [b[|b| - 1]];
    }
  }

  // ---------- The string operations ----------

  /** JavaScript's `a > b` on strings: the first differing code unit decides. */
  predicate TextGreater(a: string, b: string)
  {
    if a == "" then false
    else if b == "" then true
    else if a[0] != b[0] then a[0] > b[0]
    else TextGreater(a[1..], b[1..])
  }

  /** White space in the sense of JavaScript's `trim`. */
  predicate IsSpace(c: char)
  {
    || c == ' ' || '\U{0009}' <= c <= '\U{000D}' || c == '\U{00A0}' || c == '\U{1680}'
    || '\U{2000}' <= c <= '\U{200A}' || c == '\U{2028}' || c == '\U{2029}'
    || c == '\U{202F}' || c == '\U{205F}' || c == '\U{3000}' || c == '\U{FEFF}'
  }

  function TrimStart(s: string): string
  {
    if s != "" && IsSpace(s[0]) then TrimStart(s[1..]) else s
  }

  function TrimEnd(s: string): string
  {
    if s != "" && IsSpace(s[|s| - 1]) then TrimEnd(s[..|s| - 1]) else s
  }

  function Trim(s: string): string { TrimEnd(TrimStart(s)) }

  function LowerChar(c: char): char
  {
    if 'A' <= c <= 'Z' then (c as int + 32) as char else c
  }

  /** `toLowerCase` on ASCII letters. */
  function Lower(s: string): string { seq(|s|, i requires 0 <= i < |s| => LowerChar(s[i])) }

  ghost predicate Blank(s: string) { forall i :: 0 <= i < |s| ==> IsSpace(s[i]) }

  lemma {:induction false} TrimStartIs(s: string)
    ensures var r := TrimStart(s);
            |r| <= |s| && s[|s| - |r|..] == r && Blank(s[..|s| - |r|]) && (r != "" ==> !IsSpace(r[0]))
  {
    hide IsSpace;
    if s != "" && IsSpace(s[0]) {
      TrimStartIs(s[1..]);
      var r := TrimStart(s);
      assert s[..|s| - |r|] == [s[0]] + s[1..][..|s| - 1 - |r|];
    }
  }

  lemma {:induction false} TrimEndIs(s: string)
    ensures var r := TrimEnd(s);
            r <= s && Blank(s[|r|..]) && (r != "" ==> !IsSpace(r[|r| - 1]))
  {
    hide IsSpace;
    if s != "" && IsSpace(s[|s| - 1]) {
      TrimEndIs(s[..|s| - 1]);
      var r := TrimEnd(s);
      assert s[|r|..] == s[..|s| - 1][|r|..] + [s[|s| - 1]];
    }
  }

  /** Trimming takes the space off both ends, all of it and nothing else. */
  lemma TrimIs(s: string) returns (front: string, back: string)
    ensures s == front + Trim(s) + back && Blank(front) && Blank(back)
    ensures Trim(s) != "" ==> !IsSpace(Trim(s)[0]) && !IsSpace(Trim(s)[|Trim(s)| - 1])
  {
    hide IsSpace, TrimStart, TrimEnd;
    var solid := TrimStart(s);
    TrimStartIs(s);
    TrimEndIs(solid);
    front, back := s[..|s| - |solid|], solid[|Trim(s)|..];
    assert s == front + solid && solid == Trim(s) + back;
    assert front + solid == front + Trim(s) + back;
    assert Trim(s) != "" ==> Trim(s)[0] == solid[0];
  }

  lemma TrimTwice(s: string)
    ensures Trim(Trim(s)) == Trim(s)
  {
    var front, back := TrimIs(s);
    if Trim(s) != "" { TrimKeepsSolidEnds(Trim(s)); }
  }

  /** The same letter in either case, or the same character. */
  ghost predicate SameLetter(x: char, y: char)
  {
    x == y || ('A' <= x <= 'Z' && y as int == x as int + 32) || ('A' <= y <= 'Z' && x as int == y as int + 32)
  }

  /** Equal up to the case of letters. */
  ghost predicate SameLetters(a: string, b: string)
  {
    |a| == |b| && forall i :: 0 <= i < |a| ==> SameLetter(a[i], b[i])
  }

  /** Lower case keeps the letters, leaves no capital, and is the same text for the same letters. */
  lemma LowerIs(s: string, t: string)
    ensures SameLetters(s, Lower(s)) && forall i :: 0 <= i < |s| ==> !('A' <= Lower(s)[i] <= 'Z')
    ensures Lower(s) == Lower(t) <==> SameLetters(s, t)
  {
    if SameLetters(s, t) {
      forall i | 0 <= i < |s| ensures LowerChar(s[i]) == LowerChar(t[i]) { assert SameLetter(s[i], t[i]); }
    }
    if Lower(s) == Lower(t) {
      forall i | 0 <= i < |s| ensures SameLetter(s[i], t[i]) { assert Lower(s)[i] == Lower(t)[i]; }
    }
  }

  /** Position of the first point, or the length when there is none. */
  function PointIndex(s: string): (i: nat)
    ensures i <= |s|
    ensures '.' !in s[..i]
    ensures i < |s| ==> s[i] == '.'
  {
    if s == "" || s[0] == '.' then 0
    else
      var i := 1 + PointIndex(s[1..]);
      assert s[..i] == [s[0]] + s[1..][..i - 1];
      i
  }

  function WholePart(s: string): string { s[..PointIndex(s)] }

  function FractionPart(s: string): string
  {
    if PointIndex(s) == |s| then "" else s[PointIndex(s) + 1..]
  }

  /** The pattern "digits, optionally a point and more digits". */
  predicate IsDecimal(s: string)
  {
    && WholePart(s) != ""
    && AllDigits(WholePart(s))
    && AllDigits(FractionPart(s))
    && (PointIndex(s) < |s| ==> FractionPart(s) != "")
  }

  /** Drops zeros from the front as long as a digit remains. */
  function StripLeadingZeros(s: Digits): (r: Digits)
    ensures |r| <= |s|
    ensures s != "" ==> r != ""
    ensures |r| == 1 || r == "" || r[0] != '0'
    ensures NatOf(r) == NatOf(s)
  {
    if |s| >= 2 && s[0] == '0' then
      NatOfHead(s);
      ShiftZero(|s| - 1);
      StripLeadingZeros(s[1..])
    else s
  }

  function StripTrailingZeros(s: Digits): (r: Digits)
    ensures r == "" || r[|r| - 1] != '0'
    ensures |r| <= |s|
  {
    if s != "" && s[|s| - 1] == '0' then
      StripTrailingZeros(s[..|s| - 1])
    else s
  }

  function Render(whole: string, fraction: string): string
  {
    if fraction == "" then whole else whole + "." + fraction
  }

  /** `normalizePositiveDecimal`. */
  function Normalize(value: string): Result<string, DecimalError>
  {
    var trimmed := Trim(value);
    if !IsDecimal(trimmed) then Err(InvalidAmount)
    else
      Ok(Render(StripLeadingZeros(WholePart(trimmed)), StripTrailingZeros(FractionPart(trimmed))))
  }

  datatype Parts = Parts(normalized: string, whole: string, fraction: string, scale: nat)

  /** `splitDecimal`. */
  function Split(value: string): Result<Parts, DecimalError>
  {
    match Normalize(value)
    case Err(e) => Err(e)
    case Ok(n) => Ok(Parts(n, WholePart(n), FractionPart(n), |FractionPart(n)|))
  }

  function Zeros(n: nat): (z: Digits)
    ensures |z| == n && NatOf(z) == 0
    ensures forall i :: 0 <= i < n ==> z[i] == '0'
  {
    if n == 0 then "" else Zeros(n - 1) + "0"
  }

  function PadEnd(s: string, n: nat): string
  {
    if |s| >= n then s else s + Zeros(n - |s|)
  }

  function PadStart(s: string, n: nat): string
  {
    if |s| >= n then s else Zeros(n - |s|) + s
  }

  /** `compareDecimalStrings`: 1, 0 or -1, or the error of a malformed argument. */
  function Compare(left: string, right: string): Result<int, DecimalError>
  {
    match Split(left)
    case Err(e) => Err(e)
    case Ok(lhs) =>
      match Split(right)
      case Err(e) => Err(e)
      case Ok(rhs) =>
        Ok(CompareSplit(lhs.whole, lhs.fraction, rhs.whole, rhs.fraction, Max(lhs.scale, rhs.scale)))
  }

  /** Two normalised operands: whole parts by length and then as text, fractions padded to the same length. */
  function CompareSplit(w1: string, f1: string, w2: string, f2: string, scale: nat): int
  {
    if |w1| != |w2| then (if |w1| > |w2| then 1 else -1)
    else if w1 != w2 then (if TextGreater(w1, w2) then 1 else -1)
    else if PadEnd(f1, scale) == PadEnd(f2, scale) then 0
    else if TextGreater(PadEnd(f1, scale), PadEnd(f2, scale)) then 1 else -1
  }

  /** A natural number in decimal, as `BigInt.prototype.toString` writes it. */
  function NatToText(n: nat): (s: Digits)
    ensures s != "" && NatOf(s) == n
    ensures |s| == 1 || s[0] != '0'
  {
    var last := [('0' as int + n % 10) as char];
    NatOfSingle(last[0]);
    if n < 10 then last
    else
      var front := NatToText(n / 10);
      NatOfConcat(front, last);
      assert Shift(n / 10, 1) == 10 * Shift(n / 10, 0);
      assert |front| == 1 ==> front == [front[0]];
      assert front == "0" ==> NatOf(front) == 0 by { NatOfSingle('0'); }
      front + last
  }

  /** `multiplyDecimalFloor`: the value times numerator/denominator, cut at the value's own scale. */
  function MultiplyFloor(value: string, numerator: nat, denominator: nat): Result<string, DecimalError>
  {
    match Split(value)
    case Err(e) => Err(e)
    case Ok(parsed) =>
      if denominator == 0 then Err(DivisionByZero)
      else
        SplitShape(value);
        Ok(UnitsText(MulDiv(NatOf(parsed.whole + parsed.fraction), numerator, denominator), parsed.scale))
  }

  /** BigInt arithmetic on non-negative numbers: the quotient is cut towards zero. */
  function MulDiv(a: nat, numerator: nat, denominator: nat): nat
    requires denominator > 0
  {
    var product: nat := a * numerator;
    product / denominator
  }

  /** Writes `n` units of size 10^-scale: pad on the left, cut before the last `scale` digits, drop trailing zeros. */
  function UnitsText(n: nat, scale: nat): string
  {
    var text := PadStart(NatToText(n), scale + 1);
    if scale == 0 then text
    else
      var whole := text[..|text| - scale];
      PadStartDigits(NatToText(n), scale + 1);
      Render(if whole == "" then "0" else whole, StripTrailingZeros(text[|text| - scale..]))
  }

  lemma PadStartDigits(s: Digits, n: nat)
    ensures AllDigits(PadStart(s, n)) && |PadStart(s, n)| >= n
    ensures NatOf(PadStart(s, n)) == NatOf(s)
    ensures |s| < n ==> PadStart(s, n)[0] == '0' && PadStart(s, n)[n - |s|..] == s
    ensures |s| >= n ==> PadStart(s, n) == s
  {
    if |s| < n {
      NatOfConcat(Zeros(n - |s|), s);
      ShiftZero(|s|);
    }
  }

  // ---------- What a decimal string means ----------

  /** `n` units of size 10^-scale. */
  ghost function Units(n: nat, scale: nat): real
  {
    n as real / Pow10(scale) as real
  }

  /** All the digits read as one number, in units of the last fraction digit. */
  ghost function ValueOfParts(whole: Digits, fraction: Digits): real
  {
    Units(NatOf(whole + fraction), |fraction|)
  }

  /** The number a decimal string denotes. */
  ghost function ValueOf(s: string): real
    requires IsDecimal(s)
  {
    ValueOfParts(WholePart(s), FractionPart(s))
  }

  ghost predicate CanonicalParts(whole: Digits, fraction: Digits)
  {
    && whole != ""
    && (|whole| == 1 || whole[0] != '0')
    && (fraction != "" ==> fraction[|fraction| - 1] != '0')
  }

  /** No needless zero at either end. */
  ghost predicate Canonical(s: string)
  {
    IsDecimal(s) && CanonicalParts(WholePart(s), FractionPart(s))
  }

  lemma {:induction false} PointIndexIs(s: string, i: nat)
    requires i <= |s| && '.' !in s[..i] && (i < |s| ==> s[i] == '.')
    ensures PointIndex(s) == i
  {
  }

  lemma PartsOfRender(whole: Digits, fraction: Digits)
    requires whole != ""
    ensures IsDecimal(Render(whole, fraction))
    ensures WholePart(Render(whole, fraction)) == whole
    ensures FractionPart(Render(whole, fraction)) == fraction
  {
    var s := Render(whole, fraction);
    assert forall k :: 0 <= k < |whole| ==> s[k] == whole[k] && s[k] != '.';
    PointIndexIs(s, |whole|);
  }

  /** A decimal string is the rendering of its own two parts. */
  lemma RenderOfParts(s: string)
    requires IsDecimal(s)
    ensures s == Render(WholePart(s), FractionPart(s))
  {
  }

  /** Digits, and perhaps a point and more digits. */
  ghost predicate WrittenAs(s: string, whole: string, fraction: string)
  {
    && whole != "" && (forall i :: 0 <= i < |whole| ==> '0' <= whole[i] <= '9')
    && (forall i :: 0 <= i < |fraction| ==> '0' <= fraction[i] <= '9')
    && s == if fraction == "" then whole else whole + "." + fraction
  }

  /** What counts as a decimal string, and that it is cut at its point. */
  lemma DecimalIff(s: string)
    ensures IsDecimal(s) <==> exists whole, fraction :: WrittenAs(s, whole, fraction)
    ensures forall whole, fraction :: WrittenAs(s, whole, fraction) ==>
              WholePart(s) == whole && FractionPart(s) == fraction
  {
    forall whole, fraction | WrittenAs(s, whole, fraction)
      ensures IsDecimal(s) && WholePart(s) == whole && FractionPart(s) == fraction
    {
      PartsOfRender(whole, fraction);
    }
    if IsDecimal(s) {
      RenderOfParts(s);
      assert WrittenAs(s, WholePart(s), FractionPart(s));
    }
  }

  lemma SplitShape(value: string)
    ensures Split(value).Ok? <==> IsDecimal(Trim(value))
    ensures Split(value).Ok? ==>
              var p := Split(value).value;
              && AllDigits(p.whole) && AllDigits(p.fraction) && p.scale == |p.fraction|
              && Normalize(value) == Ok(p.normalized) && p.normalized == Render(p.whole, p.fraction)
              && p.whole == StripLeadingZeros(WholePart(Trim(value)))
              && p.fraction == StripTrailingZeros(FractionPart(Trim(value)))
              && AllDigits(p.whole + p.fraction)
              && CanonicalParts(p.whole, p.fraction) && Canonical(p.normalized)
  {
    var t := Trim(value);
    if IsDecimal(t) {
      PartsOfRender(StripLeadingZeros(WholePart(t)), StripTrailingZeros(FractionPart(t)));
    }
  }

  // ---------- Arithmetic of units ----------

  lemma DivisionCancels(x: real, p: real)
    requires p != 0.0
    ensures x / p * p == x
  {
  }

  lemma ProductCasts(a: nat, b: nat)
    ensures (a * b) as real == a as real * b as real
  {
  }

  lemma ScalingKeepsOrder(x: real, y: real, p: real)
    requires p > 0.0
    ensures x * p < y * p <==> x < y
    ensures x * p == y * p <==> x == y
  {
  }

  lemma UnitsOrder(a: nat, b: nat, scale: nat)
    ensures Units(a, scale) < Units(b, scale) <==> a < b
    ensures Units(a, scale) == Units(b, scale) <==> a == b
  {
  }

  lemma TenTimes(x: real, p: real)
    requires p > 0.0
    ensures x / p == (10.0 * x) / (10.0 * p)
  {
  }

  lemma UnitsTenTimes(n: nat, scale: nat)
    ensures Units(n, scale) == Units(10 * n, scale + 1)
  {
    TenTimes(n as real, Pow10(scale) as real);
    assert Pow10(scale + 1) == 10 * Pow10(scale);
    assert (10 * n) as real == 10.0 * n as real;
    assert (10 * Pow10(scale)) as real == 10.0 * Pow10(scale) as real;
  }

  /** A finer unit, more of them. */
  lemma {:induction false} UnitsRescale(n: nat, scale: nat, k: nat)
    ensures Units(n, scale) == Units(Shift(n, k), scale + k)
  {
    if k != 0 {
      UnitsRescale(n, scale, k - 1);
      UnitsTenTimes(Shift(n, k - 1), scale + k - 1);
    }
  }

  /** Padding the fraction with zeros does not change the value. */
  lemma ValueAtScale(whole: Digits, fraction: Digits, scale: nat)
    requires |fraction| <= scale
    ensures AllDigits(PadEnd(fraction, scale)) && |PadEnd(fraction, scale)| == scale
    ensures AllDigits(whole + PadEnd(fraction, scale))
    ensures ValueOfParts(whole, fraction) == Units(NatOf(whole + PadEnd(fraction, scale)), scale)
  {
    hide NatOf, Units, Shift;
    var k := scale - |fraction|;
    assert whole + PadEnd(fraction, scale) == (whole + fraction) + Zeros(k);
    ZerosShift(whole + fraction, k);
    UnitsRescale(NatOf(whole + fraction), |fraction|, k);
  }

  lemma ZerosShift(digits: Digits, k: nat)
    ensures AllDigits(digits + Zeros(k))
    ensures NatOf(digits + Zeros(k)) == Shift(NatOf(digits), k)
  {
    NatOfConcat(digits, Zeros(k));
  }

  // ---------- Normalising ----------

  lemma SameConcat(w: Digits, whole: Digits, fraction: Digits)
    requires NatOf(w) == NatOf(whole)
    ensures NatOf(w + fraction) == NatOf(whole + fraction)
  {
    NatOfConcat(w, fraction);
    NatOfConcat(whole, fraction);
  }

  lemma StrippedValue(whole: Digits, fraction: Digits)
    requires whole != ""
    ensures ValueOfParts(StripLeadingZeros(whole), StripTrailingZeros(fraction)) == ValueOfParts(whole, fraction)
  {
    var w, f := StripLeadingZeros(whole), StripTrailingZeros(fraction);
    ValueAtScale(w, f, |fraction|);
    PaddedBack(fraction);
    SameConcat(w, whole, fraction);
    hide NatOf, Units, Shift, PadEnd, StripLeadingZeros, StripTrailingZeros;
  }

  lemma {:induction false} StrippedTail(s: Digits)
    ensures var r := StripTrailingZeros(s);
            r == s[..|r|] && forall i :: |r| <= i < |s| ==> s[i] == '0'
  {
    hide NatOf;
    if s != "" && s[|s| - 1] == '0' {
      var front := s[..|s| - 1];
      StrippedTail(front);
      assert forall i :: 0 <= i < |front| ==> front[i] == s[i];
    }
  }

  lemma PaddedBack(fraction: Digits)
    ensures PadEnd(StripTrailingZeros(fraction), |fraction|) == fraction
  {
    hide NatOf, StripTrailingZeros, Zeros;
    StrippedTail(fraction);
  }

  /** Normalising keeps the value and gives the canonical form; it fails on exactly the malformed strings. */
  lemma NormalizeKeepsValue(value: string)
    ensures Normalize(value).Ok? <==> IsDecimal(Trim(value))
    ensures Normalize(value).Ok? ==>
              && Canonical(Normalize(value).value)
              && ValueOf(Normalize(value).value) == ValueOf(Trim(value))
  {
    SplitShape(value);
    if IsDecimal(Trim(value)) {
      StrippedValue(WholePart(Trim(value)), FractionPart(Trim(value)));
      PartsOfRender(Split(value).value.whole, Split(value).value.fraction);
    }
  }

  lemma TrimKeepsSolidEnds(s: string)
    requires s != "" && !IsSpace(s[0]) && !IsSpace(s[|s| - 1])
    ensures Trim(s) == s
  {
  }

  lemma CanonicalIsNormal(s: string)
    requires Canonical(s)
    ensures Normalize(s) == Ok(s)
  {
    hide NatOf, TrimStart, TrimEnd;
    RenderOfParts(s);
    TrimmedCanonical(s);
    NothingToStrip(WholePart(s), FractionPart(s));
  }

  lemma TrimmedCanonical(s: string)
    requires Canonical(s)
    ensures Trim(s) == s
  {
  }

  lemma NothingToStrip(whole: Digits, fraction: Digits)
    requires CanonicalParts(whole, fraction)
    ensures StripLeadingZeros(whole) == whole && StripTrailingZeros(fraction) == fraction
  {
  }

  /** Normalising twice changes nothing, and a canonical string is its own normal form. */
  lemma NormalizeIdempotent(value: string)
    ensures Normalize(value).Ok? ==> Normalize(Normalize(value).value) == Normalize(value)
    ensures Canonical(value) ==> Normalize(value) == Ok(value)
  {
    NormalizeKeepsValue(value);
    if Canonical(value) {
      CanonicalIsNormal(value);
    }
    if Normalize(value).Ok? {
      CanonicalIsNormal(Normalize(value).value);
    }
  }

  // ---------- Comparing ----------

  lemma {:induction false} TextOrderIsNumeric(a: Digits, b: Digits)
    requires |a| == |b|
    ensures TextGreater(a, b) <==> NatOf(a) > NatOf(b)
    decreases |a|
  {
    if a != "" {
      NatOfHead(a);
      NatOfHead(b);
      NatOfBound(a[1..]);
      NatOfBound(b[1..]);
      var da, db := DigitValue(a[0]), DigitValue(b[0]);
      if a[0] == b[0] {
        TextOrderIsNumeric(a[1..], b[1..]);
      } else if da > db {
        ShiftGap(da, db, |a| - 1);
      } else {
        ShiftGap(db, da, |a| - 1);
      }
    }
  }

  lemma {:induction false} TextOrderOfConcat(a: string, b: string, c: string, d: string)
    requires |a| == |b|
    ensures TextGreater(a + c, b + d) <==> if a == b then TextGreater(c, d) else TextGreater(a, b)
    decreases |a|
  {
    if a == "" {
      assert a + c == c && b + d == d;
    } else {
      assert (a + c)[1..] == a[1..] + c && (b + d)[1..] == b[1..] + d;
      assert a == [a[0]] + a[1..] && b == [b[0]] + b[1..];
      if a[0] == b[0] {
        TextOrderOfConcat(a[1..], b[1..], c, d);
      }
    }
  }

  lemma LongerIsGreater(a: Digits, b: Digits)
    requires |a| > |b| >= 1 && a[0] != '0'
    ensures NatOf(a) > NatOf(b)
  {
  }

  ghost function Sign(x: real): int
  {
    if x > 0.0 then 1 else if x < 0.0 then -1 else 0
  }

  lemma CompareParts(w1: Digits, f1: Digits, w2: Digits, f2: Digits, scale: nat)
    requires CanonicalParts(w1, f1) && CanonicalParts(w2, f2) && |f1| <= scale && |f2| <= scale
    ensures CompareSplit(w1, f1, w2, f2, scale) == Sign(ValueOfParts(w1, f1) - ValueOfParts(w2, f2))
  {
    ValueAtScale(w1, f1, scale);
    ValueAtScale(w2, f2, scale);
    var p1, p2 := PadEnd(f1, scale), PadEnd(f2, scale);
    var a: Digits, b: Digits := w1 + p1, w2 + p2;
    UnitsOrder(NatOf(a), NatOf(b), scale);
    UnitsOrder(NatOf(b), NatOf(a), scale);
    if |w1| > |w2| {
      LongerIsGreater(a, b);
    } else if |w1| < |w2| {
      LongerIsGreater(b, a);
    } else {
      TextOrderIsNumeric(a, b);
      TextOrderOfConcat(w1, w2, p1, p2);
      assert a == b <==> w1 == w2 && p1 == p2 by {
        assert a[..|w1|] == w1 && b[..|w1|] == w2 && a[|w1|..] == p1 && b[|w1|..] == p2;
      }
      if NatOf(a) == NatOf(b) {
        NatOfInjective(a, b);
      }
    }
  }

  /** Comparison is exact: the sign of the difference of the two numbers, for strings of any length. */
  lemma CompareIsExact(left: string, right: string)
    ensures Compare(left, right).Ok? <==> IsDecimal(Trim(left)) && IsDecimal(Trim(right))
    ensures Compare(left, right).Ok? ==>
              Compare(left, right).value == Sign(ValueOf(Trim(left)) - ValueOf(Trim(right)))
  {
    SplitShape(left);
    SplitShape(right);
    if IsDecimal(Trim(left)) && IsDecimal(Trim(right)) {
      NormalizeKeepsValue(left);
      NormalizeKeepsValue(right);
      var l, r := Split(left).value, Split(right).value;
      PartsOfRender(l.whole, l.fraction);
      PartsOfRender(r.whole, r.fraction);
      CompareParts(l.whole, l.fraction, r.whole, r.fraction, Max(l.scale, r.scale));
    }
  }

  lemma PaddedTail(f: Digits, scale: nat)
    requires |f| <= scale
    ensures PadEnd(f, scale)[..|f|] == f
    ensures |f| < scale ==> PadEnd(f, scale)[scale - 1] == '0'
  {
  }

  lemma CanonicalPartsUnique(w1: Digits, f1: Digits, w2: Digits, f2: Digits)
    requires CanonicalParts(w1, f1) && CanonicalParts(w2, f2)
    requires ValueOfParts(w1, f1) == ValueOfParts(w2, f2)
    ensures w1 == w2 && f1 == f2
  {
    var scale := Max(|f1|, |f2|);
    CompareParts(w1, f1, w2, f2, scale);
    PaddedTail(f1, scale);
    PaddedTail(f2, scale);
  }

  /** Two canonical strings of the same value are the same string. */
  lemma CanonicalUnique(a: string, b: string)
    requires Canonical(a) && Canonical(b) && ValueOf(a) == ValueOf(b)
    ensures a == b
  {
    CanonicalPartsUnique(WholePart(a), FractionPart(a), WholePart(b), FractionPart(b));
    RenderOfParts(a);
    RenderOfParts(b);
  }

  /** Equal numbers, and only those, have the same normal form. */
  lemma NormalFormUnique(a: string, b: string)
    requires IsDecimal(Trim(a)) && IsDecimal(Trim(b))
    ensures ValueOf(Trim(a)) == ValueOf(Trim(b)) <==> Normalize(a) == Normalize(b)
  {
    NormalizeKeepsValue(a);
    NormalizeKeepsValue(b);
    if ValueOf(Trim(a)) == ValueOf(Trim(b)) {
      CanonicalUnique(Normalize(a).value, Normalize(b).value);
    }
  }

  // ---------- Scaling with floor ----------

  lemma EmptyFraction(whole: string)
    ensures StripTrailingZeros("") == "" && Render(whole, StripTrailingZeros("")) == whole
  {
  }

  lemma UnitsTextParts(n: nat, scale: nat) returns (whole: Digits, fraction: Digits)
    ensures whole != "" && (|whole| == 1 || whole[0] != '0') && |fraction| == scale
    ensures NatOf(whole + fraction) == n
    ensures UnitsText(n, scale) == Render(whole, StripTrailingZeros(fraction))
  {
    hide NatOf, Pow10;
    PadStartDigits(NatToText(n), scale + 1);
    var text := PadStart(NatToText(n), scale + 1);
    assert forall i :: 0 <= i < |text| ==> IsDigit(text[i]);
    assert scale == 0 ==> Render(text, StripTrailingZeros("")) == text by { EmptyFraction(text); }
    whole, fraction := text[..|text| - scale], text[|text| - scale..];
    assert text == whole + fraction;
  }

  /** `UnitsText` writes exactly n / 10^scale, in canonical form. */
  lemma UnitsTextValue(n: nat, scale: nat)
    ensures Canonical(UnitsText(n, scale))
    ensures ValueOf(UnitsText(n, scale)) == Units(n, scale)
  {
    var whole, fraction := UnitsTextParts(n, scale);
    StrippedValue(whole, fraction);
    assert StripLeadingZeros(whole) == whole;
    var f := StripTrailingZeros(fraction);
    PartsOfRender(whole, f);
    assert CanonicalParts(whole, f);
    hide NatOf, Pow10, PointIndex, StripTrailingZeros, StripLeadingZeros, UnitsText, Units;
  }

  /** Number of fraction digits of the normal form. */
  ghost function ScaleOf(value: string): nat
    requires IsDecimal(Trim(value))
  {
    SplitShape(value);
    Split(value).value.scale
  }

  /** The value counted in units of 10^-scale, which is a whole number of them. */
  ghost function UnitsIn(value: string): nat
    requires IsDecimal(Trim(value))
  {
    SplitShape(value);
    var p := Split(value).value;
    NatOf(p.whole + p.fraction)
  }

  lemma MultiplyInUnits(value: string, numerator: nat, denominator: nat)
    requires IsDecimal(Trim(value)) && denominator > 0
    ensures ValueOf(Trim(value)) == Units(UnitsIn(value), ScaleOf(value))
    ensures var r := MultiplyFloor(value, numerator, denominator);
            && r.Ok? && Canonical(r.value)
            && ValueOf(r.value) == Units(MulDiv(UnitsIn(value), numerator, denominator), ScaleOf(value))
  {
    SplitShape(value);
    NormalizeKeepsValue(value);
    var p := Split(value).value;
    PartsOfRender(p.whole, p.fraction);
    UnitsTextValue(MulDiv(UnitsIn(value), numerator, denominator), p.scale);
  }

  lemma FloorIs(x: real, q: int)
    requires q as real <= x < q as real + 1.0
    ensures x.Floor == q
  {
  }

  lemma QuotientBetween(a: nat, d: nat, q: nat)
    requires d > 0 && q * d <= a < q * d + d
    ensures q as real <= a as real / d as real < q as real + 1.0
  {
    var x, y, p := a as real / d as real, q as real, d as real;
    DivisionCancels(a as real, p);
    ProductCasts(q, d);
    ProductCasts(q + 1, d);
    assert (q + 1) * d == q * d + d;
    assert (q + 1) as real == y + 1.0;
    ScalingKeepsOrder(x, y, p);
    ScalingKeepsOrder(y, x, p);
    ScalingKeepsOrder(x, y + 1.0, p);
  }

  lemma FloorOfQuotient(a: nat, d: nat)
    requires d > 0
    ensures (a as real / d as real).Floor == a / d
  {
    QuotientBounds(a, d);
    QuotientBetween(a, d, a / d);
    FloorIs(a as real / d as real, a / d);
  }

  /** v * num / den, rounded down to a multiple of 1/perUnit. */
  ghost function RoundedDown(v: real, perUnit: nat, numerator: nat, denominator: nat): real
    requires perUnit > 0 && denominator > 0
  {
    FloorTo(v, perUnit as real, numerator as real, denominator as real)
  }

  ghost function FloorTo(v: real, unit: real, num: real, den: real): real
    requires unit > 0.0 && den > 0.0
  {
    (v * unit * num / den).Floor as real / unit
  }

  lemma FloorInUnits(v: real, a: nat, scale: nat, numerator: nat, denominator: nat)
    requires denominator > 0 && v == Units(a, scale)
    ensures RoundedDown(v, Pow10(scale), numerator, denominator) == Units(MulDiv(a, numerator, denominator), scale)
  {
    hide FloorTo, MulDiv, Shift;
    FloorOfProduct(v, a, Pow10(scale) as real, numerator, denominator);
  }

  lemma FloorOfProduct(v: real, a: nat, unit: real, numerator: nat, denominator: nat)
    requires denominator > 0 && unit > 0.0 && v == a as real / unit
    ensures FloorTo(v, unit, numerator as real, denominator as real)
         == MulDiv(a, numerator, denominator) as real / unit
  {
    var product: nat := a * numerator;
    ProductCasts(a, numerator);
    UnitsCancel(v, a as real, unit, numerator as real);
    FloorOfQuotient(product, denominator);
    FloorToOfProduct(v, unit, numerator as real, denominator, product);
  }

  lemma UnitsCancel(v: real, a: real, unit: real, num: real)
    requires unit > 0.0 && v == a / unit
    ensures v * unit * num == a * num
  {
  }

  lemma FloorToOfProduct(v: real, unit: real, num: real, denominator: nat, product: nat)
    requires denominator > 0 && unit > 0.0 && v * unit * num == product as real
    requires (product as real / denominator as real).Floor == product / denominator
    ensures FloorTo(v, unit, num, denominator as real) == (product / denominator) as real / unit
  {
  }

  /** `MultiplyFloor` is the exact product rounded down at the value's own scale, in canonical form. */
  lemma MultiplyFloorIsExact(value: string, numerator: nat, denominator: nat)
    ensures MultiplyFloor(value, numerator, denominator).Ok? <==> IsDecimal(Trim(value)) && denominator > 0
    ensures MultiplyFloor(value, numerator, denominator).Ok? ==>
              var r := MultiplyFloor(value, numerator, denominator).value;
              && Canonical(r)
              && ValueOf(r) == RoundedDown(ValueOf(Trim(value)), Pow10(ScaleOf(value)), numerator, denominator)
  {
    SplitShape(value);
    if IsDecimal(Trim(value)) && denominator > 0 {
      hide *;
      MultiplyInUnits(value, numerator, denominator);
      FloorInUnits(ValueOf(Trim(value)), UnitsIn(value), ScaleOf(value), numerator, denominator);
    }
  }

  lemma ScaledQuotient(v: real, unit: real, num: real, den: real)
    requires den > 0.0
    ensures v * unit * num / den == (v * num / den) * unit
  {
  }

  lemma QuotientBelow(v: real, num: real, den: real)
    requires v >= 0.0 && den > 0.0
    ensures num <= den ==> v * num / den <= v
  {
    if num <= den {
      DivisionCancels(v * num, den);
      assert v * (den - num) >= 0.0;
      ScalingKeepsOrder(v, v * num / den, den);
    }
  }

  /** `r` is not above v * num / den and less than one unit below it. */
  ghost predicate WithinOneUnit(r: real, v: real, unit: real, num: real, den: real)
    requires unit > 0.0 && den > 0.0
  {
    r <= v * num / den < r + 1.0 / unit
  }

  lemma FloorBounds(v: real, perUnit: nat, numerator: nat, denominator: nat)
    requires v >= 0.0 && perUnit > 0 && denominator > 0
    ensures WithinOneUnit(RoundedDown(v, perUnit, numerator, denominator), v,
                          perUnit as real, numerator as real, denominator as real)
    ensures numerator <= denominator ==> RoundedDown(v, perUnit, numerator, denominator) <= v
  {
    hide FloorTo, WithinOneUnit;
    FloorToBounds(v, perUnit as real, numerator as real, denominator as real);
  }

  lemma FloorToBounds(v: real, unit: real, num: real, den: real)
    requires v >= 0.0 && unit > 0.0 && den > 0.0
    ensures WithinOneUnit(FloorTo(v, unit, num, den), v, unit, num, den)
    ensures num <= den ==> FloorTo(v, unit, num, den) <= v
  {
    ScaledQuotient(v, unit, num, den);
    QuotientBelow(v, num, den);
    BetweenUnits(v * num / den, unit, (v * num / den * unit).Floor as real);
  }

  lemma BetweenUnits(exact: real, unit: real, n: real)
    requires unit > 0.0 && n <= exact * unit < n + 1.0
    ensures n / unit <= exact < n / unit + 1.0 / unit
  {
  }

  lemma UnitsNonNegative(n: nat, scale: nat)
    ensures Units(n, scale) >= 0.0
  {
  }

  /**
   The result lies less than one unit of the last digit below the exact product; with a factor of at most one
   it does not exceed the value; with factor one it is the value itself, written in normal form.
   */
  lemma MultiplyFloorBounds(value: string, numerator: nat, denominator: nat)
    requires IsDecimal(Trim(value)) && denominator > 0
    ensures var r := MultiplyFloor(value, numerator, denominator);
            && r.Ok? && IsDecimal(r.value)
            && WithinOneUnit(ValueOf(r.value), ValueOf(Trim(value)),
                             Pow10(ScaleOf(value)) as real, numerator as real, denominator as real)
            && (numerator <= denominator ==> ValueOf(r.value) <= ValueOf(Trim(value)))
            && (numerator == denominator ==> r == Normalize(value))
  {
    MultiplyFloorIsExact(value, numerator, denominator);
    MultiplyInUnits(value, numerator, denominator);
    UnitsNonNegative(UnitsIn(value), ScaleOf(value));
    if numerator == denominator {
      ExactAtOne(value, denominator);
    }
    var r := MultiplyFloor(value, numerator, denominator).value;
    assert IsDecimal(r);
    hide *;
    FloorBounds(ValueOf(Trim(value)), Pow10(ScaleOf(value)), numerator, denominator);
  }

  lemma MulDivSame(a: nat, d: nat)
    requires d > 0
    ensures MulDiv(a, d, d) == a
  {
    var n := a * d;
    QuotientBounds(n, d);
    var r := MulDiv(a, d, d);
    assert r == n / d;
    QuotientUnique(n, d, r, a);
  }

  lemma ExactAtOne(value: string, d: nat)
    requires IsDecimal(Trim(value)) && d > 0
    ensures MultiplyFloor(value, d, d) == Normalize(value)
  {
    MultiplyInUnits(value, d, d);
    MulDivSame(UnitsIn(value), d);
    NormalizeKeepsValue(value);
    hide *;
    CanonicalUnique(MultiplyFloor(value, d, d).value, Normalize(value).value);
  }
}
