/** Decimal rendering and parsing of numbers, and the decimal rounding that
    Python's `round` and pandas' `.round` perform (half to even), stated on
    exact reals. */
module Numbers {
  import opened Cells

  function Pow10(n: nat): (r: nat)
    ensures r >= 1
  {
    if n == 0 then 1 else 10 * Pow10(n - 1)
  }

  /** The integer number of `10^-places` units that `x` rounds to: the nearest
      integer to `x * 10^places`, ties going to the even neighbour. */
  function RoundedUnits(x: real, places: nat): (k: int)
    ensures -0.5 <= k as real - x * Pow10(places) as real <= 0.5
  {
    var y := x * Pow10(places) as real;
    var n := y.Floor;
    var f := y - n as real;
    if f > 0.5 then n + 1
    else if f < 0.5 then n
    else if n % 2 == 0 then n else n + 1
  }

  /** `round(x, places)`: `x` rounded to `places` decimal places. */
  function Round(x: real, places: nat): (r: real)
    ensures r * Pow10(places) as real == RoundedUnits(x, places) as real
  {
    RoundedUnits(x, places) as real / Pow10(places) as real
  }

  /** Rounding moves a value by at most half a unit of the last place. */
  lemma RoundError(x: real, places: nat)
    ensures -0.5 <= (Round(x, places) - x) * Pow10(places) as real <= 0.5
  {
    var s := Pow10(places) as real;
    assert (Round(x, places) - x) * s == Round(x, places) * s - x * s;
  }

  /** A value that already has at most `places` decimals is left unchanged. */
  lemma RoundExact(m: int, places: nat)
    ensures Round(m as real / Pow10(places) as real, places) == m as real / Pow10(places) as real
  {
    var s := Pow10(places) as real;
    var x := m as real / s;
    assert x * s == m as real;
    assert (x * s).Floor == m;
    assert RoundedUnits(x, places) == m;
  }

  lemma RoundInteger(m: int, places: nat)
    ensures Round(m as real, places) == m as real
  {
    var s := Pow10(places);
    var t := s as real;
    RoundExact(m * s, places);
    assert (m * s) as real == m as real * t;
    assert (m as real * t) / t == m as real;
  }

  function DigitChar(d: nat): char
    requires d < 10
  {
    (48 + d) as char
  }

  predicate IsDigit(c: char) {
    '0' <= c <= '9'
  }

  function DigitValue(c: char): nat
    requires IsDigit(c)
  {
    (c as int - 48) as nat
  }

  /** `str(n)` for a natural number: its decimal digits without leading zeros. */
  function NatToString(n: nat): (s: string)
    ensures |s| >= 1
    ensures forall i :: 0 <= i < |s| ==> IsDigit(s[i])
    decreases n
  {
    if n < 10 then [DigitChar(n)] else NatToString(n / 10) + [DigitChar(n % 10)]
  }

  /** `str(n)` for any integer. */
  function IntToString(n: int): (s: string)
    ensures |s| >= 1
  {
    if n < 0 then "-" + NatToString(-n) else NatToString(n)
  }

  /** The value of a string of decimal digits. */
  function ParseNat(s: string): nat
    requires forall i :: 0 <= i < |s| ==> IsDigit(s[i])
  {
    if s == [] then 0 else 10 * ParseNat(s[..|s| - 1]) + DigitValue(s[|s| - 1])
  }

  lemma {:induction false} ParseNatToString(n: nat)
    ensures ParseNat(NatToString(n)) == n
    decreases n
  {
    if n >= 10 {
      ParseNatToString(n / 10);
      var s := NatToString(n);
      assert s[..|s| - 1] == NatToString(n / 10);
    }
  }

  /** Format spec `{n:0Wd}`: the decimal form of `n` padded with zeros,
      after the sign, to `width` characters; a longer form is kept whole. */
  function ZeroPad(n: int, width: nat): (s: string)
    ensures |s| >= width
  {
    var digits := IntToString(n);
    if |digits| >= width then digits
    else if n >= 0 then seq(width - |digits|, _ => '0') + digits
    else "-" + seq(width - |digits|, _ => '0') + NatToString(-n)
  }

  lemma NatToStringLength(n: nat, w: nat)
    requires n < Pow10(w) && w >= 1
    ensures |NatToString(n)| <= w
    decreases n
  {
    if n >= 10 {
      NatToStringLength(n / 10, w - 1);
    }
  }

  /** A non-negative number below `10^width` pads to exactly `width` digits
      that read back as the number. */
  lemma ZeroPadDigits(n: nat, width: nat)
    requires 1 <= width && n < Pow10(width)
    ensures |ZeroPad(n, width)| == width
    ensures forall i :: 0 <= i < width ==> IsDigit(ZeroPad(n, width)[i])
    ensures ParseNat(ZeroPad(n, width)) == n
  {
    NatToStringLength(n, width);
    var digits := NatToString(n);
    var zeros := seq(width - |digits|, _ => '0');
    ParseNatToString(n);
    ParseNatLeadingZeros(zeros, digits);
  }

  lemma {:induction false} ParseNatLeadingZeros(zeros: string, digits: string)
    requires forall i :: 0 <= i < |zeros| ==> zeros[i] == '0'
    requires forall i :: 0 <= i < |digits| ==> IsDigit(digits[i])
    ensures forall i :: 0 <= i < |zeros + digits| ==> IsDigit((zeros + digits)[i])
    ensures ParseNat(zeros + digits) == ParseNat(digits)
    decreases |digits|
  {
    var s := zeros + digits;
    if digits == [] {
      assert s == zeros;
      ParseNatZeros(zeros);
    } else {
      var init := digits[..|digits| - 1];
      assert s[..|s| - 1] == zeros + init;
      ParseNatLeadingZeros(zeros, init);
    }
  }

  lemma {:induction false} ParseNatZeros(zeros: string)
    requires forall i :: 0 <= i < |zeros| ==> zeros[i] == '0'
    ensures ParseNat(zeros) == 0
  {
    if zeros != [] {
      ParseNatZeros(zeros[..|zeros| - 1]);
    }
  }

  /** The index of the first occurrence of `c` in `s`, if any. */
  function IndexOf(s: string, c: char): (r: Option<nat>)
    ensures r.Some? ==> r.value < |s| && s[r.value] == c && c !in s[..r.value]
    ensures r.None? ==> c !in s
  {
    if s == [] then None
    else if s[0] == c then Some(0)
    else
      match IndexOf(s[1..], c)
      case None => None
      case Some(i) => assert s[..i + 1] == [s[0]] + s[1..][..i]; Some(i + 1)
  }

  predicate AllDigits(s: string) {
    forall i :: 0 <= i < |s| ==> IsDigit(s[i])
  }

  /** `float(s)` as `pandas.to_numeric` applies it to a text cell: an
      optional sign, digits, and an optional decimal point with more digits,
      with at least one digit in all. */
  function ParseDecimal(s: string): (r: Option<real>)
    ensures r.Some? ==> exists i :: 0 <= i < |s| && IsDigit(s[i])
  {
    var negative := |s| > 0 && s[0] == '-';
    var body := if |s| > 0 && (s[0] == '-' || s[0] == '+') then s[1..] else s;
    var (whole, fraction) :=
      match IndexOf(body, '.')
      case None => (body, "")
      case Some(d) => (body[..d], body[d + 1..]);
    if AllDigits(whole) && AllDigits(fraction) && |whole| + |fraction| > 0 then
      assert forall i :: 0 <= i < |whole| ==> whole[i] in s;
      assert forall i :: 0 <= i < |fraction| ==> fraction[i] in s;
      assert |whole| > 0 ==> whole[0] in s;
      assert |whole| == 0 ==> fraction[0] in s;
      var magnitude := ParseNat(whole) as real + ParseNat(fraction) as real / Pow10(|fraction|) as real;
      Some(if negative then -magnitude else magnitude)
    else None
  }

  lemma NoDotInDigits(digits: string)
    requires AllDigits(digits)
    ensures IndexOf(digits, '.') == None
  {
    assert '.' !in digits by {
      assert forall i :: 0 <= i < |digits| ==> IsDigit(digits[i]);
    }
  }

  /** A string of digits without sign parses to its value. */
  lemma ParseDecimalOfDigits(digits: string)
    requires |digits| >= 1 && AllDigits(digits)
    requires digits[0] != '-' && digits[0] != '+'
    ensures ParseDecimal(digits) == Some(ParseNat(digits) as real)
  {
    NoDotInDigits(digits);
  }

  lemma DropSign(digits: string)
    ensures ("-" + digits)[0] == '-' && ("-" + digits)[1..] == digits
  {
  }

  /** A minus sign followed by digits parses to the negated value. */
  lemma ParseDecimalOfNegated(s: string)
    requires |s| >= 2 && s[0] == '-' && AllDigits(s[1..])
    ensures ParseDecimal(s) == Some(-(ParseNat(s[1..]) as real))
  {
    NoDotInDigits(s[1..]);
  }

  /** The decimal form of an integer parses back to that integer. */
  lemma ParseDecimalOfInt(n: int)
    ensures ParseDecimal(IntToString(n)) == Some(n as real)
  {
    var m: nat := if n < 0 then -n else n;
    var digits := NatToString(m);
    ParseNatToString(m);
    if n < 0 {
      DropSign(digits);
      ParseDecimalOfNegated(IntToString(n));
    } else {
      assert IsDigit(digits[0]);
      ParseDecimalOfDigits(digits);
    }
  }
}
