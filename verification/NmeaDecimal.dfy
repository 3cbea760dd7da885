// The 'f' directive of minmea_scan: fixed-point numbers in 32 bits (thread_io/minmea.c).

module NmeaDecimal {
  import opened Arithmetic
  import opened NmeaText

  const PLUS: Chr := 0x2B
  const MINUS: Chr := 0x2D
  const DOT: Chr := 0x2E
  const SPACE: Chr := 0x20

  type Int32 = x: int | -0x8000_0000 <= x <= 0x7FFF_FFFF

  /** struct minmea_float as 'f' stores it; Bad where the scan fails; ScaleOverflow where
      `scale *= 10` leaves 32 bits, which C leaves undefined. */
  datatype Decimal = Number(value: int, scale: int) | Bad | ScaleOverflow

  function DigitValue(c: Byte): (d: nat)
    requires IsDigit(c)
    ensures d <= 9
  {
    if c == 0x30 then 0 else if c == 0x31 then 1 else if c == 0x32 then 2 else if c == 0x33 then 3
    else if c == 0x34 then 4 else if c == 0x35 then 5 else if c == 0x36 then 6 else if c == 0x37 then 7
    else if c == 0x38 then 8 else 9
  }

  /** What is stored once the field has been read; value is -1 while no digit was seen. */
  function Finish(sign: int, value: int, scale: int): Decimal
    requires -1 <= sign <= 1 && -1 <= value <= INT32_MAX && 0 <= scale <= INT32_MAX
  {
    if (sign != 0 || scale != 0) && value == -1 then Bad
    else if value == -1 then Number(0, 0)
    else Number(if sign == -1 then -value else value, if scale == 0 then 1 else scale)
  }

  /** The field is the part of t before the first non-field character; sign, value and
      scale are what has been read already. */
  function Read(t: CString, sign: int, value: int, scale: int): Decimal
    requires -1 <= sign <= 1 && -1 <= value <= INT32_MAX && 0 <= scale <= INT32_MAX
    decreases |t|
  {
    if t == [] || !IsField(t[0]) then Finish(sign, value, scale)
    else if t[0] == PLUS && sign == 0 && value == -1 then Read(t[1..], 1, value, scale)
    else if t[0] == MINUS && sign == 0 && value == -1 then Read(t[1..], -1, value, scale)
    else if IsDigit(t[0]) then ReadDigit(t, DigitValue(t[0]), sign, if value == -1 then 0 else value, scale)
    else if t[0] == DOT && scale == 0 then Read(t[1..], sign, value, 1)
    else if t[0] == SPACE && sign == 0 && value == -1 && scale == 0 then Read(t[1..], sign, value, scale)
    else Bad
  }

  function ReadDigit(t: CString, digit: nat, sign: int, value: int, scale: int): Decimal
    requires t != [] && digit <= 9
    requires -1 <= sign <= 1 && 0 <= value <= INT32_MAX && 0 <= scale <= INT32_MAX
    decreases |t|, 0
  {
    if 10 * value + digit > INT32_MAX then
      if scale != 0 then Finish(sign, value, scale) else Bad
    else if 10 * scale > INT32_MAX then ScaleOverflow
    else Read(t[1..], sign, 10 * value + digit, 10 * scale)
  }

  /** The 'f' case of minmea_scan; every variable is 32 bits wide throughout. */
  method Scan(s: CString, start: nat) returns (d: Decimal)
    requires start <= |s|
    ensures d == Read(s[start..], 0, -1, 0)
    ensures d.Number? ==> -INT32_MAX <= d.value <= INT32_MAX && 0 <= d.scale <= INT32_MAX
  {
    var sign: Int32, value: Int32, scale: Int32 := 0, -1, 0;
    var field := start;
    while IsField(At(s, field))
      invariant start <= field <= |s|
      invariant -1 <= sign <= 1 && -1 <= value && 0 <= scale
      invariant Read(s[start..], 0, -1, 0) == Read(s[field..], sign, value, scale)
      decreases |s| - field
    {
      assert s[field..][0] == s[field] && s[field..][1..] == s[field + 1..];
      if s[field] == PLUS && sign == 0 && value == -1 {
        sign := 1;
      } else if s[field] == MINUS && sign == 0 && value == -1 {
        sign := -1;
      } else if IsDigit(s[field]) {
        var digit: Int32 := DigitValue(s[field]);
        if value == -1 {
          value := 0;
        }
        if value > (INT32_MAX - digit) / 10 {
          if scale != 0 {
            break;
          }
          return Bad;
        }
        value := 10 * value + digit;
        if scale != 0 {
          if scale > INT32_MAX / 10 {
            return ScaleOverflow;
          }
          scale := scale * 10;
        }
      } else if s[field] == DOT && scale == 0 {
        scale := 1;
      } else if s[field] == SPACE {
        if sign != 0 || value != -1 || scale != 0 {
          return Bad;
        }
      } else {
        return Bad;
      }
      field := field + 1;
    }
    if (sign != 0 || scale != 0) && value == -1 {
      return Bad;
    }
    if value == -1 {
      value, scale := 0, 0;
    } else if scale == 0 {
      scale := 1;
    }
    if sign != 0 {
      value := value * sign;
    }
    return Number(value, scale);
  }

  // ---------- what the numbers mean ----------

  predicate AllDigits(ds: CString) { forall k :: 0 <= k < |ds| ==> IsDigit(ds[k]) }

  /** The number that a string of decimal digits denotes. */
  function Val(ds: CString): nat
    requires AllDigits(ds)
  {
    if ds == [] then 0 else 10 * Val(ds[..|ds| - 1]) + DigitValue(ds[|ds| - 1])
  }

  /** How many of the digits fs can follow the digits `seen` before the number leaves 32 bits. */
  function Kept(seen: CString, fs: CString): (n: nat)
    requires AllDigits(seen) && AllDigits(fs) && Val(seen) <= INT32_MAX
    ensures n <= |fs|
    decreases |fs|
  {
    if fs != [] && Val(seen + [fs[0]]) <= INT32_MAX then 1 + Kept(seen + [fs[0]], fs[1..]) else 0
  }

  /** Kept is the longest prefix that fits. */
  lemma {:induction false} KeptIsLongest(seen: CString, fs: CString, k: nat)
    requires AllDigits(seen) && AllDigits(fs) && Val(seen) <= INT32_MAX && k <= |fs|
    ensures Val(seen + fs[..k]) <= INT32_MAX <==> k <= Kept(seen, fs)
    decreases k
  {
    if k == 0 {
      assert seen + fs[..0] == seen;
    } else {
      var next := seen + [fs[0]];
      assert seen + fs[..k] == next + fs[1..][..k - 1];
      if Val(next) <= INT32_MAX {
        KeptIsLongest(next, fs[1..], k - 1);
      } else {
        ValGrows(next, fs[1..][..k - 1]);
      }
    }
  }

  function Spaces(n: nat): (s: CString)
    ensures |s| == n
  {
    if n == 0 then [] else [SPACE] + Spaces(n - 1)
  }

  datatype Sign = Unsigned | Plus | Minus

  function SignText(g: Sign): CString {
    match g case Unsigned => [] case Plus => [PLUS] case Minus => [MINUS]
  }

  /** [spaces][sign]digits[.digits], then whatever ends the field. */
  function Numeral(spaces: nat, g: Sign, ints: CString, dot: bool, fs: CString, rest: CString): CString {
    Spaces(spaces) + (SignText(g) + (ints + ((if dot then [DOT] else []) + (fs + rest))))
  }

  predicate EndsField(rest: CString) {
    rest != [] ==> !IsField(rest[0])
  }

  lemma ValNext(ds: CString, c: Chr)
    requires AllDigits(ds) && IsDigit(c)
    ensures AllDigits(ds + [c]) && Val(ds + [c]) == 10 * Val(ds) + DigitValue(c)
  {
    assert (ds + [c])[..|ds|] == ds;
  }

  lemma {:induction false} ReadSpaces(n: nat, t: CString)
    ensures Read(Spaces(n) + t, 0, -1, 0) == Read(t, 0, -1, 0)
  {
    if n == 0 {
      assert Spaces(0) + t == t;
    } else {
      assert (Spaces(n) + t)[1..] == Spaces(n - 1) + t;
      ReadSpaces(n - 1, t);
    }
  }

  /** Reading one digit after the digits `seen`. */
  lemma ReadNext(seen: CString, c: Chr, t: CString, sign: int, scale: int)
    requires AllDigits(seen) && IsDigit(c) && Val(seen) <= INT32_MAX
    requires -1 <= sign <= 1 && 0 <= scale <= INT32_MAX
    ensures AllDigits(seen + [c])
    ensures var d := Read([c] + t, sign, Seen(seen), scale);
            if Val(seen + [c]) > INT32_MAX then d == if scale != 0 then Stored(sign, seen, scale) else Bad
            else if 10 * scale > INT32_MAX then d == ScaleOverflow
            else d == Read(t, sign, Seen(seen + [c]), 10 * scale)
  {
    var s := [c] + t;
    assert s[0] == c && s[1..] == t;
    DigitIsField(c);
    ValNext(seen, c);
    assert Read(s, sign, Seen(seen), scale) == ReadDigit(s, DigitValue(c), sign, Val(seen), scale);
  }

  lemma DigitIsField(c: Chr)
    requires IsDigit(c)
    ensures IsField(c) && c != PLUS && c != MINUS
  {
  }

  /** The value variable after the digits ds. */
  function Seen(ds: CString): int
    requires AllDigits(ds)
  {
    if ds == [] then -1 else Val(ds)
  }

  /** What a field stores whose kept digits are ds. */
  function Stored(sign: int, ds: CString, scale: int): Decimal
    requires AllDigits(ds)
  {
    var v: int := Val(ds);
    Number(if sign == -1 then -v else v, scale)
  }

  /** The integer digits: read exactly, or the first that does not fit ends the scan. */
  lemma {:induction false} ReadInteger(seen: CString, ds: CString, t: CString, sign: int)
    requires AllDigits(seen) && AllDigits(ds) && Val(seen) <= INT32_MAX && -1 <= sign <= 1
    ensures Read(ds + t, sign, Seen(seen), 0)
            == if Val(seen + ds) > INT32_MAX then Bad else Read(t, sign, Seen(seen + ds), 0)
    decreases |ds|
  {
    if ds == [] {
      assert ds + t == t && seen + ds == seen;
    } else {
      var c, more := ds[0], ds[1..];
      assert ds + t == [c] + (more + t);
      assert seen + ds == (seen + [c]) + more;
      ReadNext(seen, c, more + t, sign, 0);
      if Val(seen + [c]) <= INT32_MAX {
        ReadInteger(seen + [c], more, t, sign);
      } else {
        ValGrows(seen + [c], more);
      }
    }
  }

  lemma {:induction false} ValGrows(ds: CString, more: CString)
    requires AllDigits(ds) && AllDigits(more)
    ensures Val(ds + more) >= Val(ds)
    decreases |more|
  {
    if more == [] {
      assert ds + more == ds;
    } else {
      var n := |more| - 1;
      assert ds + more == (ds + more[..n]) + [more[n]];
      ValNext(ds + more[..n], more[n]);
      ValGrows(ds, more[..n]);
    }
  }

  lemma ReadEnd(seen: CString, t: CString, sign: int, scale: int)
    requires AllDigits(seen) && seen != [] && Val(seen) <= INT32_MAX && EndsField(t)
    requires -1 <= sign <= 1 && 0 < scale <= INT32_MAX
    ensures Read(t, sign, Seen(seen), scale) == Stored(sign, seen, scale)
  {
  }

  /** The outcome when the digits `seen`, k of them in the fraction, are followed by fs. */
  function Fraction(seen: CString, k: nat, fs: CString, sign: int): Decimal
    requires AllDigits(seen) && AllDigits(fs) && Val(seen) <= INT32_MAX
  {
    var n := Kept(seen, fs);
    if Pow10(k + n) > INT32_MAX then ScaleOverflow else Stored(sign, seen + fs[..n], Pow10(k + n))
  }

  lemma FractionNext(seen: CString, k: nat, fs: CString, sign: int)
    requires AllDigits(seen) && AllDigits(fs) && Val(seen) <= INT32_MAX && fs != [] && Pow10(k) <= INT32_MAX
    ensures AllDigits(seen + [fs[0]])
    ensures Fraction(seen, k, fs, sign)
            == if Val(seen + [fs[0]]) > INT32_MAX then Stored(sign, seen, Pow10(k))
               else if Pow10(k + 1) > INT32_MAX then ScaleOverflow
               else Fraction(seen + [fs[0]], k + 1, fs[1..], sign)
  {
    var n := Kept(seen, fs);
    if n == 0 {
      assert seen + fs[..0] == seen;
    } else {
      assert seen + fs[..n] == (seen + [fs[0]]) + fs[1..][..n - 1];
      Pow10Grows(k + 1, k + n);
    }
  }

  /** The fraction digits fs after the digits `seen`. */
  lemma {:induction false} ReadFraction(seen: CString, k: nat, fs: CString, t: CString, sign: int)
    requires AllDigits(seen) && AllDigits(fs) && Val(seen) <= INT32_MAX && Pow10(k) <= INT32_MAX
    requires -1 <= sign <= 1 && seen + fs != [] && EndsField(t)
    ensures Read(fs + t, sign, Seen(seen), Pow10(k)) == Fraction(seen, k, fs, sign)
    decreases |fs|
  {
    if fs == [] {
      assert fs + t == t && seen + fs[..0] == seen && seen + fs == seen;
      ReadEnd(seen, t, sign, Pow10(k));
    } else {
      assert fs + t == [fs[0]] + (fs[1..] + t);
      ReadNext(seen, fs[0], fs[1..] + t, sign, Pow10(k));
      FractionNext(seen, k, fs, sign);
      if Val(seen + [fs[0]]) <= INT32_MAX && Pow10(k + 1) <= INT32_MAX {
        ReadFraction(seen + [fs[0]], k + 1, fs[1..], t, sign);
      }
    }
  }

  lemma {:induction false} Pow10Grows(k: nat, n: nat)
    requires k <= n
    ensures Pow10(k) <= Pow10(n)
  {
    if k < n {
      Pow10Grows(k, n - 1);
    }
  }

  /** 10^9 is the last power of ten in 32 bits. */
  lemma Pow10Fits(n: nat)
    ensures Pow10(n) <= INT32_MAX <==> n <= 9
  {
    assert Pow10(5) == 100_000;
    assert Pow10(9) == 1_000_000_000 && Pow10(10) == 10_000_000_000;
    if n <= 9 {
      Pow10Grows(n, 9);
    } else {
      Pow10Grows(10, n);
    }
  }

  /** Main result.  A numeral is rejected exactly when its integer part overflows.  Otherwise
      the stored value is the numeral cut after the last digit that still fits 32 bits, and the
      scale is ten to the number of fraction digits kept; that power leaves 32 bits exactly when
      ten or more fraction digits are kept. */
  lemma ParsesNumeral(spaces: nat, g: Sign, ints: CString, dot: bool, fs: CString, rest: CString)
    requires AllDigits(ints) && AllDigits(fs) && ints + fs != [] && (fs != [] ==> dot) && EndsField(rest)
    ensures Read(Numeral(spaces, g, ints, dot, fs, rest), 0, -1, 0)
            == if Val(ints) > INT32_MAX then Bad
               else
                 var n := Kept(ints, fs);
                 if n > 9 then ScaleOverflow
                 else Stored(if g == Minus then -1 else 1, ints + fs[..n], Pow10(n))
  {
    var sign := match g case Unsigned => 0 case Plus => 1 case Minus => -1;
    var point := (if dot then [DOT] else []) + (fs + rest);
    ReadSpaces(spaces, SignText(g) + (ints + point));
    ReadSign(g, ints + point, sign, ints, point);
    assert [] + ints == ints;
    ReadInteger([], ints, point, sign);
    if Val(ints) <= INT32_MAX {
      ReadPoint(ints, dot, fs, rest, sign);
    }
  }

  const ZERO: Chr := 0x30
  const ONE: Chr := 0x31

  function Zeros(n: nat): (ds: CString)
    ensures |ds| == n && AllDigits(ds)
  {
    if n == 0 then [] else Zeros(n - 1) + [ZERO]
  }

  lemma {:induction false} ValOfZeros(n: nat)
    ensures Val([ZERO] + Zeros(n)) == 0
  {
    if n == 0 {
      assert [ZERO] + Zeros(0) == [] + [ZERO];
      ValNext([], ZERO);
    } else {
      ValOfZeros(n - 1);
      assert [ZERO] + Zeros(n) == ([ZERO] + Zeros(n - 1)) + [ZERO];
      ValNext([ZERO] + Zeros(n - 1), ZERO);
    }
  }

  /** All digits of 0.00...01 are kept. */
  lemma ValOfTiny(n: nat)
    ensures var fs := Zeros(n) + [ONE];
            Val([ZERO]) == 0 && Val([ZERO] + fs) == 1 && Kept([ZERO], fs) == n + 1 && fs[..n + 1] == fs
  {
    var fs := Zeros(n) + [ONE];
    assert [] + [ZERO] == [ZERO];
    ValNext([], ZERO);
    ValOfZeros(n);
    ValNext([ZERO] + Zeros(n), ONE);
    assert [ZERO] + fs == ([ZERO] + Zeros(n)) + [ONE] && fs[..n + 1] == fs;
    KeptIsLongest([ZERO], fs, n + 1);
  }

  /** One instance: the scale of 0.00...01 with n zeros behind the point overflows iff n >= 9,
      and the shortest such field is 0.0000000001. */
  lemma TinyNumber(n: nat, rest: CString)
    requires EndsField(rest)
    ensures Read(Numeral(0, Unsigned, [ZERO], true, Zeros(n) + [ONE], rest), 0, -1, 0)
            == if n >= 9 then ScaleOverflow else Number(1, Pow10(n + 1))
  {
    ValOfTiny(n);
    ParsesNumeral(0, Unsigned, [ZERO], true, Zeros(n) + [ONE], rest);
  }

  /** From the end of the integer part on. */
  lemma ReadPoint(ints: CString, dot: bool, fs: CString, rest: CString, sign: int)
    requires AllDigits(ints) && AllDigits(fs) && ints + fs != [] && (fs != [] ==> dot) && EndsField(rest)
    requires Val(ints) <= INT32_MAX && -1 <= sign <= 1
    ensures var n := Kept(ints, fs);
            Read((if dot then [DOT] else []) + (fs + rest), sign, Seen(ints), 0)
            == if n > 9 then ScaleOverflow else Stored(sign, ints + fs[..n], Pow10(n))
  {
    var point := (if dot then [DOT] else []) + (fs + rest);
    if dot {
      assert point[0] == DOT && point[1..] == fs + rest;
      ReadDot(point, sign, Seen(ints));
      ReadFraction(ints, 0, fs, rest, sign);
      Pow10Fits(Kept(ints, fs));
    } else {
      assert point == rest && ints + fs[..0] == ints && ints + fs == ints;
    }
  }

  lemma ReadDot(point: CString, sign: int, value: int)
    requires point != [] && point[0] == DOT && -1 <= sign <= 1 && -1 <= value <= INT32_MAX
    ensures Read(point, sign, value, 0) == Read(point[1..], sign, value, 1)
  {
  }

  lemma ReadSign(g: Sign, t: CString, sign: int, ints: CString, point: CString)
    requires sign == match g case Unsigned => 0 case Plus => 1 case Minus => -1
    requires t == ints + point
    ensures Read(SignText(g) + t, 0, -1, 0) == Read(t, sign, -1, 0)
  {
    if g == Unsigned {
      assert SignText(g) + t == t;
    } else {
      assert (SignText(g) + t)[1..] == t;
    }
  }

  lemma MulTen(x: int, y: int)
    ensures x * (10 * y) == 10 * (x * y)
  {
  }

  lemma {:induction false} ValSplits(ds: CString, more: CString)
    requires AllDigits(ds) && AllDigits(more)
    ensures Val(ds + more) == Val(ds) * Pow10(|more|) + Val(more) && Val(more) < Pow10(|more|)
    decreases |more|
  {
    if more == [] {
      assert ds + more == ds;
    } else {
      var n := |more| - 1;
      assert ds + more == (ds + more[..n]) + [more[n]];
      ValNext(ds + more[..n], more[n]);
      ValSplits(ds, more[..n]);
      MulTen(Val(ds), Pow10(n));
    }
  }

  /** Cutting digits truncates towards zero: what is stored differs from the numeral by less
      than one unit of its last kept digit. */
  lemma TruncationError(ints: CString, fs: CString, n: nat)
    requires AllDigits(ints) && AllDigits(fs) && n <= |fs|
    ensures var kept, cut := Val(ints + fs[..n]), Pow10(|fs| - n);
            kept * cut <= Val(ints + fs) < (kept + 1) * cut
  {
    assert ints + fs == (ints + fs[..n]) + fs[n..];
    ValSplits(ints + fs[..n], fs[n..]);
  }
}

// Rescaling a fixed-point number (thread_io/minmea.h).

module NmeaRescale {
  import opened Arithmetic
  import opened NmeaText
  import D = NmeaDecimal

  predicate FitsInt32(x: int) { -0x8000_0000 <= x <= INT32_MAX }

  /** minmea_rescale's result; Overflow where an intermediate value leaves 32 bits. */
  datatype Rescaled = Value(value: int) | Overflow

  function Sgn(x: int): int {
    if x > 0 then 1 else if x < 0 then -1 else 0
  }

  function Abs(x: int): nat {
    if x < 0 then -x else x
  }

  /** C's division truncates towards zero. */
  function CDiv(a: int, b: int): int
    requires b > 0
  {
    if a >= 0 then a / b else -(-a / b)
  }

  /** minmea_rescale */
  function Rescale(value: int, scale: int, newScale: int): Rescaled
    requires FitsInt32(value) && 0 <= scale <= INT32_MAX && 0 < newScale <= INT32_MAX
  {
    if scale == 0 then Value(0)
    else if scale == newScale then Value(value)
    else if scale > newScale then
      var sum := value + CDiv(CDiv(Sgn(value) * scale, newScale), 2);
      if FitsInt32(sum) then Value(CDiv(sum, Ratio(scale, newScale))) else Overflow
    else
      var product := value * (newScale / scale);
      if FitsInt32(product) then Value(product) else Overflow
  }

  /** scale / newScale of a finer scale. */
  function Ratio(scale: int, newScale: int): (r: int)
    requires 0 < newScale < scale
    ensures r >= 1
  {
    assert newScale * (scale / newScale) + scale % newScale == scale;
    scale / newScale
  }

  /** q is value / r to the nearest integer, halves away from zero. */
  predicate Nearest(q: int, value: int, r: int) {
    var error := Abs(q * r - value);
    2 * error < r || (2 * error == r && Abs(q * r) > Abs(value))
  }

  /** No two integers are nearest. */
  lemma NearestIsUnique(p: int, q: int, value: int, r: int)
    requires r >= 1 && Nearest(p, value, r) && Nearest(q, value, r)
    ensures p == q
  {
    if p > q {
      Apart(p, q, r);
    } else if q > p {
      Apart(q, p, r);
    }
  }

  /** Adding half a unit and truncating rounds a natural number to the nearest. */
  lemma RoundsNat(v: nat, r: int)
    requires r >= 1
    ensures Nearest((v + r / 2) / r, v, r)
  {
    var q, m := (v + r / 2) / r, (v + r / 2) % r;
    assert q * r + m == v + r / 2;
  }

  lemma NearestNegates(q: int, v: int, r: int)
    requires Nearest(q, v, r)
    ensures Nearest(-q, -v, r)
  {
    assert (-q) * r == -(q * r);
  }

  lemma HalfStep(value: int, scale: int, newScale: int)
    requires 0 < newScale < scale
    ensures CDiv(CDiv(Sgn(value) * scale, newScale), 2) == Sgn(value) * (Ratio(scale, newScale) / 2)
  {
    var r := Ratio(scale, newScale);
    if value > 0 {
      assert CDiv(Sgn(value) * scale, newScale) == r;
    } else if value < 0 {
      assert CDiv(Sgn(value) * scale, newScale) == -r;
    } else {
      assert CDiv(Sgn(value) * scale, newScale) == 0;
    }
  }

  lemma SumDivided(value: int, half: int, r: int)
    requires r >= 1 && 0 <= half < r
    ensures CDiv(value + Sgn(value) * half, r) == Sgn(value) * ((Abs(value) + half) / r)
  {
    if value > 0 {
      assert Sgn(value) * half == half;
    } else if value < 0 {
      assert Sgn(value) * half == -half;
      assert CDiv(value - half, r) == -((half - value) / r);
    } else {
      assert Sgn(value) * half == 0;
    }
  }

  /** To a coarser scale: the nearest value in units of the integer ratio, halves away from zero,
      unless adding the half step overflows. */
  lemma RoundsToNearest(value: int, scale: int, newScale: int)
    requires FitsInt32(value) && scale <= INT32_MAX && 0 < newScale < scale
    ensures var r := Ratio(scale, newScale);
            var q := Rescale(value, scale, newScale);
            && (q.Value? <==> FitsInt32(value + Sgn(value) * (r / 2)))
            && (q.Value? ==> Nearest(q.value, value, r))
  {
    var r := Ratio(scale, newScale);
    HalfStep(value, scale, newScale);
    SumDivided(value, r / 2, r);
    RoundsSigned(value, r);
  }

  lemma RoundsSigned(value: int, r: int)
    requires r >= 1
    ensures Nearest(Sgn(value) * ((Abs(value) + r / 2) / r), value, r)
  {
    var q := (Abs(value) + r / 2) / r;
    RoundsNat(Abs(value), r);
    if value > 0 {
      assert Sgn(value) * q == q;
    } else if value < 0 {
      NearestNegates(q, Abs(value), r);
      assert Sgn(value) * q == -q;
    } else {
      assert Nearest(0, 0, r);
    }
  }

  /** Scaling up by any factor and back down gives the value back, in every case that does
      not overflow on the way. */
  lemma UpAndBack(value: int, scale: int, factor: int)
    requires FitsInt32(value) && 0 < scale && 1 <= factor && scale * factor <= INT32_MAX
    ensures Rescale(value, scale, scale * factor).Value? <==> FitsInt32(value * factor)
    ensures FitsInt32(value * factor) ==>
              && Rescale(value, scale, scale * factor) == Value(value * factor)
              && (Rescale(value * factor, scale * factor, scale) == Value(value)
                  <==> FitsInt32(value * factor + Sgn(value) * (factor / 2)))
  {
    var fine, v := scale * factor, value * factor;
    ExactRatio(scale, factor);
    if factor > 1 {
      Apart(factor, 1, scale);
      if FitsInt32(v) {
        SameSign(value, factor);
        BackDown(value, v, scale, fine, factor);
      }
    }
  }

  /** The way back, with the products named. */
  lemma BackDown(value: int, v: int, scale: int, fine: int, factor: int)
    requires FitsInt32(v) && 0 < scale < fine <= INT32_MAX && factor >= 1 && Ratio(fine, scale) == factor
    requires v == value * factor && Sgn(v) == Sgn(value)
    ensures Rescale(v, fine, scale) == Value(value) <==> FitsInt32(v + Sgn(value) * (factor / 2))
  {
    RoundsToNearest(v, fine, scale);
    ExactIsNearest(value, v, factor);
    var back := Rescale(v, fine, scale);
    if back.Value? {
      NearestIsUnique(back.value, value, v, factor);
    }
  }

  lemma ExactIsNearest(value: int, v: int, factor: int)
    requires factor >= 1 && v == value * factor
    ensures Nearest(value, v, factor)
  {
  }

  lemma SameSign(value: int, factor: int)
    requires factor > 0
    ensures Sgn(value * factor) == Sgn(value)
  {
  }

  lemma ExactRatio(scale: int, factor: int)
    requires scale > 0
    ensures scale * factor / scale == factor
  {
    var q, m := scale * factor / scale, scale * factor % scale;
    assert scale * factor == scale * q + m;
    assert q * scale == scale * q && factor * scale == scale * factor;
    if q < factor {
      Apart(factor, q, scale);
    } else if q > factor {
      Apart(q, factor, scale);
    }
  }

  // ---------- what the result says about the number value / scale ----------

  /** The magnitude of the result to a coarser scale. */
  function Rounded(v: nat, scale: int, newScale: int): nat
    requires 0 < newScale < scale
  {
    (v + Ratio(scale, newScale) / 2) / Ratio(scale, newScale)
  }

  lemma CoarserResult(value: int, scale: int, newScale: int)
    requires FitsInt32(value) && scale <= INT32_MAX && 0 < newScale < scale
    requires Rescale(value, scale, newScale).Value?
    ensures Rescale(value, scale, newScale) == Value(Sgn(value) * Rounded(Abs(value), scale, newScale))
  {
    HalfStep(value, scale, newScale);
    SumDivided(value, Ratio(scale, newScale) / 2, Ratio(scale, newScale));
  }

  lemma CDivSigned(value: int, r: int)
    requires r > 0
    ensures CDiv(value, r) == Sgn(value) * (Abs(value) / r)
  {
    SignTimes(value, Abs(value) / r);
    if value == 0 {
      ZeroOver(r);
    }
  }

  lemma SignTimes(value: int, x: int)
    ensures Sgn(value) * x == if value > 0 then x else if value < 0 then -x else 0
  {
  }

  lemma SameMagnitude(value: int, x: int, y: int)
    requires value == 0 ==> x == y
    ensures Sgn(value) * x == Sgn(value) * y <==> x == y
  {
    SignTimes(value, x);
    SignTimes(value, y);
  }

  lemma HalfStepCarries(v: nat, r: int)
    requires r >= 1
    ensures (v + r / 2) / r == v / r <==> v % r + r / 2 < r
  {
    var q, m := v / r, v % r;
    assert v == q * r + m;
    if m + r / 2 < r {
      QuotientIs(v + r / 2, r, q);
    } else {
      assert (q + 1) * r == q * r + r;
      QuotientIs(v + r / 2, r, q + 1);
    }
  }

  /** In units of the integer ratio the result is rounded towards zero exactly when the half step
      does not carry. */
  lemma TruncatesIff(value: int, scale: int, newScale: int)
    requires FitsInt32(value) && scale <= INT32_MAX && 0 < newScale < scale
    requires Rescale(value, scale, newScale).Value?
    ensures var r := Ratio(scale, newScale);
            Rescale(value, scale, newScale) == Value(CDiv(value, r)) <==> Abs(value) % r + r / 2 < r
  {
    var r := Ratio(scale, newScale);
    CoarserResult(value, scale, newScale);
    CDivSigned(value, r);
    HalfStepCarries(Abs(value), r);
    ZeroOver(r);
    SameMagnitude(value, Rounded(Abs(value), scale, newScale), Abs(value) / r);
  }

  lemma ZeroOver(r: int)
    requires r >= 1
    ensures 0 / r == 0 && (r / 2) / r == 0
  {
    QuotientIs(0, r, 0);
    QuotientIs(r / 2, r, 0);
  }

  /** What the comment promises: value / scale in units of the new scale, rounded towards zero. */
  function TowardsZero(value: int, scale: int, newScale: int): int
    requires scale > 0
  {
    CDiv(value * newScale, scale)
  }

  lemma TowardsZeroSigned(value: int, scale: int, newScale: int)
    requires scale > 0 && newScale > 0
    ensures TowardsZero(value, scale, newScale) == Sgn(value) * (Abs(value) * newScale / scale)
  {
    SameSign(value, newScale);
    CDivSigned(value * newScale, scale);
    AbsProduct(value, newScale);
  }

  lemma AbsProduct(value: int, n: int)
    requires n > 0
    ensures Abs(value * n) == Abs(value) * n
  {
    SameSign(value, n);
    if value < 0 {
      assert (-value) * n == -(value * n);
    }
  }

  /** When the comment is right, for any two scales. */
  predicate StaysInside(value: int, scale: int, newScale: int)
    requires 0 < scale && 0 < newScale
  {
    if scale > newScale then Rounded(Abs(value), scale, newScale) * scale <= Abs(value) * newScale
    else Abs(value) * (newScale % scale) < scale
  }

  /** The exact condition of "Rounds towards zero". */
  lemma RoundsTowardsZeroIff(value: int, scale: int, newScale: int)
    requires FitsInt32(value) && 0 < scale <= INT32_MAX && 0 < newScale <= INT32_MAX
    requires Rescale(value, scale, newScale).Value?
    ensures Rescale(value, scale, newScale) == Value(TowardsZero(value, scale, newScale))
            <==> StaysInside(value, scale, newScale)
  {
    TowardsZeroSigned(value, scale, newScale);
    if scale > newScale {
      CoarserTowardsZero(value, scale, newScale);
    } else {
      FinerTowardsZero(value, scale, newScale);
    }
  }

  lemma CoarserTowardsZero(value: int, scale: int, newScale: int)
    requires FitsInt32(value) && scale <= INT32_MAX && 0 < newScale < scale
    requires Rescale(value, scale, newScale).Value?
    ensures Rescale(value, scale, newScale) == Value(Sgn(value) * (Abs(value) * newScale / scale))
            <==> StaysInside(value, scale, newScale)
  {
    CoarserResult(value, scale, newScale);
    CoarserUnits(Abs(value), scale, newScale);
    SameMagnitude(value, Rounded(Abs(value), scale, newScale), Abs(value) * newScale / scale);
  }

  lemma CoarserUnits(v: nat, scale: int, newScale: int)
    requires 0 < newScale < scale
    ensures Rounded(v, scale, newScale) == v * newScale / scale
            <==> Rounded(v, scale, newScale) * scale <= v * newScale
    ensures v == 0 ==> Rounded(v, scale, newScale) == v * newScale / scale
  {
    RatioTimes(scale, newScale);
    WholeUnits(v, Ratio(scale, newScale), scale, newScale, Rounded(v, scale, newScale));
  }

  lemma RatioTimes(scale: int, newScale: int)
    requires 0 < newScale < scale
    ensures Ratio(scale, newScale) * newScale + scale % newScale == scale
  {
  }

  /** The rounded quotient q never falls short of the whole units of the number, so it is equal to
      them unless it exceeds the number. */
  lemma WholeUnits(v: nat, r: int, scale: int, newScale: int, q: nat)
    requires r >= 1 && newScale > 0 && scale >= r * newScale && q == (v + r / 2) / r
    ensures q == v * newScale / scale <==> q * scale <= v * newScale
    ensures v == 0 ==> q == v * newScale / scale
  {
    ZeroOver(r);
    ZeroOver(scale);
    assert q * r + (v + r / 2) % r == v + r / 2;
    NotShort(v, r, scale, newScale, q);
    if q * scale <= v * newScale {
      QuotientIs(v * newScale, scale, q);
    }
  }

  lemma NotShort(v: nat, r: int, scale: int, newScale: int, q: nat)
    requires r >= 1 && newScale > 0 && scale >= r * newScale && v < q * r + r
    ensures v * newScale < q * scale + scale
  {
    TimesMonotone(v + 1, (q + 1) * r, newScale);
    TimesMonotone(r * newScale, scale, q + 1);
    assert (q + 1) * r * newScale == r * newScale * (q + 1);
  }

  /** To a finer scale the result is the value times the integer ratio. */
  lemma FinerTowardsZero(value: int, scale: int, newScale: int)
    requires FitsInt32(value) && 0 < scale <= newScale <= INT32_MAX
    requires Rescale(value, scale, newScale).Value?
    ensures Rescale(value, scale, newScale) == Value(Sgn(value) * (Abs(value) * newScale / scale))
            <==> StaysInside(value, scale, newScale)
  {
    var k, m := newScale / scale, newScale % scale;
    FinerResult(value, scale, newScale);
    FinerUnits(Abs(value), scale, newScale, k, m);
    SameMagnitude(value, Abs(value) * k, Abs(value) * newScale / scale);
  }

  lemma FinerResult(value: int, scale: int, newScale: int)
    requires FitsInt32(value) && 0 < scale <= newScale <= INT32_MAX
    requires Rescale(value, scale, newScale).Value?
    ensures Rescale(value, scale, newScale) == Value(Sgn(value) * (Abs(value) * (newScale / scale)))
  {
    var k := newScale / scale;
    FinerProduct(value, scale, newScale);
    SignTimes(value, Abs(value) * k);
    if value < 0 {
      assert (-value) * k == -(value * k);
    }
  }

  lemma FinerUnits(v: nat, scale: int, newScale: int, k: nat, m: nat)
    requires 0 < scale && newScale == k * scale + m
    ensures v * newScale == v * k * scale + v * m
    ensures v * k == v * newScale / scale <==> v * m < scale
  {
    assert v * newScale == v * (k * scale) + v * m;
    assert v * (k * scale) == v * k * scale;
    if v * m < scale {
      QuotientIs(v * newScale, scale, v * k);
    } else {
      assert v * k * scale + scale <= v * newScale;
    }
  }

  /** When the new scale divides the old one, the comment is right exactly when the half step does
      not carry. */
  lemma InsideIffNoCarry(value: int, scale: int, newScale: int)
    requires 0 < newScale < scale && scale % newScale == 0
    ensures var r := Ratio(scale, newScale);
            StaysInside(value, scale, newScale) <==> Abs(value) % r + r / 2 < r
  {
    var r := Ratio(scale, newScale);
    RatioTimes(scale, newScale);
    HalfStepCarries(Abs(value), r);
    WholeRatio(Abs(value), r, newScale, Rounded(Abs(value), scale, newScale));
  }

  lemma WholeRatio(v: nat, r: int, newScale: int, q: nat)
    requires r >= 1 && newScale > 0 && q == (v + r / 2) / r
    ensures q * (r * newScale) <= v * newScale <==> q == v / r
  {
    assert q * (r * newScale) == q * r * newScale;
    Cancel(q * r, v, newScale);
    NotAbove(v, r, q);
  }

  lemma NotAbove(v: nat, r: int, q: nat)
    requires r >= 1 && q == (v + r / 2) / r
    ensures q * r <= v <==> q == v / r
  {
    assert q * r + (v + r / 2) % r == v + r / 2;
    if q * r <= v {
      QuotientIs(v, r, q);
    } else {
      assert v / r * r + v % r == v;
    }
  }

  /** How far the result q is from the number, in units of 1 / (scale * newScale): half a new unit,
      and what the remainder of the two scales adds. */
  lemma ErrorBound(value: int, scale: int, newScale: int)
    requires FitsInt32(value) && scale <= INT32_MAX && 0 < newScale < scale
    requires Rescale(value, scale, newScale).Value?
    ensures var q := Rescale(value, scale, newScale).value;
            2 * Abs(q * scale - value * newScale) <= scale + 2 * (Abs(q) * (scale % newScale))
  {
    RoundsToNearest(value, scale, newScale);
    RatioTimes(scale, newScale);
    Errors(Rescale(value, scale, newScale).value, value, Ratio(scale, newScale), newScale, scale % newScale);
  }

  lemma Errors(q: int, value: int, r: int, n: int, m: nat)
    requires r >= 1 && n > 0 && 2 * Abs(q * r - value) <= r
    ensures 2 * Abs(q * (r * n + m) - value * n) <= r * n + 2 * (Abs(q) * m)
  {
    var e := q * r - value;
    assert q * (r * n + m) - value * n == e * n + q * m by {
      assert q * (r * n) == q * r * n;
      assert q * (r * n + m) == q * (r * n) + q * m;
      assert (q * r - value) * n == q * r * n - value * n;
    }
    AbsProduct(e, n);
    TimesMonotone(2 * Abs(e), r, n);
    assert 2 * Abs(e) * n == 2 * (Abs(e) * n);
    if m > 0 {
      AbsProduct(q, m);
    }
  }

  /** The nearest value to the number itself, whenever the new scale divides the old one ... */
  lemma NearestToNumber(value: int, scale: int, newScale: int)
    requires FitsInt32(value) && scale <= INT32_MAX && 0 < newScale < scale && scale % newScale == 0
    requires Rescale(value, scale, newScale).Value?
    ensures 2 * Abs(Rescale(value, scale, newScale).value * scale - value * newScale) <= scale
  {
    ErrorBound(value, scale, newScale);
  }

  /** ... and not in general: 10/3 becomes 10/2, where rounding towards zero gives 6/2 and the nearest
      value is 7/2. */
  lemma TenThirds()
    ensures Rescale(10, 3, 2) == Value(10) && TowardsZero(10, 3, 2) == 6
    ensures 2 * Abs(10 * 3 - 10 * 2) > 3 && 2 * Abs(7 * 3 - 10 * 2) <= 3
  {
    assert Ratio(3, 2) == 1 && Rescale(10, 3, 2) == Value(CDiv(10, 1));
    assert CDiv(10 * 2, 3) == 6;
  }

  /** To a finer scale nothing is lost exactly when the old scale divides the new one. */
  lemma FinerIsExactIff(value: int, scale: int, newScale: int)
    requires FitsInt32(value) && 0 < scale <= newScale <= INT32_MAX
    requires Rescale(value, scale, newScale).Value?
    ensures Rescale(value, scale, newScale).value * scale == value * newScale
            <==> value == 0 || newScale % scale == 0
  {
    var k, m := newScale / scale, newScale % scale;
    FinerProduct(value, scale, newScale);
    assert value * newScale == value * (k * scale) + value * m;
    assert value * (k * scale) == value * k * scale;
    NoZeroDivisors(value, m);
  }

  lemma FinerProduct(value: int, scale: int, newScale: int)
    requires FitsInt32(value) && 0 < scale <= newScale <= INT32_MAX
    requires Rescale(value, scale, newScale).Value?
    ensures Rescale(value, scale, newScale) == Value(value * (newScale / scale))
  {
    QuotientIs(scale, scale, 1);
  }

  lemma NoZeroDivisors(a: int, m: nat)
    ensures a * m == 0 <==> a == 0 || m == 0
  {
    if m > 0 && a != 0 {
      AbsProduct(a, m);
      TimesMonotone(1, Abs(a), m);
    }
  }

  /** A field without a number has scale zero, and stays zero in every scale. */
  lemma BlankStaysZero(spaces: nat, rest: CString, newScale: int)
    requires D.EndsField(rest) && 0 < newScale <= INT32_MAX
    ensures var d := D.Read(D.Spaces(spaces) + rest, 0, -1, 0);
            d == D.Number(0, 0) && Rescale(d.value, d.scale, newScale) == Value(0)
  {
    D.ReadSpaces(spaces, rest);
  }
}
