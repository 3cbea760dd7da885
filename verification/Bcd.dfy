// Numbers as decimal digits for the displays (XMEGA/main.c).

module Bcd {
  import opened Arithmetic

  type Word = w: int | 0 <= w < 0x1_0000

  function Pow16(k: nat): (p: nat)
    ensures p > 0
  {
    if k == 0 then 1 else 16 * Pow16(k - 1)
  }

  /** The k-th decimal digit, from the lowest. */
  function Digit(v: nat, k: nat): (d: nat)
    ensures d < 10
  {
    if k == 0 then v % 10 else Digit(v / 10, k - 1)
  }

  /** The k-th group of four bits, from the lowest. */
  function Nibble(v: nat, k: nat): (d: nat)
    ensures d < 16
  {
    if k == 0 then v % 16 else Nibble(v / 16, k - 1)
  }

  /** dec2bcd_r: every decimal digit in a nibble of its own. */
  function Dec2BcdR(dec: nat): nat {
    if dec == 0 then 0 else 16 * Dec2BcdR(dec / 10) + dec % 10
  }

  /** A 16-bit value shifted left by 4k bits stays 16 bits wide. */
  function ShiftNibbles(d: nat, k: nat): nat {
    d * Pow16(k) % 0x1_0000
  }

  /** dec2bcd: the digits from the k-th on, shifted in 16 bits and added up. */
  function Dec2BcdFrom(dec: nat, k: nat): nat
    decreases dec
  {
    if dec == 0 then 0 else ShiftNibbles(dec % 10, k) + Dec2BcdFrom(dec / 10, k + 1)
  }

  method Dec2Bcd(val: Word) returns (result: nat)
    ensures result == Dec2BcdFrom(val, 0)
  {
    var dec := val;
    result := 0;
    var shift := 0;
    while dec != 0
      invariant result + Dec2BcdFrom(dec, shift) == Dec2BcdFrom(val, 0)
      decreases dec
    {
      result := result + ShiftNibbles(dec % 10, shift);
      dec := dec / 10;
      shift := shift + 1;
    }
  }

  lemma BcdStep(dec: nat)
    ensures Dec2BcdR(dec) == 16 * Dec2BcdR(dec / 10) + dec % 10
  {
  }

  lemma SplitNibble(r: nat, q: nat, d: nat)
    requires r == 16 * q + d && d < 16
    ensures r % 16 == d && r / 16 == q
  {
  }

  /** Nibble k of the recursive converter is decimal digit k, for all numbers. */
  lemma {:induction false} NibbleIsDigit(dec: nat, k: nat)
    ensures Nibble(Dec2BcdR(dec), k) == Digit(dec, k)
    decreases k
  {
    BcdStep(dec);
    SplitNibble(Dec2BcdR(dec), Dec2BcdR(dec / 10), dec % 10);
    if k > 0 {
      NibbleIsDigit(dec / 10, k - 1);
    }
  }

  /** From the fifth digit on everything is shifted out of the 16 bits. */
  lemma {:induction false} ShiftedOut(dec: nat, k: nat)
    requires k >= 4
    ensures Dec2BcdFrom(dec, k) == 0
    decreases dec
  {
    if dec > 0 {
      FullWords(k);
      var words := Pow16(k) / 0x1_0000;
      assert dec % 10 * Pow16(k) == 0x1_0000 * (dec % 10 * words);
      ShiftedOut(dec / 10, k + 1);
    }
  }

  lemma {:induction false} FullWords(k: nat)
    requires k >= 4
    ensures Pow16(k) % 0x1_0000 == 0 && Pow16(k) == 0x1_0000 * (Pow16(k) / 0x1_0000)
    decreases k
  {
    if k == 4 {
      assert Pow16(2) == 256 && Pow16(4) == 0x1_0000;
    } else {
      FullWords(k - 1);
    }
  }

  lemma DropDigit(dec: nat, n: nat, tenfold: nat)
    requires n > 0 && tenfold == 10 * n
    ensures dec % tenfold == 10 * (dec / 10 % n) + dec % 10
  {
    var q, r := dec / 10 / n, dec / 10 % n;
    var low := 10 * r + dec % 10;
    assert dec == tenfold * q + low;
    QuotientIs(dec, tenfold, q);
  }

  lemma ConvertNext(dec: nat, n: nat, tenfold: nat)
    requires n > 0 && tenfold == 10 * n
    ensures Dec2BcdR(dec % tenfold) == 16 * Dec2BcdR(dec / 10 % n) + dec % 10
  {
    DropDigit(dec, n, tenfold);
  }

  lemma ShiftFits(d: nat, k: nat, unit: nat)
    requires d < 10 && k < 4 && unit == Pow16(k)
    ensures ShiftNibbles(d, k) == unit * d
  {
    assert Pow16(0) == 1 && Pow16(1) == 16 && Pow16(2) == 256 && Pow16(3) == 4096;
    assert unit == 1 || unit == 16 || unit == 256 || unit == 4096;
  }

  lemma LoopStep(dec: nat, k: nat, unit: nat)
    requires k < 4 && unit == Pow16(k)
    ensures Dec2BcdFrom(dec, k) == unit * (dec % 10) + Dec2BcdFrom(dec / 10, k + 1)
  {
    ShiftFits(dec % 10, k, unit);
  }

  lemma LastDigit(dec: nat)
    ensures Dec2BcdFrom(dec, 3) == 4096 * (dec % 10)
  {
    assert Pow16(3) == 4096;
    LoopStep(dec, 3, 4096);
    ShiftedOut(dec / 10, 4);
  }

  lemma LastTwoDigits(dec: nat)
    ensures Dec2BcdFrom(dec, 2) == 256 * Dec2BcdR(dec % 100)
  {
    assert Pow16(2) == 256;
    LoopStep(dec, 2, 256);
    LastDigit(dec / 10);
    ConvertNext(dec, 10, 100);
    assert Dec2BcdR(dec / 10 % 10) == dec / 10 % 10;
  }

  lemma LastThreeDigits(dec: nat)
    ensures Dec2BcdFrom(dec, 1) == 16 * Dec2BcdR(dec % 1000)
  {
    assert Pow16(1) == 16;
    LoopStep(dec, 1, 16);
    LastTwoDigits(dec / 10);
    ConvertNext(dec, 100, 1000);
  }

  /** The loop keeps the lowest four digits only. */
  lemma LoopConverts(dec: nat)
    ensures Dec2BcdFrom(dec, 0) == Dec2BcdR(dec % 10000)
  {
    LoopStep(dec, 0, 1);
    LastThreeDigits(dec / 10);
    ConvertNext(dec, 1000, 10000);
  }

  lemma {:induction false} BcdInjective(a: nat, b: nat)
    requires Dec2BcdR(a) == Dec2BcdR(b)
    ensures a == b
  {
    if a > 0 && b > 0 {
      BcdInjective(a / 10, b / 10);
    } else {
      BcdPositive(a);
      BcdPositive(b);
    }
  }

  lemma {:induction false} BcdPositive(a: nat)
    ensures Dec2BcdR(a) == 0 <==> a == 0
  {
    if a > 0 {
      BcdPositive(a / 10);
    }
  }

  /** The two converters agree exactly on numbers of at most four digits. */
  lemma ConvertersAgree(dec: nat)
    ensures Dec2BcdFrom(dec, 0) == Dec2BcdR(dec) <==> dec < 10000
  {
    LoopConverts(dec);
    FourDigitsKept(dec);
    SameBcd(dec, dec % 10000);
  }

  lemma FourDigitsKept(dec: nat)
    ensures dec % 10000 == dec <==> dec < 10000
  {
  }

  lemma SameBcd(a: nat, b: nat)
    ensures Dec2BcdR(a) == Dec2BcdR(b) <==> a == b
  {
    if Dec2BcdR(a) == Dec2BcdR(b) {
      BcdInjective(a, b);
    }
  }

  // ---------- sending a number to the display ----------

  const CLEAR := 0x76
  const CURSOR := 0x79

  /** The number that digits, highest first, spell. */
  function Spelled(ds: seq<int>): int {
    if ds == [] then 0 else 10 * Spelled(ds[..|ds| - 1]) + ds[|ds| - 1]
  }

  /** What process_digits should send: clear, go to a column from which the digits fill the
      four places, the digits, and the cursor back to the first place. */
  predicate Shows(sent: seq<int>, val: Word) {
    var n := if val < 100 then 2 else if val < 1000 then 3 else 4;
    && |sent| == n + 5
    && sent[..3] == [CLEAR, CURSOR, 4 - n] && sent[3 + n..] == [CURSOR, 0]
    && (forall i :: 3 <= i < 3 + n ==> 0 <= sent[i] < 10)
    && Spelled(sent[3..3 + n]) == val % 10000
  }

  /** process_digits; the branch for numbers below 10 comes after the one for numbers below
      100 and is never taken. */
  method ProcessDigits(val: Word) returns (sent: seq<int>)
    ensures Shows(sent, val)
  {
    var res := Dec2Bcd(val);
    var utemp := res % 0x1_0000;
    var buff := new int[10];
    var digitPtr := 0;
    buff[digitPtr] := utemp % 16;
    digitPtr := digitPtr + 1;
    utemp := utemp / 16;
    buff[digitPtr] := utemp % 16;
    digitPtr := digitPtr + 1;
    utemp := utemp / 16;
    buff[digitPtr] := utemp % 16;
    digitPtr := digitPtr + 1;
    utemp := utemp / 16;
    buff[digitPtr] := utemp % 16;
    FourDigits(val, buff[0], buff[1], buff[2], buff[3], res);

    var column, digitLen := 0, 3;
    if val < 1000 && val > 99 {
      column, digitLen := 1, 2;
    } else if val < 100 {
      column, digitLen := 2, 1;
    } else if val < 10 {
      column, digitLen := 3, 0;
    }
    sent := [CLEAR, CURSOR, column];
    var i := digitLen;
    ghost var ds: seq<int> := [];
    while i >= 0
      invariant -1 <= i <= digitLen && |ds| == digitLen - i && sent == [CLEAR, CURSOR, column] + ds
      invariant forall k :: 0 <= k < |ds| ==> ds[k] == buff[digitLen - k]
    {
      ds := ds + [buff[i]];
      sent := sent + [buff[i]];
      i := i - 1;
    }
    sent := sent + [CURSOR, 0];
    SpelledFour(val, ds);
    assert sent[3..3 + |ds|] == ds;
  }

  lemma FourDigits(val: Word, a: int, b: int, c: int, d: int, res: nat)
    requires res == Dec2BcdFrom(val, 0)
    requires var u := res % 0x1_0000;
             a == u % 16 && b == u / 16 % 16 && c == u / 16 / 16 % 16 && d == u / 16 / 16 / 16 % 16
    ensures a == Digit(val, 0) && b == Digit(val, 1) && c == Digit(val, 2) && d == Digit(val, 3)
  {
    var u := res % 0x1_0000;
    FirstNibbles(u);
    LoopFits(val);
    assert u == res;
    LoopNibbleIsDigit(val, 0);
    LoopNibbleIsDigit(val, 1);
    LoopNibbleIsDigit(val, 2);
    LoopNibbleIsDigit(val, 3);
  }

  lemma LoopFits(val: nat)
    ensures Dec2BcdFrom(val, 0) < 0x1_0000
  {
    LoopConverts(val);
    assert Pow10(4) == 10000 && Pow16(4) == 0x1_0000;
    BcdFits(val % 10000, 4);
  }

  /** Nibble k of the loop's result is decimal digit k, for the four digits it keeps. */
  lemma LoopNibbleIsDigit(val: nat, k: nat)
    requires k < 4
    ensures Nibble(Dec2BcdFrom(val, 0), k) == Digit(val, k)
  {
    LoopConverts(val);
    NibbleIsDigit(val % 10000, k);
    assert Pow10(4) == 10000;
    LowDigits(val, 4, k);
  }

  lemma FirstNibbles(r: nat)
    ensures Nibble(r, 0) == r % 16 && Nibble(r, 1) == r / 16 % 16
    ensures Nibble(r, 2) == r / 16 / 16 % 16 && Nibble(r, 3) == r / 16 / 16 / 16 % 16
  {
    assert Nibble(r, 3) == Nibble(r / 16, 2) && Nibble(r / 16, 2) == Nibble(r / 16 / 16, 1);
  }

  /** n digits fit n nibbles. */
  lemma {:induction false} BcdFits(m: nat, n: nat)
    requires m < Pow10(n)
    ensures Dec2BcdR(m) < Pow16(n)
    decreases n
  {
    if n > 0 {
      BcdFits(m / 10, n - 1);
    }
  }

  /** Dropping what is above the n-th digit leaves the lower digits alone. */
  lemma {:induction false} LowDigits(v: nat, n: nat, k: nat)
    requires k < n
    ensures Digit(v % Pow10(n), k) == Digit(v, k)
    decreases k
  {
    var low := v % Pow10(n);
    DropDigit(v, Pow10(n - 1), Pow10(n));
    assert low % 10 == v % 10 && low / 10 == v / 10 % Pow10(n - 1);
    if k > 0 {
      LowDigits(v / 10, n - 1, k - 1);
    }
  }

  /** n digits of a number, highest first, spell what it leaves modulo 10^n. */
  lemma {:induction false} SpelledDigits(v: nat, ds: seq<int>)
    requires forall k :: 0 <= k < |ds| ==> ds[k] == Digit(v, |ds| - 1 - k)
    ensures Spelled(ds) == v % Pow10(|ds|)
    decreases |ds|
  {
    if ds != [] {
      var n := |ds| - 1;
      assert forall k :: 0 <= k < n ==> ds[..n][k] == Digit(v / 10, n - 1 - k);
      SpelledDigits(v / 10, ds[..n]);
      DropDigit(v, Pow10(n), Pow10(n + 1));
    }
  }

  lemma SpelledFour(val: Word, ds: seq<int>)
    requires |ds| == (if val < 100 then 2 else if val < 1000 then 3 else 4)
    requires forall k :: 0 <= k < |ds| ==> ds[k] == Digit(val, |ds| - 1 - k)
    ensures Spelled(ds) == val % 10000
  {
    SpelledDigits(val, ds);
    assert Pow10(2) == 100 && Pow10(3) == 1000 && Pow10(4) == 10000;
  }
}
