// What each directive of minmea_scan stores for a given field, and what a scan that succeeds has stored.

module NmeaValues {
  import opened Arithmetic
  import opened NmeaText
  import opened NmeaDecimal
  import opened NmeaScan
  import opened NmeaFields
  import NmeaChecksum

  // ---------- dates and times ----------

  lemma DigitsInFront(ds: CString, rest: CString)
    requires AllDigits(ds)
    ensures DigitLength(ds + rest) >= |ds| && Digits(ds + rest)[..|ds|] == ds
    decreases |ds|
  {
    if ds == [] {
      assert Digits(ds + rest)[..0] == [];
    } else {
      var t := ds + rest;
      assert t[1..] == ds[1..] + rest;
      DigitsInFront(ds[1..], rest);
      assert t[..|ds|] == ds;
    }
  }

  lemma TwoDigits(ds: CString, i: nat)
    requires AllDigits(ds) && i + 2 <= |ds|
    ensures AllDigits(ds[i..i + 2]) && Val(ds[i..i + 2]) == 10 * DigitValue(ds[i]) + DigitValue(ds[i + 1])
  {
    var pair := ds[i..i + 2];
    assert pair == ([] + [ds[i]]) + [ds[i + 1]];
    ValNext([], ds[i]);
    ValNext([] + [ds[i]], ds[i + 1]);
  }

  lemma PairIs(ds: CString, rest: CString, i: nat)
    requires AllDigits(ds) && i + 2 <= |ds|
    ensures i + 2 <= DigitLength(ds + rest) && Pair(ds + rest, i) == Val(ds[i..i + 2])
  {
    DigitsInFront(ds, rest);
    TwoDigits(ds, i);
    var all := Digits(ds + rest);
    assert all[i] == all[..|ds|][i] && all[i + 1] == all[..|ds|][i + 1];
  }

  lemma SixInFront(ds: CString, rest: CString)
    requires AllDigits(ds) && |ds| == 6
    ensures var t := ds + rest; IsField(At(t, 0)) && DigitLength(t) >= 6 && At(t, 6) == At(rest, 0)
  {
    DigitsInFront(ds, rest);
    DigitIsField(ds[0]);
  }

  /** 'D' on ddmmyy: day, month and year are the three numbers, in this order. */
  lemma DateStored(ds: CString, rest: CString)
    requires AllDigits(ds) && |ds| == 6
    ensures Parse(DATE, Rest(ds + rest)) == Stored([Date(Val(ds[..2]), Val(ds[2..4]), Val(ds[4..6]))])
  {
    SixInFront(ds, rest);
    PairIs(ds, rest, 0);
    PairIs(ds, rest, 2);
    PairIs(ds, rest, 4);
    assert ds[0..2] == ds[..2];
  }

  /** 'T' on hhmmss without a fraction: hours, minutes and seconds, in this order. */
  lemma TimeStored(ds: CString, rest: CString)
    requires AllDigits(ds) && |ds| == 6 && At(rest, 0) != DOT
    ensures Parse(TIME, Rest(ds + rest)) == Stored([Time(Val(ds[..2]), Val(ds[2..4]), Val(ds[4..6]), 0)])
  {
    SixInFront(ds, rest);
    PairIs(ds, rest, 0);
    PairIs(ds, rest, 2);
    PairIs(ds, rest, 4);
    assert ds[0..2] == ds[..2];
  }

  /** The microseconds of a fraction: its first six digits, with zeros behind them if it is shorter. */
  function SixPlaces(fs: CString): (ds: CString)
    requires AllDigits(fs)
    ensures |ds| == 6 && AllDigits(ds)
  {
    (fs + Zeros(6))[..6]
  }

  lemma {:induction false} ZerosInFront(n: nat, k: nat)
    requires k <= n
    ensures Zeros(n)[..k] == Zeros(k)
  {
    if k < n {
      ZerosInFront(n - 1, k);
      assert Zeros(n)[..k] == Zeros(n - 1)[..k];
    } else {
      assert Zeros(n)[..n] == Zeros(n);
    }
  }

  lemma {:induction false} ValZeros(n: nat)
    ensures Val(Zeros(n)) == 0
  {
    if n > 0 {
      ValZeros(n - 1);
      ValNext(Zeros(n - 1), ZERO);
    }
  }

  lemma NoPower()
    ensures Pow10(0) == 1
  {
  }

  lemma Padded(fs: CString)
    requires AllDigits(fs)
    ensures var k := if |fs| < 6 then |fs| else 6; Val(SixPlaces(fs)) == Val(fs[..k]) * Pow10(6 - k)
  {
    hide Val, Zeros, Pow10;
    if |fs| >= 6 {
      assert SixPlaces(fs) == fs[..6];
      NoPower();
    } else {
      var k := 6 - |fs|;
      assert SixPlaces(fs) == fs + Zeros(6)[..k] && fs[..|fs|] == fs;
      ZerosInFront(6, k);
      ValZeros(k);
      ValSplits(fs, Zeros(k));
    }
  }

  lemma MicrosecondsAre(fs: CString, rest: CString)
    requires AllDigits(fs) && !IsDigit(At(rest, 0))
    ensures Microseconds(fs + rest) == Val(SixPlaces(fs))
  {
    hide Val, Pow10, SixPlaces;
    DigitsCounted(fs, rest);
    Padded(fs);
  }

  /** 'T' on hhmmss.frac: the fraction counts in microseconds. */
  lemma TimeWithFraction(ds: CString, fs: CString, rest: CString)
    requires AllDigits(ds) && |ds| == 6 && AllDigits(fs) && !IsDigit(At(rest, 0))
    ensures Parse(TIME, Rest(ds + ([DOT] + (fs + rest))))
            == Stored([Time(Val(ds[..2]), Val(ds[2..4]), Val(ds[4..6]), Val(SixPlaces(fs)))])
  {
    hide Val, Microseconds, SixPlaces, Pair, DigitLength, IsField;
    var more := [DOT] + (fs + rest);
    SixInFront(ds, more);
    PairIs(ds, more, 0);
    PairIs(ds, more, 2);
    PairIs(ds, more, 4);
    assert ds[0..2] == ds[..2];
    assert (ds + more)[7..] == fs + rest;
    MicrosecondsAre(fs, rest);
  }

  /** Both need six digits in front, and an empty field means "none". */
  lemma DateTimeOtherwise(t: CString)
    ensures FieldLength(t) == 0 ==>
              && Parse(DATE, Rest(t)) == Stored([Date(-1, -1, -1)])
              && Parse(TIME, Rest(t)) == Stored([Time(-1, -1, -1, -1)])
    ensures FieldLength(t) > 0 && DigitLength(t) < 6 ==>
              Parse(DATE, Rest(t)) == ParseError && Parse(TIME, Rest(t)) == ParseError
  {
  }

  // ---------- the other directives ----------

  /** A field in front of whatever ends it. */
  lemma InFront(w: CString, rest: CString)
    requires IsWhole(w) && EndsField(rest)
    ensures FieldLength(w + rest) == |w| && (w + rest)[..|w|] == w
    ensures At(w + rest, 0) == if w == [] then At(rest, 0) else w[0]
  {
    WholePrefix(w, rest);
  }

  /** 's' stores the field, 'c' its first character, '_' nothing. */
  lemma TextStored(w: CString, rest: CString)
    requires IsWhole(w) && EndsField(rest)
    ensures Parse(STRING, Rest(w + rest)) == Stored([Text(w)])
    ensures Parse(CHARACTER, Rest(w + rest)) == Stored([Character(if w == [] then NUL else w[0])])
    ensures Parse(IGNORE, Rest(w + rest)) == Stored([])
  {
    InFront(w, rest);
    EndIsNoField(rest);
  }

  /** 'd' stores 1 for N and E, -1 for S and W and 0 for an empty field, by the first character. */
  lemma DirectionStored(w: CString, rest: CString)
    requires IsWhole(w) && EndsField(rest)
    ensures Parse(DIRECTION, Rest(w + rest))
            == if w == [] then Stored([Integer(0)])
               else if w[0] == NORTH || w[0] == EAST then Stored([Integer(1)])
               else if w[0] == SOUTH || w[0] == WEST then Stored([Integer(-1)])
               else ParseError
  {
    InFront(w, rest);
    EndIsNoField(rest);
  }

  /** 't' stores the five characters behind a '$', and fails on any other field. */
  lemma IdentifierStored(w: CString, rest: CString)
    requires IsWhole(w) && EndsField(rest)
    ensures Parse(IDENTIFIER, Rest(w + rest))
            == if |w| >= 6 && w[0] == DOLLAR then Stored([Text(w[1..6])]) else ParseError
  {
    InFront(w, rest);
    EndIsNoField(rest);
    if |w| >= 6 {
      assert (w + rest)[1..6] == w[1..6];
    }
  }

  /** 'f' and 'i' store the numbers that ParsesNumeral and ParsesInteger are about. */
  lemma NumbersStored(t: CString)
    ensures Read(t, 0, -1, 0).Number? ==>
              Parse(FLOAT, Rest(t)) == Stored([Float(Read(t, 0, -1, 0).value, Read(t, 0, -1, 0).scale)])
    ensures Read(t, 0, -1, 0).Bad? ==> Parse(FLOAT, Rest(t)) == ParseError
    ensures Read(t, 0, -1, 0).ScaleOverflow? ==> Parse(FLOAT, Rest(t)) == Undefined
    ensures Parse(INTEGER, Rest(t)) == ParseInteger(Rest(t))
  {
  }

  /** What an optional field that is missing stores; 't' has no such value. */
  lemma MissingField()
    ensures Parse(CHARACTER, Null) == Stored([Character(NUL)])
    ensures Parse(DIRECTION, Null) == Stored([Integer(0)]) && Parse(INTEGER, Null) == Stored([Integer(0)])
    ensures Parse(FLOAT, Null) == Stored([Float(0, 0)]) && Parse(STRING, Null) == Stored([Text([])])
    ensures Parse(DATE, Null) == Stored([Date(-1, -1, -1)]) && Parse(TIME, Null) == Stored([Time(-1, -1, -1, -1)])
    ensures Parse(IDENTIFIER, Null) == ParseError && Parse(IGNORE, Null) == Stored([])
  {
  }

  // ---------- whole scans ----------

  /** How many values a format stores: one for each directive but ';' and '_'. */
  function Stores(format: CString): nat {
    if format == [] then 0
    else (if format[0] == OPTIONAL || format[0] == IGNORE then 0 else 1) + Stores(format[1..])
  }

  lemma OneValue(directive: Chr, f: Field)
    requires Parse(directive, f).Stored?
    ensures |Parse(directive, f).vs| == if directive == IGNORE then 0 else 1
  {
  }

  /** A scan that succeeds has stored a value for every directive that stores one, a scan that fails
      no more than these. */
  lemma {:induction false} StoresAll(f: Field, format: CString, optional: bool)
    ensures var o := ScanFrom(f, format, optional);
            (o.Done? ==> |o.vs| == Stores(format)) && (o.Failed? ==> |o.vs| <= Stores(format))
    decreases |format|
  {
    if format != [] {
      if format[0] == OPTIONAL {
        StoresAll(f, format[1..], true);
      } else if f.Rest? || optional {
        var p := Parse(format[0], f);
        if p.Stored? {
          OneValue(format[0], f);
          StoresAll(Next(f), format[1..], optional);
        }
      }
    }
  }

  /** The first directive decides: it has to store, or the scan ends without a value. */
  lemma FirstDirective(f: Field, format: CString, optional: bool)
    requires format != [] && format[0] != OPTIONAL
    ensures
      var o, p := ScanFrom(f, format, optional), Parse(format[0], f);
      && (f.Null? && !optional ==> o == Failed([]))
      && ((f.Rest? || optional) && p.ParseError? ==> o == Failed([]))
      && (o.Done? ==> p.Stored? && p.vs <= o.vs && o.vs[|p.vs|..] == ScanFrom(Next(f), format[1..], optional).vs)
  {
  }

  // ---------- the baud rate request, read back ----------

  /** What the host's choice stands for. */
  function Rate(baudrate: int): nat {
    match baudrate case 1 => 9600 case 2 => 19200 case 3 => 38400 case _ => 4800
  }

  lemma ValOfFour(a: Chr, b: Chr, c: Chr, d: Chr)
    requires IsDigit(a) && IsDigit(b) && IsDigit(c) && IsDigit(d)
    ensures AllDigits([a, b, c, d])
    ensures Val([a, b, c, d])
            == 1000 * DigitValue(a) + 100 * DigitValue(b) + 10 * DigitValue(c) + DigitValue(d)
  {
    assert [] + [a] == [a] && [a] + [b] == [a, b] && [a, b] + [c] == [a, b, c] && [a, b, c] + [d] == [a, b, c, d];
    ValNext([], a);
    ValNext([a], b);
    ValNext([a, b], c);
    ValNext([a, b, c], d);
  }

  lemma ValOfFive(a: Chr, b: Chr, c: Chr, d: Chr, e: Chr)
    requires IsDigit(a) && IsDigit(b) && IsDigit(c) && IsDigit(d) && IsDigit(e)
    ensures AllDigits([a, b, c, d, e])
    ensures Val([a, b, c, d, e]) == 10 * Val([a, b, c, d]) + DigitValue(e)
  {
    ValOfFour(a, b, c, d);
    assert [a, b, c, d] + [e] == [a, b, c, d, e];
    ValNext([a, b, c, d], e);
  }

  lemma JoinSix(a: CString, b: CString, c: CString, d: CString, e: CString, f: CString)
    ensures Join([a, b, c, d, e, f]) == a + ([COMMA] + (b + ([COMMA] + (c + ([COMMA] + (d + ([COMMA]
                                        + (e + ([COMMA] + f)))))))))
  {
    assert [a] + [b, c, d, e, f] == [a, b, c, d, e, f];
    assert [b] + [c, d, e, f] == [b, c, d, e, f];
    assert [c] + [d, e, f] == [c, d, e, f];
    assert [d] + [e, f] == [d, e, f];
    assert [e] + [f] == [e, f];
    JoinCons(e, [f]);
    JoinCons(d, [e, f]);
    JoinCons(c, [d, e, f]);
    JoinCons(b, [c, d, e, f]);
    JoinCons(a, [b, c, d, e, f]);
  }

  const PSRF100: CString := [0x50, 0x53, 0x52, 0x46, 0x31, 0x30, 0x30]

  /** The digits of the rate. */
  function RateDigits(baudrate: int): CString {
    match baudrate
    case 1 => [0x39, 0x36, 0x30, 0x30]
    case 2 => [0x31, 0x39, 0x32, 0x30, 0x30]
    case 3 => [0x33, 0x38, 0x34, 0x30, 0x30]
    case _ => [0x34, 0x38, 0x30, 0x30]
  }

  lemma RateDigitsAre(baudrate: int)
    ensures AllDigits(RateDigits(baudrate)) && Val(RateDigits(baudrate)) == Rate(baudrate)
  {
    match baudrate {
      case 1 => ValOfFour(0x39, 0x36, 0x30, 0x30);
      case 2 => ValOfFour(0x31, 0x39, 0x32, 0x30); ValOfFive(0x31, 0x39, 0x32, 0x30, 0x30);
      case 3 => ValOfFour(0x33, 0x38, 0x34, 0x30); ValOfFive(0x33, 0x38, 0x34, 0x30, 0x30);
      case _ => ValOfFour(0x34, 0x38, 0x30, 0x30);
    }
  }

  /** The request's fields: the message's name, protocol 1, the rate, 8 data bits, 1 stop bit, no parity. */
  lemma BaudFields(baudrate: int)
    ensures Split(NmeaChecksum.BaudRequest(baudrate))
            == [PSRF100, [0x31], RateDigits(baudrate), [0x38], [0x31], [0x30]]
    ensures AllDigits(RateDigits(baudrate)) && Val(RateDigits(baudrate)) == Rate(baudrate)
  {
    hide Split, Join, Val;
    RateDigitsAre(baudrate);
    var rate := RateDigits(baudrate);
    var fs := [PSRF100, [0x31], rate, [0x38], [0x31], [0x30]];
    JoinSix(PSRF100, [0x31], rate, [0x38], [0x31], [0x30]);
    assert Join(fs) == NmeaChecksum.BaudRequest(baudrate);
    assert Join(fs) + [] == Join(fs);
    SplitOfJoin(fs, []);
  }
}
