// The format-driven scanner minmea_scan of thread_io/minmea.c.

module NmeaScan {
  import opened Arithmetic
  import opened NmeaText
  import opened NmeaDecimal

  // Directives of a format.
  const CHARACTER: Chr := 0x63   // c
  const DIRECTION: Chr := 0x64   // d
  const FLOAT: Chr := 0x66       // f
  const INTEGER: Chr := 0x69     // i
  const STRING: Chr := 0x73      // s
  const IDENTIFIER: Chr := 0x74  // t
  const DATE: Chr := 0x44        // D
  const TIME: Chr := 0x54        // T
  const IGNORE: Chr := 0x5F      // _
  const OPTIONAL: Chr := 0x3B    // ;

  // Directions.
  const NORTH: Chr := 0x4E
  const EAST: Chr := 0x45
  const SOUTH: Chr := 0x53
  const WEST: Chr := 0x57

  /** What a directive stores through its argument. */
  datatype Value =
    | Character(c: Byte)
    | Integer(i: int)
    | Float(value: int, scale: int)
    | Text(text: CString)
    | Date(day: int, month: int, year: int)
    | Time(hours: int, minutes: int, seconds: int, microseconds: int)

  /** Undefined is the overflow of a scale in 'f' (see NmeaDecimal). */
  datatype Parsed = Stored(vs: seq<Value>) | ParseError | Undefined

  /** The outcome of a scan, with the values stored up to its end. */
  datatype Outcome = Done(vs: seq<Value>) | Failed(vs: seq<Value>) | Broken

  /** The `field` pointer: NULL, or the text it points to, to the end of the sentence. */
  datatype Field = Null | Rest(t: CString)

  /** How many field characters t begins with. */
  function FieldLength(t: CString): (n: nat)
    ensures n <= |t| && !IsField(At(t, n)) && forall k :: 0 <= k < n ==> IsField(t[k])
  {
    if t != [] && IsField(t[0]) then 1 + FieldLength(t[1..]) else 0
  }

  /** next_field() */
  function Next(f: Field): Field {
    match f
    case Null => Null
    case Rest(t) =>
      var n := FieldLength(t);
      if At(t, n) == COMMA then Rest(t[n + 1..]) else Null
  }

  // ---------- the directives ----------

  function ParseCharacter(f: Field): Parsed {
    Stored([Character(if f.Rest? && IsField(At(f.t, 0)) then f.t[0] else NUL)])
  }

  function ParseDirection(f: Field): Parsed {
    if f.Null? || !IsField(At(f.t, 0)) then Stored([Integer(0)])
    else if f.t[0] in [NORTH, EAST] then Stored([Integer(1)])
    else if f.t[0] in [SOUTH, WEST] then Stored([Integer(-1)])
    else ParseError
  }

  function ParseFloat(f: Field): Parsed {
    match (if f.Null? then Number(0, 0) else Read(f.t, 0, -1, 0))
    case Number(value, scale) => Stored([Float(value, scale)])
    case Bad => ParseError
    case ScaleOverflow => Undefined
  }

  predicate IsSpace(c: Byte) { c == SPACE || 0x09 <= c <= 0x0D }

  function SpaceLength(t: CString): (n: nat)
    ensures n <= |t| && !IsSpace(At(t, n)) && forall k :: 0 <= k < n ==> IsSpace(t[k])
  {
    if t != [] && IsSpace(t[0]) then 1 + SpaceLength(t[1..]) else 0
  }

  /** How many digits t begins with. */
  function DigitLength(t: CString): (n: nat)
    ensures n <= |t|
  {
    if t != [] && IsDigit(t[0]) then 1 + DigitLength(t[1..]) else 0
  }

  lemma {:induction false} DigitsAreDigits(t: CString)
    ensures AllDigits(t[..DigitLength(t)]) && !IsDigit(At(t, DigitLength(t)))
  {
    if t != [] && IsDigit(t[0]) {
      DigitsAreDigits(t[1..]);
      assert t[..DigitLength(t)] == [t[0]] + t[1..][..DigitLength(t[1..])];
    }
  }

  function Digits(t: CString): (ds: CString)
    ensures AllDigits(ds) && |ds| == DigitLength(t)
  {
    DigitsAreDigits(t);
    t[..DigitLength(t)]
  }

  /** A 32-bit long saturates. */
  function Clamp(x: int): int {
    if x > INT32_MAX then INT32_MAX else if x < -0x8000_0000 then -0x8000_0000 else x
  }

  /** How many characters an optional sign takes, and its value. */
  function SignLength(c: Byte): nat {
    if c == PLUS || c == MINUS then 1 else 0
  }

  function SignValue(c: Byte): int {
    if c == MINUS then -1 else 1
  }

  /** strtol(t, &end, 10): the value, and how many characters it took; none if there is no number. */
  function Strtol(t: CString): (r: (int, nat))
    ensures r.1 <= |t|
  {
    var start := SpaceLength(t);
    StrtolDigits(t, start + SignLength(At(t, start)), SignValue(At(t, start)))
  }

  function StrtolDigits(t: CString, from: nat, sign: int): (r: (int, nat))
    requires from <= |t|
    ensures r.1 <= |t|
  {
    var ds := Digits(t[from..]);
    if ds == [] then (0, 0) else (Clamp(sign * Val(ds)), from + |ds|)
  }

  function ParseInteger(f: Field): Parsed {
    if f.Null? then Stored([Integer(0)])
    else if IsField(At(f.t, Strtol(f.t).1)) then ParseError
    else Stored([Integer(Strtol(f.t).0)])
  }

  function ParseText(f: Field): Parsed {
    Stored([Text(if f.Null? then [] else f.t[..FieldLength(f.t)])])
  }

  function ParseIdentifier(f: Field): Parsed {
    if f.Null? || At(f.t, 0) != DOLLAR || FieldLength(f.t) < 6 then ParseError
    else Stored([Text(f.t[1..6])])
  }

  function ParseDate(f: Field): Parsed {
    if f.Null? || !IsField(At(f.t, 0)) then Stored([Date(-1, -1, -1)])
    else if DigitLength(f.t) < 6 then ParseError
    else Stored([Date(Pair(f.t, 0), Pair(f.t, 2), Pair(f.t, 4))])
  }

  /** The two-digit number at offset i. */
  function Pair(t: CString, i: nat): int
    requires i + 2 <= DigitLength(t)
  {
    10 * DigitValue(Digits(t)[i]) + DigitValue(Digits(t)[i + 1])
  }

  /** A fraction of a second in microseconds: six digits count, missing ones are zeros. */
  function Microseconds(t: CString): int {
    var ds := Digits(t);
    var k := if |ds| < 6 then |ds| else 6;
    Val(ds[..k]) * Pow10(6 - k)
  }

  function ParseTime(f: Field): Parsed {
    if f.Null? || !IsField(At(f.t, 0)) then Stored([Time(-1, -1, -1, -1)])
    else if DigitLength(f.t) < 6 then ParseError
    else
      var u := if At(f.t, 6) == DOT then Microseconds(f.t[7..]) else 0;
      Stored([Time(Pair(f.t, 0), Pair(f.t, 2), Pair(f.t, 4), u)])
  }

  function Parse(directive: Chr, f: Field): Parsed {
    if directive == CHARACTER then ParseCharacter(f)
    else if directive == DIRECTION then ParseDirection(f)
    else if directive == FLOAT then ParseFloat(f)
    else if directive == INTEGER then ParseInteger(f)
    else if directive == STRING then ParseText(f)
    else if directive == IDENTIFIER then ParseIdentifier(f)
    else if directive == DATE then ParseDate(f)
    else if directive == TIME then ParseTime(f)
    else if directive == IGNORE then Stored([])
    else ParseError
  }

  function Prepend(vs: seq<Value>, o: Outcome): Outcome {
    match o
    case Done(ws) => Done(vs + ws)
    case Failed(ws) => Failed(vs + ws)
    case Broken => Broken
  }

  /** The rest of a scan, from a directive on. */
  function ScanFrom(f: Field, format: CString, optional: bool): Outcome
    decreases |format|
  {
    if format == [] then Done([])
    else if format[0] == OPTIONAL then ScanFrom(f, format[1..], true)
    else if f.Null? && !optional then Failed([])
    else
      match Parse(format[0], f)
      case ParseError => Failed([])
      case Undefined => Broken
      case Stored(vs) => Prepend(vs, ScanFrom(Next(f), format[1..], optional))
  }

  // ---------- the loops ----------

  lemma FieldStep(s: CString, i: nat)
    requires i < |s| && IsField(s[i])
    ensures FieldLength(s[i..]) == 1 + FieldLength(s[i + 1..])
  {
    assert s[i..][1..] == s[i + 1..];
  }

  lemma DigitStep(s: CString, i: nat)
    requires i <= |s|
    ensures DigitLength(s[i..]) == if IsDigit(At(s, i)) then 1 + DigitLength(s[i + 1..]) else 0
  {
    if i < |s| {
      assert s[i..][1..] == s[i + 1..];
    }
  }

  /** The pointer variables of the scanner. */
  datatype Pointer = Nil | To(i: nat)

  function Target(s: CString, p: Pointer): Field
    requires p.To? ==> p.i <= |s|
  {
    if p.Nil? then Null else Rest(s[p.i..])
  }

  /** next_field(), which moves `sentence` and sets `field`. */
  method NextField(s: CString, from: nat) returns (sentence: nat, field: Pointer)
    requires from <= |s|
    ensures from <= sentence <= |s| && (field.To? ==> field.i == sentence)
    ensures Target(s, field) == Next(Rest(s[from..]))
    ensures field.Nil? ==> Next(Rest(s[sentence..])) == Null
  {
    sentence := from;
    while IsField(At(s, sentence))
      invariant from <= sentence <= |s|
      invariant FieldLength(s[from..]) == sentence - from + FieldLength(s[sentence..])
      decreases |s| - sentence
    {
      FieldStep(s, sentence);
      sentence := sentence + 1;
    }
    assert FieldLength(s[sentence..]) == 0;
    if At(s, sentence) == COMMA {
      sentence := sentence + 1;
      field := To(sentence);
      assert s[from..][sentence - from..] == s[sentence..];
    } else {
      field := Nil;
    }
  }

  lemma AtOffset(s: CString, start: nat, k: nat)
    requires start <= |s|
    ensures At(s[start..], k) == At(s, start + k)
  {
  }

  method ReadText(s: CString, start: nat) returns (buf: CString)
    requires start <= |s|
    ensures buf == s[start..][..FieldLength(s[start..])]
  {
    ghost var t := s[start..];
    var field := start;
    buf := [];
    AtOffset(s, start, 0);
    while IsField(At(s, field))
      invariant start <= field <= |s| && field - start <= FieldLength(t)
      invariant At(t, field - start) == At(s, field)
      invariant buf == t[..field - start]
      decreases |s| - field
    {
      ghost var k := field - start;
      assert t[..k + 1] == t[..k] + [s[field]];
      buf := buf + [s[field]];
      field := field + 1;
      AtOffset(s, start, k + 1);
    }
  }

  method ReadIdentifier(s: CString, field: nat) returns (p: Parsed)
    requires field <= |s|
    ensures p == ParseIdentifier(Rest(s[field..]))
  {
    ghost var t := s[field..];
    AtOffset(s, field, 0);
    if At(s, field) != DOLLAR {
      return ParseError;
    }
    for f := 0 to 5
      invariant FieldLength(t) >= 1 + f
    {
      AtOffset(s, field, 1 + f);
      if !IsField(At(s, field + 1 + f)) {
        return ParseError;
      }
    }
    assert t[1..6] == s[field + 1..field + 6];
    return Stored([Text(s[field + 1..field + 6])]);
  }

  /** The loop both dates and times start with. */
  method SixDigits(s: CString, field: nat) returns (ok: bool)
    requires field <= |s|
    ensures ok <==> DigitLength(s[field..]) >= 6
  {
    for f := 0 to 6
      invariant field + f <= |s|
      invariant DigitLength(s[field..]) == f + DigitLength(s[field + f..])
    {
      DigitStep(s, field + f);
      if !IsDigit(At(s, field + f)) {
        return false;
      }
    }
    return true;
  }

  method ReadPair(s: CString, field: nat, offset: nat) returns (v: int)
    requires field <= |s| && offset + 2 <= DigitLength(s[field..])
    ensures v == Pair(s[field..], offset)
  {
    ghost var ds := Digits(s[field..]);
    assert s[field + offset] == ds[offset] && s[field + offset + 1] == ds[offset + 1];
    v := 10 * DigitValue(s[field + offset]) + DigitValue(s[field + offset + 1]);
  }

  method ReadDate(s: CString, field: nat) returns (p: Parsed)
    requires field <= |s|
    ensures p == ParseDate(Rest(s[field..]))
  {
    if !IsField(At(s, field)) {
      return Stored([Date(-1, -1, -1)]);
    }
    var ok := SixDigits(s, field);
    if !ok {
      return ParseError;
    }
    var d := ReadPair(s, field, 0);
    var m := ReadPair(s, field, 2);
    var y := ReadPair(s, field, 4);
    return Stored([Date(d, m, y)]);
  }

  /** The fraction of a time; value * scale stays below a million. */
  method ReadMicroseconds(s: CString, start: nat) returns (u: int)
    requires start <= |s|
    ensures u == Microseconds(s[start..]) && 0 <= u < 1_000_000
  {
    ghost var ds := Digits(s[start..]);
    assert Pow10(6) == 1_000_000;
    var field, value, scale := start, 0, 1_000_000;
    while IsDigit(At(s, field)) && scale > 1
      invariant start <= field <= |s|
      invariant field - start <= 6 && field - start + DigitLength(s[field..]) == |ds|
      invariant scale == Pow10(6 - (field - start)) && value == Val(ds[..field - start])
      decreases |s| - field
    {
      DigitStep(s, field);
      assert s[field] == ds[field - start];
      ValAt(ds, field - start);
      value := 10 * value + DigitValue(s[field]);
      scale := scale / 10;
      field := field + 1;
    }
    DigitStep(s, field);
    MicrosecondsRange(ds[..field - start]);
    u := value * scale;
  }

  lemma ValAt(ds: CString, k: nat)
    requires AllDigits(ds) && k < |ds|
    ensures Val(ds[..k + 1]) == 10 * Val(ds[..k]) + DigitValue(ds[k])
  {
    assert ds[..k + 1] == ds[..k] + [ds[k]];
    ValNext(ds[..k], ds[k]);
  }

  lemma MicrosecondsRange(ds: CString)
    requires AllDigits(ds) && |ds| <= 6
    ensures 0 <= Val(ds) * Pow10(6 - |ds|) < 1_000_000
  {
    assert [] + ds == ds;
    ValSplits([], ds);
    BelowMillion(Val(ds), |ds|);
  }

  lemma BelowMillion(v: int, k: nat)
    requires k <= 6 && 0 <= v < Pow10(k)
    ensures 0 <= v * Pow10(6 - k) < 1_000_000
  {
    if k <= 3 {
      assert Pow10(k) == if k == 0 then 1 else if k == 1 then 10 else if k == 2 then 100 else 1_000;
      assert Pow10(3) == 1_000 && Pow10(4) == 10_000 && Pow10(5) == 100_000 && Pow10(6) == 1_000_000;
      assert Pow10(6 - k) == if k == 0 then 1_000_000 else if k == 1 then 100_000 else if k == 2 then 10_000 else 1_000;
    } else {
      assert Pow10(4) == 10_000 && Pow10(5) == 100_000 && Pow10(6) == 1_000_000;
      assert Pow10(6 - k) == if k == 4 then 100 else if k == 5 then 10 else 1;
    }
  }

  method ReadTime(s: CString, field: nat) returns (p: Parsed)
    requires field <= |s|
    ensures p == ParseTime(Rest(s[field..]))
  {
    if !IsField(At(s, field)) {
      return Stored([Time(-1, -1, -1, -1)]);
    }
    var ok := SixDigits(s, field);
    if !ok {
      return ParseError;
    }
    var h := ReadPair(s, field, 0);
    var i := ReadPair(s, field, 2);
    var sec := ReadPair(s, field, 4);
    var u := 0;
    if At(s, field + 6) == DOT {
      u := ReadMicroseconds(s, field + 7);
      assert s[field..][7..] == s[field + 7..];
    }
    return Stored([Time(h, i, sec, u)]);
  }

  method ReadCharacter(s: CString, field: nat) returns (value: Byte)
    requires field <= |s|
    ensures Stored([Character(value)]) == ParseCharacter(Rest(s[field..]))
    ensures value == NUL <==> FieldLength(s[field..]) == 0
    ensures value != NUL ==> field < |s| && value == s[field]
  {
    value := NUL;
    if IsField(At(s, field)) {
      value := s[field];
    }
  }

  method ReadDirection(s: CString, field: nat) returns (p: Parsed)
    requires field <= |s|
    ensures p == ParseDirection(Rest(s[field..]))
    ensures p == Stored([Integer(1)]) <==> At(s, field) in [NORTH, EAST]
    ensures p == Stored([Integer(-1)]) <==> At(s, field) in [SOUTH, WEST]
    ensures p == Stored([Integer(0)]) <==> FieldLength(s[field..]) == 0
    ensures p == ParseError <==> FieldLength(s[field..]) > 0 && At(s, field) !in [NORTH, EAST, SOUTH, WEST]
  {
    var value := 0;
    if IsField(At(s, field)) {
      if s[field] == NORTH || s[field] == EAST {
        value := 1;
      } else if s[field] == SOUTH || s[field] == WEST {
        value := -1;
      } else {
        return ParseError;
      }
    }
    return Stored([Integer(value)]);
  }

  method ReadInteger(s: CString, field: nat) returns (p: Parsed)
    requires field <= |s|
    ensures p == ParseInteger(Rest(s[field..]))
  {
    var (value, taken) := Strtol(s[field..]);
    if IsField(At(s, field + taken)) {
      return ParseError;
    }
    return Stored([Integer(value)]);
  }

  /** The switch over one directive. */
  method ReadField(directive: Chr, s: CString, field: Pointer) returns (p: Parsed)
    requires field.To? ==> field.i <= |s|
    ensures p == Parse(directive, Target(s, field))
  {
    if field.Nil? {
      return Parse(directive, Null);
    }
    if directive == CHARACTER {
      var value := ReadCharacter(s, field.i);
      p := Stored([Character(value)]);
    } else if directive == DIRECTION {
      p := ReadDirection(s, field.i);
    } else if directive == INTEGER {
      p := ReadInteger(s, field.i);
    } else if directive == FLOAT {
      var d := Scan(s, field.i);
      match d {
        case Number(value, scale) => p := Stored([Float(value, scale)]);
        case Bad => p := ParseError;
        case ScaleOverflow => p := Undefined;
      }
    } else if directive == STRING {
      var buf := ReadText(s, field.i);
      p := Stored([Text(buf)]);
    } else if directive == IDENTIFIER {
      p := ReadIdentifier(s, field.i);
    } else if directive == DATE {
      p := ReadDate(s, field.i);
    } else if directive == TIME {
      p := ReadTime(s, field.i);
    } else if directive == IGNORE {
      p := Stored([]);
    } else {
      p := ParseError;
    }
  }

  lemma ScanAt(f: Field, format: CString, k: nat, optional: bool)
    requires k < |format|
    ensures ScanFrom(f, format[k..], optional)
            == if format[k] == OPTIONAL then ScanFrom(f, format[k + 1..], true)
               else if f.Null? && !optional then Failed([])
               else
                 match Parse(format[k], f)
                 case ParseError => Failed([])
                 case Undefined => Broken
                 case Stored(vs) => Prepend(vs, ScanFrom(Next(f), format[k + 1..], optional))
  {
    assert format[k..][1..] == format[k + 1..];
  }

  lemma PrependTwice(vs: seq<Value>, ws: seq<Value>, o: Outcome)
    ensures Prepend(vs, Prepend(ws, o)) == Prepend(vs + ws, o)
  {
    if !o.Broken? {
      assert vs + (ws + o.vs) == (vs + ws) + o.vs;
    }
  }

  /** minmea_scan */
  method ScanSentence(s: CString, format: CString) returns (o: Outcome)
    ensures o == ScanFrom(Rest(s), format, false)
  {
    var sentence, field, optional := 0, To(0), false;
    var stored: seq<Value> := [];
    for k := 0 to |format|
      invariant sentence <= |s| && (field.To? ==> field.i == sentence)
      invariant field.Nil? ==> Next(Rest(s[sentence..])) == Null
      invariant ScanFrom(Rest(s), format, false)
                == Prepend(stored, ScanFrom(Target(s, field), format[k..], optional))
    {
      ghost var f := Target(s, field);
      ScanAt(f, format, k, optional);
      if format[k] == OPTIONAL {
        optional := true;
        continue;
      }
      if field.Nil? && !optional {
        return Failed(stored);
      }
      var p := ReadField(format[k], s, field);
      match p {
        case ParseError => return Failed(stored);
        case Undefined => return Broken;
        case Stored(vs) =>
          PrependTwice(stored, vs, ScanFrom(Next(f), format[k + 1..], optional));
          stored := stored + vs;
      }
      sentence, field := NextField(s, sentence);
    }
    return Done(stored);
  }
}
