// What minmea_scan does in terms of the comma-separated fields of the sentence.

module NmeaFields {
  import opened NmeaText
  import opened NmeaDecimal
  import opened NmeaScan

  predicate IsWhole(w: CString) { forall k :: 0 <= k < |w| ==> IsField(w[k]) }

  predicate AllWhole(fs: seq<CString>) { forall j :: 0 <= j < |fs| ==> IsWhole(fs[j]) }

  /** A sentence's text ends before the first character that is neither a field character nor a comma. */
  predicate EndsText(rest: CString) {
    rest != [] ==> !IsField(rest[0]) && rest[0] != COMMA
  }

  /** The comma-separated fields of the text that t begins with. */
  function Split(t: CString): (fs: seq<CString>)
    ensures fs != []
    decreases |t|
  {
    var n := FieldLength(t);
    [t[..n]] + if At(t, n) == COMMA then Split(t[n + 1..]) else []
  }

  /** What follows that text. */
  function After(t: CString): CString
    decreases |t|
  {
    var n := FieldLength(t);
    if At(t, n) == COMMA then After(t[n + 1..]) else t[n..]
  }

  function Join(fs: seq<CString>): CString
    requires fs != []
  {
    if |fs| == 1 then fs[0] else fs[0] + ([COMMA] + Join(fs[1..]))
  }

  lemma {:induction false} WholePrefix(w: CString, t: CString)
    requires IsWhole(w) && (t != [] ==> !IsField(t[0]))
    ensures FieldLength(w + t) == |w|
  {
    if w == [] {
      assert w + t == t;
    } else {
      assert (w + t)[1..] == w[1..] + t;
      WholePrefix(w[1..], t);
    }
  }

  /** A whole field in front of a comma is what a text's first field is. */
  lemma FirstField(w: CString, more: CString)
    requires IsWhole(w)
    ensures var t := w + ([COMMA] + more);
            FieldLength(t) == |w| && At(t, |w|) == COMMA && t[..|w|] == w && t[|w| + 1..] == more
  {
    WholePrefix(w, [COMMA] + more);
  }

  /** Split is the inverse of Join, whatever ends the text. */
  lemma {:induction false} SplitOfJoin(fs: seq<CString>, rest: CString)
    requires fs != [] && AllWhole(fs) && EndsText(rest)
    ensures Split(Join(fs) + rest) == fs && After(Join(fs) + rest) == rest
    decreases |fs|
  {
    if |fs| == 1 {
      WholePrefix(fs[0], rest);
      assert (fs[0] + rest)[|fs[0]|..] == rest;
    } else {
      var more := Join(fs[1..]) + rest;
      assert Join(fs) + rest == fs[0] + ([COMMA] + more);
      FirstField(fs[0], more);
      SplitOfJoin(fs[1..], rest);
    }
  }

  lemma CutAtComma(t: CString)
    requires At(t, FieldLength(t)) == COMMA
    ensures var n := FieldLength(t); t == t[..n] + ([COMMA] + t[n + 1..])
  {
  }

  lemma {:induction false} SplitIsWhole(t: CString)
    ensures AllWhole(Split(t)) && EndsText(After(t))
    decreases |t|
  {
    var n := FieldLength(t);
    assert IsWhole(t[..n]);
    if At(t, n) == COMMA {
      SplitIsWhole(t[n + 1..]);
    }
  }

  lemma Regroup(w: CString, joined: CString, rest: CString)
    ensures w + ([COMMA] + (joined + rest)) == (w + ([COMMA] + joined)) + rest
  {
  }

  lemma JoinCons(w: CString, fs: seq<CString>)
    requires fs != []
    ensures Join([w] + fs) == w + ([COMMA] + Join(fs))
  {
    assert ([w] + fs)[1..] == fs;
  }

  lemma {:induction false} JoinsBack(t: CString)
    ensures t == Join(Split(t)) + After(t)
    decreases |t|
  {
    var n := FieldLength(t);
    if At(t, n) == COMMA {
      var more := t[n + 1..];
      CutAtComma(t);
      JoinsBack(more);
      Regroup(t[..n], Join(Split(more)), After(more));
      JoinCons(t[..n], Split(more));
    } else {
      assert t == t[..n] + t[n..];
    }
  }

  /** Join is the inverse of Split: nothing of the text is lost. */
  lemma JoinOfSplit(t: CString)
    ensures t == Join(Split(t)) + After(t) && AllWhole(Split(t)) && EndsText(After(t))
  {
    JoinsBack(t);
    SplitIsWhole(t);
  }

  // ---------- every directive keeps to its field ----------

  /** The same directive applied to the bare field. */
  function Bare(f: Field): Field {
    match f case Null => Null case Rest(t) => Rest(t[..FieldLength(t)])
  }

  lemma BareLength(t: CString)
    ensures var n := FieldLength(t); FieldLength(t[..n]) == n && forall k :: 0 <= k < n ==> At(t[..n], k) == At(t, k)
  {
    var n := FieldLength(t);
    WholePrefix(t[..n], []);
    assert t[..n] + [] == t[..n];
  }

  lemma {:induction false} ReadKeepsToField(t: CString, sign: int, value: int, scale: int)
    requires -1 <= sign <= 1 && -1 <= value <= INT32_MAX && 0 <= scale <= INT32_MAX
    ensures Read(t[..FieldLength(t)], sign, value, scale) == Read(t, sign, value, scale)
    decreases |t|
  {
    var w := t[..FieldLength(t)];
    if w != [] {
      assert w[1..] == t[1..][..FieldLength(t[1..])];
      if t[0] == PLUS && sign == 0 && value == -1 {
        ReadKeepsToField(t[1..], 1, value, scale);
      } else if t[0] == MINUS && sign == 0 && value == -1 {
        ReadKeepsToField(t[1..], -1, value, scale);
      } else if IsDigit(t[0]) {
        var v := 10 * (if value == -1 then 0 else value) + DigitValue(t[0]);
        if v <= INT32_MAX && 10 * scale <= INT32_MAX {
          ReadKeepsToField(t[1..], sign, v, 10 * scale);
        }
      } else if t[0] == DOT && scale == 0 {
        ReadKeepsToField(t[1..], sign, value, 1);
      } else if t[0] == SPACE && sign == 0 && value == -1 && scale == 0 {
        ReadKeepsToField(t[1..], sign, value, scale);
      }
    }
  }

  lemma {:induction false} DigitsKeepToField(t: CString)
    ensures DigitLength(t) <= FieldLength(t) && Digits(t[..FieldLength(t)]) == Digits(t)
    decreases |t|
  {
    var n := FieldLength(t);
    if t != [] && IsDigit(t[0]) {
      DigitIsField(t[0]);
      DigitsKeepToField(t[1..]);
      assert t[..n][1..] == t[1..][..n - 1];
    }
  }

  lemma {:induction false} SpacesKeepToField(t: CString)
    ensures SpaceLength(t[..FieldLength(t)])
            == if SpaceLength(t) <= FieldLength(t) then SpaceLength(t) else FieldLength(t)
    decreases |t|
  {
    var n := FieldLength(t);
    if n > 0 && IsSpace(t[0]) {
      SpacesKeepToField(t[1..]);
      assert t[..n][1..] == t[1..][..n - 1];
    }
  }

  lemma DropTake<T>(s: seq<T>, n: nat, k: nat)
    requires k <= n <= |s|
    ensures s[..n][k..] == s[k..][..n - k]
  {
  }

  lemma DropDrop<T>(s: seq<T>, k: nat)
    requires 1 <= k <= |s|
    ensures s[1..][k - 1..] == s[k..]
  {
  }

  lemma {:induction false} SuffixLength(t: CString, k: nat)
    requires k <= FieldLength(t)
    ensures FieldLength(t[k..]) == FieldLength(t) - k
    decreases k
  {
    if k > 0 {
      SuffixLength(t[1..], k - 1);
      DropDrop(t, k);
    }
  }

  /** Dropping a part of a field leaves the rest of the field. */
  lemma FieldSuffix(t: CString, k: nat)
    requires k <= FieldLength(t)
    ensures FieldLength(t[k..]) == FieldLength(t) - k && t[..FieldLength(t)][k..] == t[k..][..FieldLength(t) - k]
  {
    SuffixLength(t, k);
    DropTake(t, FieldLength(t), k);
  }

  lemma SuffixDigits(t: CString, k: nat)
    requires k <= FieldLength(t)
    ensures Digits(t[..FieldLength(t)][k..]) == Digits(t[k..]) && k + |Digits(t[k..])| <= FieldLength(t)
  {
    FieldSuffix(t, k);
    DigitsKeepToField(t[k..]);
  }

  lemma StrtolDigitsKeep(t: CString, from: nat, sign: int)
    requires from <= FieldLength(t)
    ensures var r := StrtolDigits(t, from, sign);
            StrtolDigits(t[..FieldLength(t)], from, sign) == r && r.1 <= FieldLength(t)
  {
    SuffixDigits(t, from);
  }

  /** strtol behind its spaces, given the character there and where its digits begin. */
  lemma StrtolFrom(t: CString, c: Byte, from: nat, sign: int)
    requires c == At(t, SpaceLength(t)) && from == SpaceLength(t) + SignLength(c) && sign == SignValue(c)
    ensures from <= |t| && Strtol(t) == StrtolDigits(t, from, sign)
  {
  }

  /** strtol stays in a field that is not blank, and in a blank one that no white space follows. */
  lemma StrtolKeepsToField(t: CString)
    requires SpaceLength(t) <= FieldLength(t)
    ensures Strtol(t[..FieldLength(t)]) == Strtol(t) && Strtol(t).1 <= FieldLength(t)
  {
    var w, start := t[..FieldLength(t)], SpaceLength(t);
    var c, d := At(t, start), At(w, start);
    var from, sign := start + SignLength(c), SignValue(c);
    SpacesKeepToField(t);
    SameSign(t, start);
    StrtolFrom(t, c, from, sign);
    StrtolFrom(w, d, from, sign);
    StrtolDigitsKeep(t, from, sign);
  }

  /** A sign inside a field is seen without the rest too, and the field's end is no sign. */
  lemma SameSign(t: CString, k: nat)
    requires k <= FieldLength(t)
    ensures var c, d := At(t, k), At(t[..FieldLength(t)], k);
            && SignLength(d) == SignLength(c) && SignValue(d) == SignValue(c)
            && k + SignLength(c) <= FieldLength(t)
  {
  }

  lemma BlankHasNoNumber(t: CString)
    requires SpaceLength(t) > FieldLength(t)
    ensures Strtol(t[..FieldLength(t)]) == (0, 0)
  {
    var w := t[..FieldLength(t)];
    SpacesKeepToField(t);
    assert w[|w|..] == [];
    assert StrtolDigits(w, |w|, 1) == (0, 0);
  }

  /** Does an 'i' on the field that t begins with take a number from behind the field?  The field is
      blank, white space follows it, strtol finds digits there, and they make a difference: an empty
      field would give 0, a blank one that is not empty is an error. */
  predicate ReadsOn(t: CString) {
    && SpaceLength(t) > FieldLength(t)
    && Strtol(t).1 > 0
    && if FieldLength(t) == 0 then Strtol(t).0 != 0 || IsField(At(t, Strtol(t).1)) else !IsField(At(t, Strtol(t).1))
  }

  lemma FirstKeepsToField(t: CString)
    ensures ParseCharacter(Bare(Rest(t))) == ParseCharacter(Rest(t))
    ensures ParseDirection(Bare(Rest(t))) == ParseDirection(Rest(t))
    ensures ParseText(Bare(Rest(t))) == ParseText(Rest(t))
  {
    BareLength(t);
    assert t[..FieldLength(t)][..FieldLength(t)] == t[..FieldLength(t)];
  }

  lemma FloatKeepsToField(t: CString)
    ensures ParseFloat(Bare(Rest(t))) == ParseFloat(Rest(t))
  {
    ReadKeepsToField(t, 0, -1, 0);
  }

  lemma IntegerKeeps(t: CString)
    requires SpaceLength(t) <= FieldLength(t)
    ensures ParseInteger(Bare(Rest(t))) == ParseInteger(Rest(t))
  {
    var n := FieldLength(t);
    StrtolKeepsToField(t);
    SameAfter(t, Strtol(t).1);
  }

  /** Inside a field and at its end, field characters are the same with and without the rest. */
  lemma SameAfter(t: CString, k: nat)
    requires k <= FieldLength(t)
    ensures IsField(At(t[..FieldLength(t)], k)) == IsField(At(t, k))
  {
  }

  /** The exact condition for 'i'. */
  lemma IntegerKeepsIff(t: CString)
    ensures ParseInteger(Bare(Rest(t))) == ParseInteger(Rest(t)) <==> !ReadsOn(t)
  {
    if SpaceLength(t) <= FieldLength(t) {
      IntegerKeeps(t);
    } else {
      BlankHasNoNumber(t);
      SameAfter(t, 0);
    }
  }

  lemma IdentifierKeepsToField(t: CString)
    ensures ParseIdentifier(Bare(Rest(t))) == ParseIdentifier(Rest(t))
  {
    var n := FieldLength(t);
    BareLength(t);
    if n >= 6 {
      assert t[..n][1..6] == t[1..6];
    }
  }

  lemma DateKeepsToField(t: CString)
    ensures ParseDate(Bare(Rest(t))) == ParseDate(Rest(t))
  {
    BareLength(t);
    DigitsKeepToField(t);
  }

  lemma TimeKeepsToField(t: CString)
    ensures ParseTime(Bare(Rest(t))) == ParseTime(Rest(t))
  {
    var n := FieldLength(t);
    BareLength(t);
    DigitsKeepToField(t);
    if DigitLength(t) >= 6 && At(t, 6) == DOT {
      SuffixDigits(t, 7);
      assert Microseconds(t[..n][7..]) == Microseconds(t[7..]);
    }
  }

  /** Every directive looks at nothing outside its field, but for an 'i' that reads on. */
  lemma ParseKeepsToField(directive: Chr, f: Field)
    ensures Parse(directive, Bare(f)) == Parse(directive, f)
            <==> !(directive == INTEGER && f.Rest? && ReadsOn(f.t))
  {
    if f.Rest? {
      if directive == INTEGER {
        IntegerKeepsIff(f.t);
      } else {
        OthersKeepToField(directive, f.t);
      }
    }
  }

  lemma OthersKeepToField(directive: Chr, t: CString)
    requires directive != INTEGER
    ensures Parse(directive, Bare(Rest(t))) == Parse(directive, Rest(t))
  {
    FirstKeepsToField(t);
    FloatKeepsToField(t);
    IdentifierKeepsToField(t);
    DateKeepsToField(t);
    TimeKeepsToField(t);
  }

  // ---------- the scanner in terms of fields ----------

  /** What a scan means: the j-th directive other than ';' is given the j-th field. */
  function ScanFields(fs: seq<CString>, format: CString, optional: bool): Outcome
    decreases |format|
  {
    if format == [] then Done([])
    else if format[0] == OPTIONAL then ScanFields(fs, format[1..], true)
    else if fs == [] && !optional then Failed([])
    else
      match Parse(format[0], if fs == [] then Null else Rest(fs[0]))
      case ParseError => Failed([])
      case Undefined => Broken
      case Stored(vs) => Prepend(vs, ScanFields(if fs == [] then [] else fs[1..], format[1..], optional))
  }

  function Remaining(f: Field): seq<CString> {
    match f case Null => [] case Rest(t) => Split(t)
  }

  /** Does the scan reach an 'i' that reads on? */
  predicate Strays(f: Field, format: CString, optional: bool)
    decreases |format|
  {
    format != [] &&
    if format[0] == OPTIONAL then Strays(f, format[1..], true)
    else
      && f.Rest?
      && ((format[0] == INTEGER && ReadsOn(f.t))
          || (Parse(format[0], f).Stored? && Strays(Next(f), format[1..], optional)))
  }

  /** The exact condition under which the directives line up with the fields. */
  lemma {:induction false} ScansByFieldIff(f: Field, format: CString, optional: bool)
    ensures ScanFrom(f, format, optional) == ScanFields(Remaining(f), format, optional)
            <==> !Strays(f, format, optional)
    decreases |format|
  {
    if f.Null? {
      NullScan(format, optional);
    } else if format != [] {
      if format[0] == OPTIONAL {
        ScansByFieldIff(f, format[1..], true);
      } else {
        var p, q := Parse(format[0], f), Parse(format[0], Bare(f));
        var rest := ScanFrom(Next(f), format[1..], optional);
        var fields := ScanFields(Remaining(Next(f)), format[1..], optional);
        NextRemains(f);
        assert ScanFrom(f, format, optional) == Continue(p, rest);
        assert ScanFields(Remaining(f), format, optional) == Continue(q, fields);
        ParseKeepsToField(format[0], f);
        ScansByFieldIff(Next(f), format[1..], optional);
        if format[0] == INTEGER && ReadsOn(f.t) {
          LastReadsOn(f.t);
          NullScan(format[1..], optional);
          FirstDiffers(p, q, rest);
        } else {
          ContinueInjective(p, rest, fields);
        }
      }
    }
  }

  /** A field that 'i' reads on from is the last one. */
  lemma LastReadsOn(t: CString)
    requires ReadsOn(t)
    ensures Next(Rest(t)) == Null
  {
    assert IsSpace(t[FieldLength(t)]);
  }

  /** Behind the last field nothing is left to stray into. */
  lemma {:induction false} NullScan(format: CString, optional: bool)
    ensures ScanFrom(Null, format, optional) == ScanFields([], format, optional) != Broken
    ensures !Strays(Null, format, optional)
  {
    if format != [] {
      NullScan(format[1..], if format[0] == OPTIONAL then true else optional);
    }
  }

  /** What follows the first directive of a scan, given what it parsed. */
  function Continue(p: Parsed, rest: Outcome): Outcome {
    match p
    case ParseError => Failed([])
    case Undefined => Broken
    case Stored(vs) => Prepend(vs, rest)
  }

  /** Two integer fields that parse differently give different outcomes. */
  lemma FirstDiffers(p: Parsed, q: Parsed, rest: Outcome)
    requires p != q && rest != Broken
    requires (p == ParseError || (p.Stored? && |p.vs| == 1)) && (q == ParseError || (q.Stored? && |q.vs| == 1))
    ensures Continue(p, rest) != Continue(q, rest)
  {
    if p.Stored? && q.Stored? {
      assert p.vs[0] != q.vs[0];
      assert Continue(p, rest).vs[0] == p.vs[0] && Continue(q, rest).vs[0] == q.vs[0];
    } else if p.Stored? {
      assert |Continue(p, rest).vs| > 0;
    } else {
      assert |Continue(q, rest).vs| > 0;
    }
  }

  lemma ContinueInjective(p: Parsed, o: Outcome, r: Outcome)
    ensures Continue(p, o) == Continue(p, r) <==> !p.Stored? || o == r
  {
    if p.Stored? && Continue(p, o) == Continue(p, r) && !o.Broken? {
      assert o.vs == (p.vs + o.vs)[|p.vs|..] == (p.vs + r.vs)[|p.vs|..] == r.vs;
    }
  }

  /** The last field of a text, with what follows it. */
  function LastField(t: CString): CString
    decreases |t|
  {
    var n := FieldLength(t);
    if At(t, n) == COMMA then LastField(t[n + 1..]) else t
  }

  lemma {:induction false} StraysAtTheEnd(f: Field, format: CString, optional: bool)
    requires Strays(f, format, optional)
    ensures INTEGER in format && f.Rest? && ReadsOn(LastField(f.t))
    decreases |format|
  {
    if format[0] == OPTIONAL {
      StraysAtTheEnd(f, format[1..], true);
    } else if format[0] == INTEGER && ReadsOn(f.t) {
      LastReadsOn(f.t);
    } else {
      StraysAtTheEnd(Next(f), format[1..], optional);
    }
  }

  /** Main result: the directives line up with the fields, whenever the format has no 'i' or the
      text's last field is not a blank one that an 'i' would read on from. */
  lemma ScansByField(f: Field, format: CString, optional: bool)
    requires INTEGER in format && f.Rest? ==> !ReadsOn(LastField(f.t))
    ensures ScanFrom(f, format, optional) == ScanFields(Remaining(f), format, optional)
  {
    if Strays(f, format, optional) {
      StraysAtTheEnd(f, format, optional);
    }
    ScansByFieldIff(f, format, optional);
  }

  lemma NextRemains(f: Field)
    ensures f.Null? ==> Next(f) == Null
    ensures f.Rest? ==> Rest(Remaining(f)[0]) == Bare(f) && Remaining(Next(f)) == Remaining(f)[1..]
    ensures f.Rest? && Next(f).Rest? ==> After(Next(f).t) == After(f.t)
  {
  }

  // ---------- consequences ----------

  lemma {:induction false} SpacesCounted(n: nat, t: CString)
    requires !IsSpace(At(t, 0))
    ensures SpaceLength(Spaces(n) + t) == n
  {
    if n == 0 {
      assert Spaces(0) + t == t;
    } else {
      var s := Spaces(n) + t;
      assert s[0] == SPACE && s[1..] == Spaces(n - 1) + t;
      assert SpaceLength(s) == 1 + SpaceLength(s[1..]);
      SpacesCounted(n - 1, t);
    }
  }

  lemma {:induction false} DigitsCounted(ds: CString, t: CString)
    requires AllDigits(ds) && !IsDigit(At(t, 0))
    ensures DigitLength(ds + t) == |ds| && Digits(ds + t) == ds
  {
    if ds == [] {
      assert ds + t == t;
    } else {
      assert (ds + t)[1..] == ds[1..] + t;
      DigitsCounted(ds[1..], t);
    }
    assert (ds + t)[..|ds|] == ds;
  }

  /** Where the parts of a numeral lie: the digits stand from `from` to `end`. */
  lemma NumeralParts(t: CString, spaces: nat, g: Sign, ds: CString, rest: CString, from: nat, end: nat)
    requires AllDigits(ds) && ds != [] && t == Spaces(spaces) + (SignText(g) + (ds + rest))
    requires from == spaces + |SignText(g)| && end == from + |ds|
    ensures SpaceLength(t) == spaces && Begins(g, At(t, spaces))
    ensures from <= end <= |t| && t[from..] == ds + rest && At(t, end) == At(rest, 0)
  {
    var number := SignText(g) + (ds + rest);
    DigitIsField(ds[0]);
    BeginsNumber(g, ds, rest);
    SpacesCounted(spaces, number);
    assert t[spaces..] == number && number[|SignText(g)|..] == ds + rest;
    DropMore(t, spaces, |SignText(g)|);
  }

  lemma DropMore<T>(s: seq<T>, i: nat, k: nat)
    requires i + k <= |s|
    ensures s[i..][k..] == s[i + k..]
  {
  }

  lemma BeginsNumber(g: Sign, ds: CString, rest: CString)
    requires AllDigits(ds) && ds != []
    ensures var c := At(SignText(g) + (ds + rest), 0); Begins(g, c) && !IsSpace(c)
  {
    var number := SignText(g) + (ds + rest);
    DigitIsField(ds[0]);
    assert At(number, 0) == (match g case Unsigned => ds[0] case Plus => PLUS case Minus => MINUS);
  }

  function Signed(g: Sign, v: int): int {
    if g == Minus then -v else v
  }

  /** Can a numeral with this sign begin with c? */
  predicate Begins(g: Sign, c: Byte) {
    match g case Unsigned => IsDigit(c) case Plus => c == PLUS case Minus => c == MINUS
  }

  lemma SignOf(g: Sign, c: Byte)
    requires Begins(g, c)
    ensures SignLength(c) == |SignText(g)| && SignValue(c) == if g == Minus then -1 else 1
  {
  }

  lemma SignedProduct(g: Sign, v: int)
    ensures (if g == Minus then -1 else 1) * v == Signed(g, v)
  {
  }

  lemma StrtolSigned(t: CString, c: Byte, from: nat, sign: int, ds: CString, v: int)
    requires c == At(t, SpaceLength(t)) && from == SpaceLength(t) + SignLength(c) && sign == SignValue(c)
    requires from <= |t| && ds != [] && Digits(t[from..]) == ds && v == sign * Val(ds)
    ensures Strtol(t) == (Clamp(v), from + |ds|)
  {
    hide Val, SpaceLength, Digits, SignLength, SignValue, At, Strtol, Clamp;
    StrtolFrom(t, c, from, sign);
  }

  /** strtol on a text that has digits behind its spaces and sign. */
  lemma StrtolOf(t: CString, spaces: nat, g: Sign, ds: CString, from: nat)
    requires SpaceLength(t) == spaces && from == spaces + |SignText(g)| && from <= |t| && ds != []
    requires Digits(t[from..]) == ds && Begins(g, At(t, spaces))
    ensures Strtol(t) == (Clamp(Signed(g, Val(ds))), from + |ds|)
  {
    SignOf(g, At(t, spaces));
    SignedProduct(g, Val(ds));
    StrtolSigned(t, At(t, spaces), from, if g == Minus then -1 else 1, ds, Signed(g, Val(ds)));
  }

  lemma StrtolNumeral(t: CString, spaces: nat, g: Sign, ds: CString, rest: CString, from: nat, end: nat)
    requires AllDigits(ds) && ds != [] && EndsField(rest) && t == Spaces(spaces) + (SignText(g) + (ds + rest))
    requires from == spaces + |SignText(g)| && end == from + |ds|
    ensures Strtol(t) == (Clamp(Signed(g, Val(ds))), end) && !IsField(At(t, end))
  {
    hide Val, SpaceLength, Digits, Strtol, Clamp, IsField, At, Spaces;
    NumeralParts(t, spaces, g, ds, rest, from, end);
    EndIsNoField(rest);
    StrtolParts(t, spaces, g, ds, rest, from);
  }

  lemma StrtolParts(t: CString, spaces: nat, g: Sign, ds: CString, rest: CString, from: nat)
    requires AllDigits(ds) && ds != [] && !IsDigit(At(rest, 0))
    requires SpaceLength(t) == spaces && from == spaces + |SignText(g)| && from <= |t|
    requires t[from..] == ds + rest && Begins(g, At(t, spaces))
    ensures Strtol(t) == (Clamp(Signed(g, Val(ds))), from + |ds|)
  {
    DigitsCounted(ds, rest);
    StrtolOf(t, spaces, g, ds, from);
  }

  /** [spaces][sign]digits, then whatever ends the field. */
  ghost predicate IsInteger(t: CString, g: Sign, ds: CString) {
    exists spaces: nat, rest: CString ::
      AllDigits(ds) && ds != [] && EndsField(rest) && t == Spaces(spaces) + (SignText(g) + (ds + rest))
  }

  /** For every [spaces][sign]digits field, 'i' stores the number, saturated to 32 bits. */
  lemma ParsesInteger(t: CString, g: Sign, ds: CString)
    requires IsInteger(t, g, ds)
    ensures AllDigits(ds)
    ensures ParseInteger(Rest(t)) == Stored([Integer(Clamp(Signed(g, Val(ds))))])
  {
    var spaces: nat, rest: CString :|
      AllDigits(ds) && ds != [] && EndsField(rest) && t == Spaces(spaces) + (SignText(g) + (ds + rest));
    var from := spaces + |SignText(g)|;
    var end := from + |ds|;
    StrtolNumeral(t, spaces, g, ds, rest, from, end);
    ParseIntegerOf(t, Clamp(Signed(g, Val(ds))), end);
  }

  lemma EndIsNoField(rest: CString)
    requires EndsField(rest)
    ensures !IsField(At(rest, 0)) && !IsDigit(At(rest, 0))
  {
  }

  lemma ParseIntegerOf(t: CString, v: int, taken: nat)
    requires Strtol(t) == (v, taken) && !IsField(At(t, taken))
    ensures ParseInteger(Rest(t)) == Stored([Integer(v)])
  {
  }

  /** Formats of 's', 'c' and '_', with ';' anywhere. */
  predicate IsSimple(format: CString) {
    forall k :: 0 <= k < |format| ==> format[k] in [STRING, CHARACTER, IGNORE, OPTIONAL]
  }

  /** How many directives come before the first ';'. */
  function Required(format: CString): nat {
    if format == [] || format[0] == OPTIONAL then 0 else 1 + Required(format[1..])
  }

  lemma {:induction false} SimpleFields(fs: seq<CString>, format: CString, optional: bool)
    requires IsSimple(format)
    ensures ScanFields(fs, format, optional).Done? <==> optional || Required(format) <= |fs|
    decreases |format|
  {
    if format != [] {
      assert format[0] in [STRING, CHARACTER, IGNORE, OPTIONAL];
      if format[0] == OPTIONAL {
        SimpleFields(fs, format[1..], true);
      } else {
        SimpleFields(if fs == [] then [] else fs[1..], format[1..], optional);
      }
    }
  }

  /** A scan for strings, characters and ignored fields succeeds exactly when the text has
      at least as many fields as directives come before ';'. */
  lemma SimpleScan(s: CString, format: CString)
    requires IsSimple(format)
    ensures ScanFrom(Rest(s), format, false).Done? <==> Required(format) <= |Split(s)|
  {
    ScansByField(Rest(s), format, false);
    SimpleFields(Split(s), format, false);
  }

  function Strings(n: nat): CString {
    if n == 0 then [] else [STRING] + Strings(n - 1)
  }

  function Texts(fs: seq<CString>): seq<Value> {
    if fs == [] then [] else [Text(fs[0])] + Texts(fs[1..])
  }

  lemma {:induction false} StringFields(fs: seq<CString>)
    requires AllWhole(fs)
    ensures ScanFields(fs, Strings(|fs|), false) == Done(Texts(fs))
    decreases |fs|
  {
    if fs != [] {
      assert Strings(|fs|)[1..] == Strings(|fs[1..]|);
      WholePrefix(fs[0], []);
      assert fs[0] + [] == fs[0];
      StringFields(fs[1..]);
    }
  }

  lemma {:induction false} StringsOnly(n: nat)
    ensures INTEGER !in Strings(n)
  {
    if n > 0 {
      StringsOnly(n - 1);
    }
  }

  /** Scanning any list of fields joined by commas for as many strings gives the list back. */
  lemma ListRoundTrip(fs: seq<CString>, rest: CString)
    requires fs != [] && AllWhole(fs) && EndsText(rest)
    ensures ScanFrom(Rest(Join(fs) + rest), Strings(|fs|), false) == Done(Texts(fs))
  {
    StringsOnly(|fs|);
    ScansByField(Rest(Join(fs) + rest), Strings(|fs|), false);
    SplitOfJoin(fs, rest);
    StringFields(fs);
  }

  /** The number behind two line ends. */
  lemma NumberOnNextLine()
    ensures Strtol([CR, LF, 0x35]) == (5, 3) && SpaceLength([CR, LF, 0x35]) == 2
  {
    var t := [CR, LF, 0x35];
    assert t[1..] == [LF, 0x35] && t[1..][1..] == [0x35];
    assert SpaceLength([0x35]) == 0 && SpaceLength(t[1..]) == 1 && SpaceLength(t) == 2;
    assert t[2..] == [0x35] && DigitLength([0x35][1..]) == 0;
    assert Digits(t[2..]) == [0x35] && Val([0x35][..0]) == 0 && Val([0x35]) == 5;
  }

  /** An 'i' on a blank last field takes a number from the next line. */
  lemma IntegerReadsOn()
    ensures ReadsOn([CR, LF, 0x35])
    ensures ScanFrom(Rest([CR, LF, 0x35]), [INTEGER], false) == Done([Integer(5)])
    ensures ScanFields(Split([CR, LF, 0x35]), [INTEGER], false) == Done([Integer(0)])
  {
    var t := [CR, LF, 0x35];
    NumberOnNextLine();
    assert FieldLength(t) == 0;
    ParseIntegerOf(t, 5, 3);
    ScanOneInteger(t, Integer(5));
    BlankHasNoNumber(t);
    assert t[..0] == [] && Split(t) == [[]];
  }

  lemma ScanOneInteger(t: CString, v: Value)
    requires ParseInteger(Rest(t)) == Stored([v])
    ensures ScanFrom(Rest(t), [INTEGER], false) == Done([v])
  {
    assert [INTEGER][1..] == [];
  }
}
