// The checksum test of thread_io/minmea.c, and the program's own sentence emitter.

module NmeaChecksum {
  import opened NmeaText

  const MINMEA_MAX_LENGTH := 80

  datatype Hex = Value(v: Byte) | NoDigit

  /** hex2int; NoDigit stands for its -1. */
  function Hex2Int(c: Byte): (h: Hex)
    ensures h.Value? ==> h.v < 16
    ensures h.Value? ==> IsPrint(c)
  {
    if 0x30 <= c <= 0x39 then Value(c - 0x30)
    else if 0x41 <= c <= 0x46 then Value(c - 0x41 + 10)
    else if 0x61 <= c <= 0x66 then Value(c - 0x61 + 10)
    else NoDigit
  }

  /** The XOR of all characters of a text. */
  function Xor(s: CString): Byte {
    if s == [] then 0 else Xor(s[..|s| - 1]) ^ s[|s| - 1]
  }

  lemma XorNext(s: CString, from: nat, i: nat)
    requires from <= i < |s|
    ensures Xor(s[from..i + 1]) == Xor(s[from..i]) ^ s[i]
  {
    assert s[from..i + 1][..i - from] == s[from..i];
  }

  /** Characters the checksum of minmea_check runs over. */
  predicate IsBody(c: Byte) { IsPrint(c) && c != STAR }

  predicate AllBody(s: CString) { forall k :: 0 <= k < |s| ==> IsBody(s[k]) }

  /** How many characters of s from i on belong to the checksummed body. */
  function BodyLength(s: CString, i: nat): (n: nat)
    requires i <= |s|
    ensures i + n <= |s| && AllBody(s[i..i + n]) && !IsBody(At(s, i + n))
    decreases |s| - i
  {
    if i < |s| && IsBody(s[i]) then
      var n := 1 + BodyLength(s, i + 1);
      assert s[i..i + n] == [s[i]] + s[i + 1..i + n];
      n
    else 0
  }

  /** Two characters that spell the byte b in hexadecimal, in either case. */
  predicate Spells(hi: Byte, lo: Byte, b: Byte) {
    Hex2Int(hi).Value? && Hex2Int(lo).Value? && (Hex2Int(hi).v << 4) | Hex2Int(lo).v == b
  }

  /** The sentences minmea_check lets through. */
  predicate Accepts(s: CString, strict: bool) {
    && |s| <= MINMEA_MAX_LENGTH + 3
    && At(s, 0) == DOLLAR
    && var end := 1 + BodyLength(s, 1);
       if At(s, end) == STAR then Spells(At(s, end + 1), At(s, end + 2), Xor(s[1..end])) else !strict
  }

  /** The part of minmea_check that compares the transmitted checksum. */
  method CheckDigits(first: Byte, second: Byte, checksum: Byte) returns (ok: bool)
    ensures ok <==> Spells(first, second, checksum)
  {
    var upper := Hex2Int(first);
    if upper.NoDigit? {
      return false;
    }
    var lower := Hex2Int(second);
    if lower.NoDigit? {
      return false;
    }
    return checksum == (upper.v << 4) | lower.v;
  }

  /** minmea_check */
  method Check(sentence: CString, strict: bool) returns (ok: bool)
    ensures ok <==> Accepts(sentence, strict)
  {
    if |sentence| > MINMEA_MAX_LENGTH + 3 {
      return false;
    }
    if At(sentence, 0) != DOLLAR {
      return false;
    }
    var i, checksum: Byte := 1, 0;
    while IsBody(At(sentence, i))
      invariant 1 <= i <= |sentence|
      invariant checksum == Xor(sentence[1..i])
      invariant 1 + BodyLength(sentence, 1) == i + BodyLength(sentence, i)
      decreases |sentence| - i
    {
      XorNext(sentence, 1, i);
      checksum := checksum ^ sentence[i];
      i := i + 1;
    }
    if At(sentence, i) == STAR {
      ok := CheckDigits(At(sentence, i + 1), At(sentence, i + 2), checksum);
      return ok;
    }
    return !strict;
  }

  /** How many characters of s from i on come before the first '*'. */
  function StarLength(s: CString, i: nat): (n: nat)
    requires i <= |s|
    ensures i + n <= |s| && STAR !in s[i..i + n] && (i + n < |s| ==> s[i + n] == STAR)
    decreases |s| - i
  {
    if i < |s| && s[i] != STAR then
      var n := 1 + StarLength(s, i + 1);
      assert s[i..i + n] == [s[i]] + s[i + 1..i + n];
      n
    else 0
  }

  /** minmea_checksum */
  method Checksum(sentence: CString) returns (checksum: Byte)
    ensures var start := if At(sentence, 0) == DOLLAR then 1 else 0;
            checksum == Xor(sentence[start..start + StarLength(sentence, start)])
  {
    var i := if At(sentence, 0) == DOLLAR then 1 else 0;
    ghost var start := i;
    checksum := 0;
    while At(sentence, i) != NUL && At(sentence, i) != STAR
      invariant start <= i <= |sentence|
      invariant checksum == Xor(sentence[start..i])
      invariant start + StarLength(sentence, start) == i + StarLength(sentence, i)
      decreases |sentence| - i
    {
      XorNext(sentence, start, i);
      checksum := checksum ^ sentence[i];
      i := i + 1;
    }
  }

  // ---------- the emitter ----------

  /** A digit of printf's "%02x". */
  function HexDigit(v: Byte): (c: Chr)
    requires v < 16
    ensures Hex2Int(c) == Value(v)
  {
    if v < 10 then 0x30 + v else 0x61 + (v - 10)
  }

  function Hex2(b: Byte): (s: CString)
    ensures |s| == 2 && Spells(s[0], s[1], b)
  {
    [HexDigit(b >> 4), HexDigit(b & 0x0F)]
  }

  /** A body with its frame: start, the given check characters, end of line. */
  function Framed(body: CString, check: CString): CString {
    [DOLLAR] + body + [STAR] + check + [CR, LF]
  }

  /** The steps of set_gps_baudrate that complete a sentence with its checksum. */
  method Emit(body: CString) returns (sentence: CString)
    ensures sentence == Framed(body, Hex2(Xor(body)))
  {
    var tempx := [DOLLAR] + body;
    var checksum: Byte := 0;
    for i := 1 to |tempx|
      invariant checksum == Xor(body[..i - 1])
    {
      assert body[..i][..i - 1] == body[..i - 1];
      checksum := checksum ^ tempx[i];
    }
    assert body[..|body|] == body;
    sentence := tempx + ([STAR] + Hex2(checksum));
    sentence := sentence + [CR, LF];
  }

  /** The body set_gps_baudrate asks the receiver with: PSRF100,1,<rate>,8,1,0. */
  function BaudRequest(baudrate: int): (body: CString)
    ensures AllBody(body) && |body| <= 21
  {
    [0x50, 0x53, 0x52, 0x46, 0x31, 0x30, 0x30, 0x2C, 0x31, 0x2C] +
    (match baudrate
     case 1 => [0x39, 0x36, 0x30, 0x30]
     case 2 => [0x31, 0x39, 0x32, 0x30, 0x30]
     case 3 => [0x33, 0x38, 0x34, 0x30, 0x30]
     case _ => [0x34, 0x38, 0x30, 0x30]) +
    [0x2C, 0x38, 0x2C, 0x31, 0x2C, 0x30]
  }

  // ---------- what the checksum test is worth ----------

  lemma {:induction false} FramedBody(body: CString, check: CString, i: nat)
    requires AllBody(body) && 1 <= i <= 1 + |body|
    ensures i + BodyLength(Framed(body, check), i) == 1 + |body|
    decreases |body| + 1 - i
  {
    var s := Framed(body, check);
    if i <= |body| {
      assert s[i] == body[i - 1];
      FramedBody(body, check, i + 1);
    } else {
      assert s[i] == STAR;
    }
  }

  /** A framed sentence passes, strictly or not, exactly when it is short enough and its
      check characters spell the XOR of its body. */
  lemma FramedAccepted(body: CString, check: CString, strict: bool)
    requires AllBody(body) && |check| == 2
    ensures Accepts(Framed(body, check), strict)
            <==> |body| + 6 <= MINMEA_MAX_LENGTH + 3 && Spells(check[0], check[1], Xor(body))
  {
    FramedParts(body, check);
  }

  lemma FramedParts(body: CString, check: CString)
    requires AllBody(body) && |check| == 2
    ensures var s := Framed(body, check); var end := 1 + |body|;
            && |s| == |body| + 6 && s[0] == DOLLAR
            && BodyLength(s, 1) == |body| && s[1..end] == body
            && At(s, end) == STAR && At(s, end + 1) == check[0] && At(s, end + 2) == check[1]
  {
    FramedBody(body, check, 1);
  }

  /** What the program emits, its own check accepts: every body of up to 77 characters. */
  lemma EmittedPasses(body: CString, strict: bool)
    requires AllBody(body)
    ensures Accepts(Framed(body, Hex2(Xor(body))), strict) <==> |body| <= 77
  {
    FramedAccepted(body, Hex2(Xor(body)), strict);
  }

  /** A receiver gets `received` where `sent` was meant: it notices exactly when the XORs differ. */
  lemma DetectsUnlessSameXor(sent: CString, received: CString, strict: bool)
    requires AllBody(sent) && AllBody(received) && |received| <= 77
    ensures Accepts(Framed(received, Hex2(Xor(sent))), strict) <==> Xor(received) == Xor(sent)
  {
    FramedAccepted(received, Hex2(Xor(sent)), strict);
  }

  lemma XorCancels(a: Byte, x: Byte, y: Byte)
    ensures a ^ x == a ^ y ==> x == y
  {
  }

  lemma XorSwaps(a: Byte, x: Byte, y: Byte)
    ensures a ^ x ^ y == a ^ y ^ x
  {
  }

  /** Replacing one character by a different one changes the XOR. */
  lemma {:induction false} SubstitutionXor(body: CString, k: nat, c: Chr)
    requires k < |body| && c != body[k]
    ensures Xor(body[k := c]) != Xor(body)
  {
    var n := |body| - 1;
    var other := body[k := c];
    if k == n {
      assert other[..n] == body[..n];
      XorCancels(Xor(body[..n]), c, body[n]);
    } else {
      assert other[..n] == body[..n][k := c];
      SubstitutionXor(body[..n], k, c);
      XorSwaps(0, Xor(body[..n]), body[n]);
      XorSwaps(0, Xor(other[..n]), body[n]);
      XorCancels(body[n], Xor(body[..n]), Xor(other[..n]));
    }
  }

  /** One wrong body character is always noticed. */
  lemma SubstitutionDetected(body: CString, k: nat, c: Chr, strict: bool)
    requires AllBody(body) && k < |body| && IsBody(c) && c != body[k]
    ensures !Accepts(Framed(body[k := c], Hex2(Xor(body))), strict)
  {
    SubstitutionXor(body, k, c);
    FramedAccepted(body[k := c], Hex2(Xor(body)), strict);
  }

  lemma OneDigit(hi: Byte, lo: Byte, b: Byte, c: Byte)
    requires Spells(hi, lo, b)
    ensures Spells(c, lo, b) <==> Hex2Int(c) == Hex2Int(hi)
    ensures Spells(hi, c, b) <==> Hex2Int(c) == Hex2Int(lo)
  {
  }

  /** One wrong checksum digit is noticed exactly when its value differs (so a change
      of case is not an error). */
  lemma DigitErrorDetected(body: CString, k: nat, c: Chr, strict: bool)
    requires AllBody(body) && k < 2 && |body| <= 77
    ensures var check := Hex2(Xor(body));
            Accepts(Framed(body, check[k := c]), strict) <==> Hex2Int(c) == Hex2Int(check[k])
  {
    var check := Hex2(Xor(body));
    FramedAccepted(body, check[k := c], strict);
    OneDigit(check[0], check[1], Xor(body), c);
  }

  /** A text with two neighbouring characters swapped. */
  function Swapped(body: CString, k: nat): (r: CString)
    requires k + 1 < |body|
    ensures |r| == |body| && AllBody(body) == AllBody(r)
  {
    var r := body[k := body[k + 1]][k + 1 := body[k]];
    assert r[k] == body[k + 1] && r[k + 1] == body[k];
    assert forall i :: 0 <= i < |body| && i != k && i != k + 1 ==> r[i] == body[i];
    r
  }

  lemma {:induction false} SwapXor(body: CString, k: nat)
    requires k + 1 < |body|
    ensures Xor(Swapped(body, k)) == Xor(body)
  {
    var n := |body| - 1;
    var other := Swapped(body, k);
    if k + 1 == n {
      assert other[..n][..n - 1] == body[..n][..n - 1];
      XorSwaps(Xor(body[..n][..n - 1]), body[k], body[n]);
    } else {
      assert other[..n] == Swapped(body[..n], k);
      SwapXor(body[..n], k);
    }
  }

  /** The limit of the test: two neighbouring characters that change places go unnoticed. */
  lemma SwapUndetected(body: CString, k: nat, strict: bool)
    requires AllBody(body) && k + 1 < |body| <= 77
    ensures Accepts(Framed(Swapped(body, k), Hex2(Xor(body))), strict)
  {
    SwapXor(body, k);
    DetectsUnlessSameXor(body, Swapped(body, k), strict);
  }

  /** With a '*' after a printable body, both modes compare with minmea_checksum's value. */
  lemma ChecksumAgrees(s: CString, strict: bool)
    requires 0 < |s| <= MINMEA_MAX_LENGTH + 3 && s[0] == DOLLAR
    requires var n := StarLength(s, 1); 1 + n < |s| && AllBody(s[1..1 + n])
    ensures var n := StarLength(s, 1);
            Accepts(s, strict) <==> Spells(At(s, n + 2), At(s, n + 3), Xor(s[1..1 + n]))
  {
    SameEnd(s, 1);
  }

  lemma {:induction false} SameEnd(s: CString, i: nat)
    requires i <= |s| && i + StarLength(s, i) < |s| && AllBody(s[i..i + StarLength(s, i)])
    ensures BodyLength(s, i) == StarLength(s, i)
    decreases |s| - i
  {
    var n := StarLength(s, i);
    if n > 0 {
      assert s[i] == s[i..i + n][0];
      assert s[i + 1..i + n] == s[i..i + n][1..];
      SameEnd(s, i + 1);
    }
  }

  /** Every baud rate request passes and fits the 50-byte buffer it is built in. */
  lemma BaudRequestPasses(baudrate: int, strict: bool)
    ensures var s := Framed(BaudRequest(baudrate), Hex2(Xor(BaudRequest(baudrate))));
            Accepts(s, strict) && |s| < 50
  {
    EmittedPasses(BaudRequest(baudrate), strict);
  }

  // ---------- the digits, by their places ----------

  const UPPER_DIGITS: CString :=
    [0x30, 0x31, 0x32, 0x33, 0x34, 0x35, 0x36, 0x37, 0x38, 0x39, 0x41, 0x42, 0x43, 0x44, 0x45, 0x46]

  const LOWER_DIGITS: CString :=
    [0x30, 0x31, 0x32, 0x33, 0x34, 0x35, 0x36, 0x37, 0x38, 0x39, 0x61, 0x62, 0x63, 0x64, 0x65, 0x66]

  const DIGIT_VALUES: seq<Byte> := [0, 1, 2, 3, 4, 5, 6, 7, 8, 9, 10, 11, 12, 13, 14, 15]

  /** A character stands for a value exactly when it is at that place of "0123456789ABCDEF" or of
      "0123456789abcdef". */
  lemma DigitByPlace(c: Byte, k: nat)
    requires k < 16
    ensures Hex2Int(c) == Value(DIGIT_VALUES[k]) <==> c == UPPER_DIGITS[k] || c == LOWER_DIGITS[k]
  {
    PlaceCases(k);
  }

  lemma PlaceCases(k: nat)
    requires k < 16
    ensures k < 10 ==> DIGIT_VALUES[k] < 10 && UPPER_DIGITS[k] == LOWER_DIGITS[k] == DIGIT_VALUES[k] + 0x30
    ensures k >= 10 ==> 10 <= DIGIT_VALUES[k] < 16
                        && UPPER_DIGITS[k] == DIGIT_VALUES[k] - 10 + 0x41
                        && LOWER_DIGITS[k] == DIGIT_VALUES[k] - 10 + 0x61
  {
    if k < 5 {
      assert k == 0 || k == 1 || k == 2 || k == 3 || k == 4;
    } else if k < 10 {
      assert k == 5 || k == 6 || k == 7 || k == 8 || k == 9;
    } else {
      assert k == 10 || k == 11 || k == 12 || k == 13 || k == 14 || k == 15;
    }
  }

  /** The place of a half byte. */
  function Place(v: Byte): (k: nat)
    requires v < 16
    ensures k < 16 && DIGIT_VALUES[k] == v
  {
    if v == 0 then 0 else if v == 1 then 1 else if v == 2 then 2 else if v == 3 then 3
    else if v == 4 then 4 else if v == 5 then 5 else if v == 6 then 6 else if v == 7 then 7
    else if v == 8 then 8 else if v == 9 then 9 else if v == 10 then 10 else if v == 11 then 11
    else if v == 12 then 12 else if v == 13 then 13 else if v == 14 then 14 else 15
  }

  /** Is c the digit of this half byte, in either case? */
  predicate IsDigitOf(c: Byte, v: Byte)
    requires v < 16
  {
    c == UPPER_DIGITS[Place(v)] || c == LOWER_DIGITS[Place(v)]
  }

  lemma SpelledByPlace(hi: Byte, lo: Byte, b: Byte)
    ensures b >> 4 < 16 && b & 0x0F < 16
    ensures Spells(hi, lo, b) <==> IsDigitOf(hi, b >> 4) && IsDigitOf(lo, b & 0x0F)
  {
    hide Hex2Int, Place, IsDigitOf;
    Halves(b);
    HalvesJoined(Hex2Int(hi), Hex2Int(lo), b);
    DigitOf(hi, b >> 4);
    DigitOf(lo, b & 0x0F);
  }

  lemma DigitOf(c: Byte, v: Byte)
    requires v < 16
    ensures Hex2Int(c) == Value(v) <==> IsDigitOf(c, v)
  {
    hide Hex2Int;
    DigitByPlace(c, Place(v));
  }

  /** Any other character is no digit. */
  lemma NoOtherDigit(c: Byte)
    ensures Hex2Int(c).NoDigit? <==> c !in UPPER_DIGITS && c !in LOWER_DIGITS
  {
    hide Hex2Int;
    if Hex2Int(c).Value? {
      DigitOf(c, Hex2Int(c).v);
    }
    if k: nat :| k < 16 && UPPER_DIGITS[k] == c {
      DigitByPlace(c, k);
    }
    if k: nat :| k < 16 && LOWER_DIGITS[k] == c {
      DigitByPlace(c, k);
    }
  }

  lemma HalvesJoined(x: Hex, y: Hex, b: Byte)
    requires (x.Value? ==> x.v < 16) && (y.Value? ==> y.v < 16)
    ensures x.Value? && y.Value? && (x.v << 4) | y.v == b <==> x == Value(b >> 4) && y == Value(b & 0x0F)
  {
    Halves(b);
    if x.Value? && y.Value? {
      JoinedHalves(x.v, y.v, b);
    }
  }

  lemma Halves(b: Byte)
    ensures b >> 4 < 16 && b & 0x0F < 16
  {
  }

  lemma JoinedHalves(h: Byte, l: Byte, b: Byte)
    requires h < 16 && l < 16
    ensures (h << 4) | l == b <==> h == b >> 4 && l == b & 0x0F
  {
  }

  /** Main result: a framed sentence passes, strictly or not, exactly when its body has at most 77
      characters and its check characters are the digits of its XOR, each in either case. */
  lemma AcceptedByPlace(body: CString, check: CString, strict: bool)
    requires AllBody(body) && |check| == 2
    ensures Xor(body) >> 4 < 16 && Xor(body) & 0x0F < 16
    ensures Accepts(Framed(body, check), strict)
            <==> |body| <= 77 && IsDigitOf(check[0], Xor(body) >> 4) && IsDigitOf(check[1], Xor(body) & 0x0F)
  {
    FramedAccepted(body, check, strict);
    SpelledByPlace(check[0], check[1], Xor(body));
  }

  /** The emitter's digits are the lower-case ones. */
  lemma EmitsLowerCase(b: Byte)
    ensures b >> 4 < 16 && b & 0x0F < 16
    ensures Hex2(b) == [LOWER_DIGITS[Place(b >> 4)], LOWER_DIGITS[Place(b & 0x0F)]]
  {
    Halves(b);
    LowerDigit(b >> 4);
    LowerDigit(b & 0x0F);
  }

  lemma LowerDigit(v: Byte)
    requires v < 16
    ensures HexDigit(v) == LOWER_DIGITS[Place(v)]
  {
    PlaceCases(Place(v));
  }

  /** What makes it an XOR: one character gives itself, and a character twice gives nothing. */
  lemma XorCancelsPairs(s: CString, c: Chr)
    ensures Xor([c]) == c && Xor(s + [c, c]) == Xor(s)
  {
    assert [c][..0] == [] && (s + [c, c])[..|s| + 1] == s + [c] && (s + [c])[..|s|] == s;
  }

  // ---------- sentences without a checksum ----------

  /** The test stops at the first character that is not printable: what stands behind it, a checksum
      included, is not looked at, and the sentence passes exactly when the test is not strict. */
  lemma NothingBehind(body: CString, c: Chr, rest: CString, strict: bool)
    requires AllBody(body) && !IsPrint(c)
    ensures Accepts([DOLLAR] + body + [c] + rest, strict) <==> |body| + |rest| <= 81 && !strict
  {
    var s := [DOLLAR] + body + [c] + rest;
    BodyOf(s, body, c, 1);
  }

  lemma {:induction false} BodyOf(s: CString, body: CString, c: Chr, i: nat)
    requires AllBody(body) && !IsBody(c) && 1 <= i <= 1 + |body|
    requires |s| >= |body| + 2 && s[1..1 + |body|] == body && s[1 + |body|] == c
    ensures i + BodyLength(s, i) == 1 + |body|
    decreases |body| + 1 - i
  {
    if i <= |body| {
      assert s[i] == s[1..1 + |body|][i - 1];
      BodyOf(s, body, c, i + 1);
    }
  }

  /** A sentence that ends with its body has no checksum either; one without its '$' never passes. */
  lemma NoChecksum(body: CString, strict: bool)
    requires AllBody(body)
    ensures Accepts([DOLLAR] + body, strict) <==> |body| <= 82 && !strict
  {
    BodyToEnd([DOLLAR] + body, body, 1);
  }

  lemma {:induction false} BodyToEnd(s: CString, body: CString, i: nat)
    requires AllBody(body) && 1 <= i <= 1 + |body| && s == [DOLLAR] + body
    ensures i + BodyLength(s, i) == 1 + |body|
    decreases |body| + 1 - i
  {
    if i <= |body| {
      assert s[i] == body[i - 1];
      BodyToEnd(s, body, i + 1);
    }
  }
}
