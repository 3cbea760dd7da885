// The characters thread_io/minmea.c distinguishes in a sentence of NMEA 0183 (IEC 61162-1).

module NmeaText {
  type Byte = bv8

  /** A character of a C string; the terminating NUL is not part of the string. */
  type Chr = c: Byte | c != 0 witness 1

  type CString = seq<Chr>

  const INT32_MAX := 0x7FFF_FFFF

  const NUL: Byte := 0
  const DOLLAR: Chr := 0x24
  const STAR: Chr := 0x2A
  const COMMA: Chr := 0x2C
  const CR: Chr := 0x0D
  const LF: Chr := 0x0A

  /** The character a pointer at offset i reads; the NUL past the end. */
  function At(s: CString, i: nat): Byte {
    if i < |s| then s[i] else NUL
  }

  predicate IsPrint(c: Byte) { 0x20 <= c <= 0x7E }

  predicate IsDigit(c: Byte) { 0x30 <= c <= 0x39 }

  /** minmea_isfield */
  predicate IsField(c: Byte) { IsPrint(c) && c != COMMA && c != STAR }
}
