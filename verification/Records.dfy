// Output records (thread_io/queue/ollist_threads_rw.h).

module Records {

  type Uchar = x: int | 0 <= x < 0x100
  type Uint = x: int | 0 <= x < 0x1_0000_0000

  /** O_DATA, without its unused pulse time. */
  datatype Rec = Rec(
    name: string,         // the field `label`
    port: Uchar,
    onoff: Uchar,
    inputPort: Uchar,   // 0xFF when no input is assigned
    polarity: Uchar,
    kind: Uchar,        // the field `type`
    timeDelay: Uint,
    timeLeft: Uint,
    reset: Uchar)

  const NO_INPUT: Uchar := 0xFF

  /** TOGGLE_OTP. */
  function Toggle(onoff: Uchar): Uchar {
    if onoff == 1 then 0 else 1
  }

  /** Does find_data_op accept this record for (input, port)? */
  predicate Drives(r: Rec, input: int, port: int) {
    r.inputPort != NO_INPUT && r.port == port && r.inputPort == input
  }
}
