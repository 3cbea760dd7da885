// The transmitting half of the interrupt-driven USART (XMEGA/usart_driver.c).
//
// The main program and the interrupt routine share a ring, its head and tail
// indices and the control register CTRLA.  Every function of the main program is
// split into its individual accesses to that shared memory, and the interrupt may
// fire between any two of them; the interrupt itself runs to completion.

module UsartTransmit {
  import opened Wrappers
  import opened Ring

  // The data-register-empty interrupt level: the two low bits of CTRLA.
  const DRE_MASK: Byte := 0x03

  /** Which access of PutByte comes next, with the locals read so far. */
  datatype Pc =
    | Ready
    | AtFreeHead(data: Byte)                // FreeSpace: read TX_Head
    | AtFreeTail(data: Byte, next: nat)     // FreeSpace: read TX_Tail and compare
    | AtHead(data: Byte)                    // read TX_Head again
    | AtStore(data: Byte, head: nat)        // TX[head] = data
    | AtAdvance(data: Byte, head: nat)      // TX_Head = head + 1
    | AtReadControl(data: Byte)             // read CTRLA
    | AtWriteControl(data: Byte, ctrl: Byte) // write CTRLA back with the level set

  /** `calls` logs each finished PutByte with its result, `accepted` the bytes put
      into the ring, `sent` the bytes written to the DATA register. */
  datatype State = State(tx: seq<Byte>, head: nat, tail: nat, ctrla: Byte, level: Byte, pc: Pc,
                         calls: seq<(Byte, bool)>, accepted: seq<Byte>, sent: seq<Byte>)

  datatype Event =
    | Call(data: Byte)  // the main program calls PutByte
    | Access            // PutByte makes its next access
    | DataRegEmpty      // the DRE interrupt fires

  predicate Shape(s: State) {
    |s.tx| == SIZE && s.head < SIZE && s.tail < SIZE
  }

  predicate DreEnabled(s: State) {
    s.ctrla & DRE_MASK != 0
  }

  predicate Enabled(s: State, e: Event) {
    match e
    case Call(_) => s.pc.Ready?
    case Access => !s.pc.Ready? && (s.pc.AtStore? ==> s.pc.head < |s.tx|)
    case DataRegEmpty => DreEnabled(s) && Shape(s)
  }

  function Next(s: State, e: Event): State
    requires Enabled(s, e)
  {
    match e
    case Call(data) => s.(pc := AtFreeHead(data))
    case Access => NextAccess(s)
    case DataRegEmpty =>
      if s.head == s.tail then s.(ctrla := s.ctrla & !DRE_MASK)
      else s.(sent := s.sent + [s.tx[s.tail]], tail := Advance(s.tail))
  }

  function NextAccess(s: State): State
    requires !s.pc.Ready? && (s.pc.AtStore? ==> s.pc.head < |s.tx|)
  {
    match s.pc
    case AtFreeHead(d) => s.(pc := AtFreeTail(d, Advance(s.head)))
    case AtFreeTail(d, next) =>
      if next != s.tail then s.(pc := AtHead(d)) else s.(pc := Ready, calls := s.calls + [(d, false)])
    case AtHead(d) => s.(pc := AtStore(d, s.head))
    case AtStore(d, h) => s.(tx := s.tx[h := d], pc := AtAdvance(d, h))
    case AtAdvance(d, h) => s.(head := Advance(h), accepted := s.accepted + [d], pc := AtReadControl(d))
    case AtReadControl(d) => s.(pc := AtWriteControl(d, s.ctrla))
    case AtWriteControl(d, c) =>
      s.(ctrla := (c & !DRE_MASK) | s.level, pc := Ready, calls := s.calls + [(d, true)])
  }

  /** USART_InterruptDriver_Initialize; a level is one of the four values of the mask. */
  predicate Init(s: State) {
    && |s.tx| == SIZE && s.head == 0 && s.tail == 0 && s.pc == Ready
    && s.level & !DRE_MASK == 0
    && s.calls == [] && s.accepted == [] && s.sent == []
  }

  // ---------- what every interleaving keeps ----------

  function Pending(s: State): seq<Byte>
    requires Shape(s)
  {
    Content(s.tx, s.head, s.tail)
  }

  /** The bytes of the calls that returned true. */
  function Granted(calls: seq<(Byte, bool)>): seq<Byte> {
    if calls == [] then []
    else
      var c := calls[|calls| - 1];
      Granted(calls[..|calls| - 1]) + (if c.1 then [c.0] else [])
  }

  lemma GrantedAppend(calls: seq<(Byte, bool)>, c: (Byte, bool))
    ensures Granted(calls + [c]) == Granted(calls) + (if c.1 then [c.0] else [])
  {
    assert (calls + [c])[..|calls|] == calls;
  }

  /** What PutByte's locals still say, however often the interrupt fired meanwhile. */
  predicate LocalsValid(s: State)
    requires Shape(s)
  {
    match s.pc
    case AtFreeTail(_, next) => next == Advance(s.head)
    case AtHead(_) => Advance(s.head) != s.tail
    case AtStore(_, h) => h == s.head && Advance(s.head) != s.tail
    case AtAdvance(d, h) => h == s.head && Advance(s.head) != s.tail && s.tx[h] == d
    case _ => true
  }

  predicate Enabling(s: State) {
    s.pc.AtReadControl? || s.pc.AtWriteControl?
  }

  /** The ring holds what is accepted and not yet sent. */
  predicate RingInv(s: State) {
    && Shape(s)
    && LocalsValid(s)
    && s.accepted == s.sent + Pending(s)
    && s.accepted == Granted(s.calls) + (if Enabling(s) then [s.pc.data] else [])
  }

  /** The interrupt is on when needed; `other` is what the non-DRE bits of CTRLA were at the start. */
  predicate ControlInv(s: State, other: Byte) {
    && s.level & !DRE_MASK == 0
    && s.ctrla & !DRE_MASK == other
    && (s.pc.AtWriteControl? ==> s.pc.ctrl & !DRE_MASK == other)
    && (s.head != s.tail && s.level != 0 ==> DreEnabled(s) || Enabling(s))
  }

  predicate Inv(s: State, other: Byte) {
    RingInv(s) && ControlInv(s, other)
  }

  lemma ControlBits(c: Byte, level: Byte)
    requires level & !DRE_MASK == 0
    ensures ((c & !DRE_MASK) | level) & !DRE_MASK == c & !DRE_MASK
    ensures ((c & !DRE_MASK) | level) & DRE_MASK == level
    ensures (c & !DRE_MASK) & !DRE_MASK == c & !DRE_MASK
    ensures (c & !DRE_MASK) & DRE_MASK == 0
  {
  }

  lemma StoreAccess(s: State)
    requires RingInv(s) && s.pc.AtStore?
    ensures RingInv(NextAccess(s))
  {
    StoreKeepsContent(s.tx, s.head, s.tail, s.pc.data);
    assert Pending(NextAccess(s)) == Pending(s);
  }

  lemma AdvanceAccess(s: State)
    requires RingInv(s) && s.pc.AtAdvance?
    ensures RingInv(NextAccess(s))
  {
    AdvanceHead(s.tx, s.head, s.tail);
    assert Pending(NextAccess(s)) == Pending(s) + [s.pc.data];
  }

  /** PutByte returns: the log entry matches whether the byte went into the ring. */
  lemma ReturnAccess(s: State, ok: bool)
    requires RingInv(s) && (if ok then s.pc.AtWriteControl? else s.pc.AtFreeTail? && s.pc.next == s.tail)
    ensures RingInv(NextAccess(s))
  {
    GrantedAppend(s.calls, (s.pc.data, ok));
  }

  lemma RingAccess(s: State)
    requires RingInv(s) && !s.pc.Ready?
    ensures RingInv(NextAccess(s))
  {
    match s.pc {
      case AtStore(_, _) => StoreAccess(s);
      case AtAdvance(_, _) => AdvanceAccess(s);
      case AtWriteControl(_, _) => ReturnAccess(s, true);
      case AtFreeTail(_, next) =>
        if next == s.tail {
          ReturnAccess(s, false);
        }
      case _ =>
    }
  }

  /** PutByte's last access writes CTRLA back with the level set. */
  lemma ControlWritten(s: State, other: Byte)
    requires ControlInv(s, other) && s.pc.AtWriteControl?
    ensures ControlInv(NextAccess(s), other)
  {
    ControlBits(s.pc.ctrl, s.level);
  }

  /** The other accesses leave CTRLA alone. */
  lemma ControlKept(s: State, t: State, other: Byte)
    requires ControlInv(s, other) && t.ctrla == s.ctrla && t.level == s.level
    requires t.pc.AtWriteControl? ==> t.pc.ctrl == s.ctrla
    requires (t.head == s.head && t.tail == s.tail && !Enabling(s)) || Enabling(t)
    ensures ControlInv(t, other)
  {
  }

  lemma ControlAccess(s: State, other: Byte)
    requires ControlInv(s, other) && !s.pc.Ready? && (s.pc.AtStore? ==> s.pc.head < |s.tx|)
    ensures ControlInv(NextAccess(s), other)
  {
    if s.pc.AtWriteControl? {
      ControlWritten(s, other);
    } else {
      ControlKept(s, NextAccess(s), other);
    }
  }

  lemma InvInterrupt(s: State, other: Byte)
    requires Inv(s, other) && Enabled(s, DataRegEmpty)
    ensures Inv(Next(s, DataRegEmpty), other)
  {
    if s.head == s.tail {
      ControlBits(s.ctrla, s.level);
    } else {
      AdvanceTail(s.tx, s.head, s.tail);
    }
  }

  predicate Trace(s: State, es: seq<Event>, r: State)
    decreases es
  {
    if es == [] then s == r
    else Enabled(s, es[0]) && Trace(Next(s, es[0]), es[1..], r)
  }

  lemma {:induction false} InvTrace(s: State, es: seq<Event>, r: State, other: Byte)
    requires Inv(s, other) && Trace(s, es, r)
    ensures Inv(r, other)
    decreases es
  {
    if es != [] {
      match es[0] {
        case Call(_) =>
        case Access => RingAccess(s); ControlAccess(s, other);
        case DataRegEmpty => InvInterrupt(s, other);
      }
      InvTrace(Next(s, es[0]), es[1..], r, other);
    }
  }

  // ---------- the bytes are those of the calls ----------

  /** The bytes PutByte was called with. */
  function Called(es: seq<Event>): seq<Byte> {
    if es == [] then [] else (if es[0].Call? then [es[0].data] else []) + Called(es[1..])
  }

  function Bytes(calls: seq<(Byte, bool)>): (bs: seq<Byte>)
    ensures |bs| == |calls| && forall k :: 0 <= k < |calls| ==> bs[k] == calls[k].0
  {
    seq(|calls|, k requires 0 <= k < |calls| => calls[k].0)
  }

  /** The bytes of the finished calls and of the one under way. */
  function Logged(s: State): seq<Byte> {
    Bytes(s.calls) + (if s.pc.Ready? then [] else [s.pc.data])
  }

  lemma LoggedStep(s: State, e: Event)
    requires Enabled(s, e)
    ensures Logged(Next(s, e)) == Logged(s) + (if e.Call? then [e.data] else [])
  {
  }

  /** Every byte logged is the one its call was given, in call order. */
  lemma {:induction false} CallsLogged(s: State, es: seq<Event>, r: State)
    requires Trace(s, es, r)
    ensures Logged(r) == Logged(s) + Called(es)
    decreases es
  {
    if es != [] {
      LoggedStep(s, es[0]);
      CallsLogged(Next(s, es[0]), es[1..], r);
    }
  }

  /** At the start nothing is logged. */
  lemma NothingLogged(s: State)
    requires Init(s)
    ensures forall bs: seq<Byte> :: Logged(s) + bs == bs
  {
    assert Logged(s) == [];
    forall bs: seq<Byte> ensures Logged(s) + bs == bs {
      assert [] + bs == bs;
    }
  }

  /** Under every interleaving: the bytes written to DATA are a prefix of the
      accepted ones, those are the bytes of the calls that return true (in call
      order), the rest of them is in the ring, with a level that is not "off" a
      non-empty ring never waits with its interrupt off unless PutByte is about to
      turn it on, CTRLA keeps its other bits, and the calls logged are those that were
      made, each with the byte it was given. */
  lemma TransmitsInOrder(s: State, es: seq<Event>, r: State)
    requires Init(s) && Trace(s, es, r)
    ensures Shape(r) && r.sent + Pending(r) == r.accepted
    ensures r.accepted == Granted(r.calls) + (if Enabling(r) then [r.pc.data] else [])
    ensures r.sent <= r.accepted
    ensures Pending(r) != [] && r.level != 0 ==> DreEnabled(r) || Enabling(r)
    ensures r.ctrla & !DRE_MASK == s.ctrla & !DRE_MASK
    ensures Logged(r) == Called(es)
  {
    hide Called, Logged;
    InvTrace(s, es, r, s.ctrla & !DRE_MASK);
    CallsLogged(s, es, r);
    NothingLogged(s);
  }

  /** A call is refused exactly when 127 bytes are waiting at its tail access. */
  lemma RefusedWhenFull(s: State, es: seq<Event>, r: State)
    requires Init(s) && Trace(s, es, r) && r.pc.AtFreeTail?
    ensures Shape(r)
    ensures Next(r, Access).pc.Ready? <==> |Pending(r)| == SIZE - 1
  {
    InvTrace(s, es, r, s.ctrla & !DRE_MASK);
  }

  function Interrupts(n: nat): seq<Event> {
    seq(n, _ => DataRegEmpty)
  }

  /** Draining: between calls, as many interrupts as bytes wait are enabled in a
      row, they send everything accepted, and one more turns the interrupt off. */
  lemma {:induction false} Drains(s: State, other: Byte) returns (r: State)
    requires Inv(s, other) && s.pc.Ready? && DreEnabled(s)
    ensures Trace(s, Interrupts(|Pending(s)| + 1), r)
    ensures r.sent == r.accepted == s.accepted && r.head == r.tail && !DreEnabled(r)
    decreases |Pending(s)|
  {
    var n := |Pending(s)|;
    var u := Next(s, DataRegEmpty);
    InvInterrupt(s, other);
    if s.head == s.tail {
      ControlBits(s.ctrla, s.level);
      r := u;
    } else {
      AdvanceTail(s.tx, s.head, s.tail);
      r := Drains(u, other);
    }
    assert Interrupts(n + 1)[1..] == Interrupts(n);
  }

  // ---------- the driver ----------

  /** The transmit half of USART_data_t with the register it drives. */
  class Driver {
    const tx: array<Byte>
    var head: nat
    var tail: nat
    var ctrla: Byte
    const level: Byte
    var pc: Pc
    ghost var calls: seq<(Byte, bool)>
    ghost var accepted: seq<Byte>
    ghost var sent: seq<Byte>

    ghost function View(): State
      reads this, tx
    {
      State(tx[..], head, tail, ctrla, level, pc, calls, accepted, sent)
    }

    constructor (dreIntLevel: Byte, control: Byte)
      requires dreIntLevel & !DRE_MASK == 0
      ensures Init(View()) && fresh(tx)
      ensures ctrla == control && level == dreIntLevel
    {
      tx := new Byte[SIZE];
      head, tail, ctrla, level, pc := 0, 0, control, dreIntLevel, Ready;
      calls, accepted, sent := [], [], [];
    }

    /** One shared access of USART_TXBuffer_PutByte (and FreeSpace inside it). */
    method Access()
      requires Enabled(View(), Event.Access)
      modifies this, tx
      ensures View() == Next(old(View()), Event.Access)
    {
      match pc {
        case AtFreeHead(d) =>
          pc := AtFreeTail(d, (head + 1) % SIZE);
        case AtFreeTail(d, next) =>
          if next != tail {
            pc := AtHead(d);
          } else {
            pc := Ready;
            calls := calls + [(d, false)];
          }
        case AtHead(d) =>
          pc := AtStore(d, head);
        case AtStore(d, h) =>
          tx[h] := d;
          pc := AtAdvance(d, h);
        case AtAdvance(d, h) =>
          head := (h + 1) % SIZE;
          accepted := accepted + [d];
          pc := AtReadControl(d);
        case AtReadControl(d) =>
          pc := AtWriteControl(d, ctrla);
        case AtWriteControl(d, c) =>
          ctrla := (c & !DRE_MASK) | level;
          pc := Ready;
          calls := calls + [(d, true)];
      }
    }

    /** The DRE interrupt routine; `data` is what it writes to the data register. */
    method DataRegEmpty() returns (data: Option<Byte>)
      requires Enabled(View(), Event.DataRegEmpty)
      modifies this
      ensures View() == Next(old(View()), Event.DataRegEmpty)
      ensures data == if old(head) == old(tail) then None else Some(old(tx[tail]))
    {
      if head == tail {
        ctrla := ctrla & !DRE_MASK;
        data := None;
      } else {
        data := Some(tx[tail]);
        sent := sent + [tx[tail]];
        tail := (tail + 1) % SIZE;
      }
    }
  }
}
